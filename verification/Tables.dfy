/** A balance table: one row per key, in row-id order, holding an on-hand and a reserved quantity.
    Location, lot and bin balances are three such tables. */
module Tables {
  datatype Row<K> = Row(key: K, onHand: int, reserved: int)

  /** The on-hand quantity of the first row with key `k`, zero when there is none. */
  function OnHand<K(==)>(rows: seq<Row<K>>, k: K): int {
    if rows == [] then 0 else if rows[0].key == k then rows[0].onHand else OnHand(rows[1..], k)
  }

  function Reserved<K(==)>(rows: seq<Row<K>>, k: K): int {
    if rows == [] then 0 else if rows[0].key == k then rows[0].reserved else Reserved(rows[1..], k)
  }

  /** Get or create the row of `k` and add to both of its quantities. */
  function Post<K(==)>(rows: seq<Row<K>>, k: K, onHand: int, reserved: int): seq<Row<K>> {
    if rows == [] then [Row(k, onHand, reserved)]
    else if rows[0].key == k then
      [Row(k, rows[0].onHand + onHand, rows[0].reserved + reserved)] + rows[1..]
    else [rows[0]] + Post(rows[1..], k, onHand, reserved)
  }

  predicate Has<K(==)>(rows: seq<Row<K>>, k: K) {
    exists i :: 0 <= i < |rows| && rows[i].key == k
  }

  /** Each key has at most one row. */
  ghost predicate Unique<K>(rows: seq<Row<K>>) {
    forall i, j :: 0 <= i < j < |rows| ==> rows[i].key != rows[j].key
  }

  /** Total on hand over the rows whose keys belong to group `g`. */
  function SumOnHand<K, G(==)>(rows: seq<Row<K>>, group: K -> G, g: G): int {
    if rows == [] then 0
    else (if group(rows[0].key) == g then rows[0].onHand else 0) + SumOnHand(rows[1..], group, g)
  }

  lemma {:induction false} PostChangesOneKey<K>(rows: seq<Row<K>>, k: K, onHand: int, reserved: int, other: K)
    ensures OnHand(Post(rows, k, onHand, reserved), other)
         == OnHand(rows, other) + (if other == k then onHand else 0)
    ensures Reserved(Post(rows, k, onHand, reserved), other)
         == Reserved(rows, other) + (if other == k then reserved else 0)
  {
    if rows != [] {
      if rows[0].key != k {
        PostChangesOneKey(rows[1..], k, onHand, reserved, other);
      }
    }
  }

  lemma {:induction false} PostChangesSum<K, G>(rows: seq<Row<K>>, k: K, onHand: int, reserved: int, group: K -> G,
      g: G)
    ensures SumOnHand(Post(rows, k, onHand, reserved), group, g)
         == SumOnHand(rows, group, g) + (if group(k) == g then onHand else 0)
  {
    if rows != [] {
      if rows[0].key != k {
        PostChangesSum(rows[1..], k, onHand, reserved, group, g);
      }
    }
  }

  lemma {:induction false} PostKeepsKeys<K>(rows: seq<Row<K>>, k: K, onHand: int, reserved: int)
    ensures var after := Post(rows, k, onHand, reserved);
            && |after| == |rows| + (if Has(rows, k) then 0 else 1)
            && (forall i :: 0 <= i < |rows| ==> after[i].key == rows[i].key)
            && (!Has(rows, k) ==> after[|rows|].key == k)
    ensures Unique(rows) ==> Unique(Post(rows, k, onHand, reserved))
  {
    if rows != [] {
      if rows[0].key != k {
        PostKeepsKeys(rows[1..], k, onHand, reserved);
        assert Has(rows[1..], k) ==> Has(rows, k);
        assert forall i :: 1 <= i < |rows| ==> rows[i] == rows[1..][i - 1];
        assert Has(rows, k) ==> Has(rows[1..], k);
      }
    }
  }

  lemma {:induction false} AbsentKeyHoldsNothing<K>(rows: seq<Row<K>>, k: K)
    requires forall i :: 0 <= i < |rows| ==> rows[i].key != k
    ensures OnHand(rows, k) == 0
  {
    if rows != [] {
      AbsentKeyHoldsNothing(rows[1..], k);
    }
  }

  /** When the rows of a group are all non-negative, each of them is at most the group's total. */
  lemma {:induction false} RowWithinTotal<K, G>(rows: seq<Row<K>>, group: K -> G, g: G, k: K)
    requires Unique(rows) && group(k) == g
    requires forall other :: group(other) == g ==> 0 <= OnHand(rows, other)
    ensures 0 <= OnHand(rows, k) <= SumOnHand(rows, group, g)
  {
    if rows != [] {
      var first := rows[0].key;
      AbsentKeyHoldsNothing(rows[1..], first);
      forall other | group(other) == g ensures 0 <= OnHand(rows[1..], other) {
        assert other != first ==> OnHand(rows, other) == OnHand(rows[1..], other);
      }
      assert group(first) == g ==> 0 <= OnHand(rows, first);
      RowWithinTotal(rows[1..], group, g, k);
    }
  }
}
