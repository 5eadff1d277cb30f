/** The backfill as it runs: lines grouped in a dictionary, each group sorted, rows saved one by one. */
module BackfillRun {
  import opened Records
  import opened Ordering
  import opened OrderChains
  import opened LineBackfill

  class Migration {
    var lines: seq<OrderLine>
    var receipts: seq<ReceiptLine>

    constructor (db: Database)
      ensures lines == db.lines && receipts == db.receipts
    {
      lines, receipts := db.lines, db.receipts;
    }

    /** Group the lines by chain root and product. */
    method GroupLines(pos: map<OrderId, Order>) returns (groups: map<Logical, seq<nat>>)
      ensures Grouped(pos, Identities(lines), groups)
    {
      groups := map[];
      ghost var ids := Identities(lines);
      var i := 0;
      while i < |lines|
        invariant 0 <= i <= |lines|
        invariant Grouped(pos, ids[..i], groups)
      {
        var root := FindChainRoot(pos, lines[i].ident.po);
        var key := Logical(root, lines[i].ident.product);
        GroupStep(pos, ids, i, groups);
        groups := groups[key := (if key in groups then groups[key] else []) + [i]];
        i := i + 1;
      }
      assert ids[..i] == ids;
    }

    /** Point every version of one logical line but the earliest at the earliest. */
    method LinkGroup(order: seq<nat>)
      requires NoRepeats(order) && order != [] && forall k :: 0 <= k < |order| ==> order[k] < |lines|
      modifies this`lines
      ensures |lines| == |old(lines)|
      ensures forall j :: 0 <= j < |lines| ==>
        lines[j] == (if j in order && j != order[0] then old(lines)[j].(root := Some(old(lines)[order[0]].ident.id))
                     else old(lines)[j])
    {
      var root := lines[order[0]].ident.id;
      var m := 1;
      while m < |order|
        invariant 1 <= m <= |order| && |lines| == |old(lines)|
        invariant forall j :: 0 <= j < |lines| ==>
          lines[j] == (if j in order[1..m] then old(lines)[j].(root := Some(root)) else old(lines)[j])
      {
        assert order[1..m + 1] == order[1..m] + [order[m]];
        lines := lines[order[m] := lines[order[m]].(root := Some(root))];
        m := m + 1;
      }
      assert order == [order[0]] + order[1..];
    }

    method LinkLines(pos: map<OrderId, Order>)
      modifies this`lines
      ensures lines == StampLines(pos, old(lines))
    {
      ghost var before, ids := lines, Identities(lines);
      var groups := GroupLines(pos);
      var todo := groups.Keys;
      while todo != {}
        invariant todo <= groups.Keys && |lines| == |before|
        invariant forall j: nat :: j < |lines| ==> lines[j] == Linked(pos, before, todo, j)
        decreases todo
      {
        var key :| key in todo;
        var members := groups[key];
        var sorted := SortBy<nat>(VersionKey(pos, Identities(lines)), members);
        SameIdentities(lines, before);
        GroupIsSorted(pos, ids, groups, key);
        LinkGroup(sorted);
        forall j: nat | j < |lines| ensures lines[j] == Linked(pos, before, todo - {key}, j) {
          if LogicalOf(pos, ids[j]) == key {
            FirstOfGroup(pos, ids, key, j);
          }
          LinkedAfterGroup(pos, before, todo, key, sorted[0], j);
        }
        todo := todo - {key};
      }
    }

    method StampReceiptLines()
      modifies this`receipts
      ensures receipts == StampReceipts(lines, old(receipts))
    {
      var i := 0;
      while i < |receipts|
        invariant 0 <= i <= |receipts| == |old(receipts)|
        invariant forall k :: 0 <= k < |receipts| ==>
          receipts[k] == if k < i then StampReceipt(lines, old(receipts)[k]) else old(receipts)[k]
      {
        receipts := receipts[i := StampReceipt(lines, receipts[i])];
        i := i + 1;
      }
    }

    /** Posted receipt quantities by stable identity. */
    method PostedTotals() returns (totals: map<nat, int>)
      ensures forall id: nat :: (if id in totals then totals[id] else 0) == Received(receipts, id)
    {
      totals := map[];
      var i := 0;
      while i < |receipts|
        invariant 0 <= i <= |receipts|
        invariant forall id: nat :: (if id in totals then totals[id] else 0) == Received(receipts[..i], id)
      {
        var r := receipts[i];
        assert receipts[..i + 1][..i] == receipts[..i];
        if r.posted && r.root.Some? {
          var id := r.root.value;
          totals := totals[id := (if id in totals then totals[id] else 0) + r.qty];
        }
        i := i + 1;
      }
      assert receipts[..i] == receipts;
    }

    method RebuildReceived()
      modifies this`lines
      ensures lines == Rebuild(old(lines), receipts)
    {
      var totals := PostedTotals();
      var i := 0;
      while i < |lines|
        invariant 0 <= i <= |lines| == |old(lines)|
        invariant forall k :: 0 <= k < |lines| ==>
          lines[k] == if k < i then old(lines)[k].(received := Received(receipts, StableId(old(lines)[k])))
                      else old(lines)[k]
      {
        var stable := StableId(lines[i]);
        lines := lines[i := lines[i].(received := if stable in totals then totals[stable] else 0)];
        i := i + 1;
      }
    }

    method BackfillStableIdentity(pos: map<OrderId, Order>)
      modifies this
      ensures Database(lines, receipts) == Backfill(pos, Database(old(lines), old(receipts)))
    {
      LinkLines(pos);
      StampReceiptLines();
      RebuildReceived();
    }
  }

  /** The dictionary holds the versions of every logical line there is. */
  ghost predicate Grouped(pos: map<OrderId, Order>, ids: seq<LineId>, groups: map<Logical, seq<nat>>) {
    forall key: Logical {:trigger key in groups} ::
      if key in groups then groups[key] == Versions(pos, ids, key) && groups[key] != []
      else Versions(pos, ids, key) == []
  }

  /** A line once the groups outside `todo` are linked. */
  ghost function Linked(pos: map<OrderId, Order>, lines: seq<OrderLine>, todo: set<Logical>, j: nat): OrderLine
    requires j < |lines|
  {
    if LogicalOf(pos, lines[j].ident) in todo then lines[j] else Stamped(pos, lines, j)
  }

  lemma {:induction false} VersionsHaveNoRepeats(pos: map<OrderId, Order>, ids: seq<LineId>, key: Logical)
    ensures NoRepeats(Versions(pos, ids, key))
  {
    if ids != [] {
      VersionsHaveNoRepeats(pos, ids[..|ids| - 1], key);
      var earlier := Versions(pos, ids[..|ids| - 1], key);
      forall k | 0 <= k < |earlier| ensures earlier[k] < |ids| - 1 {
        assert earlier[k] in earlier;
      }
    }
  }

  lemma {:induction false} GroupIsSorted(pos: map<OrderId, Order>, ids: seq<LineId>, groups: map<Logical, seq<nat>>,
      key: Logical)
    requires Grouped(pos, ids, groups) && key in groups
    ensures var order := SortBy<nat>(VersionKey(pos, ids), groups[key]);
            && order == Ordered(pos, ids, key) && NoRepeats(order) && order != []
            && (forall k :: 0 <= k < |order| ==> order[k] < |ids|)
            && (forall j :: 0 <= j < |ids| ==> (j in order <==> LogicalOf(pos, ids[j]) == key))
  {
    VersionsHaveNoRepeats(pos, ids, key);
    SortByKeepsNoRepeats<nat>(VersionKey(pos, ids), groups[key]);
    SortByMembers<nat>(VersionKey(pos, ids), groups[key]);
    assert groups[key][0] in groups[key];
    var order := SortBy<nat>(VersionKey(pos, ids), groups[key]);
    forall k | 0 <= k < |order| ensures order[k] < |ids| {
      assert order[k] in order;
    }
  }

  lemma {:induction false} GroupStep(pos: map<OrderId, Order>, ids: seq<LineId>, i: nat, groups: map<Logical, seq<nat>>)
    requires i < |ids| && Grouped(pos, ids[..i], groups)
    ensures var key := LogicalOf(pos, ids[i]);
            Grouped(pos, ids[..i + 1], groups[key := (if key in groups then groups[key] else []) + [i]])
  {
    assert ids[..i + 1][..i] == ids[..i];
  }

  /** Linking one group turns its lines from pending to stamped: `first` is the earliest version of `key`. */
  lemma {:induction false} LinkedAfterGroup(pos: map<OrderId, Order>, lines: seq<OrderLine>, todo: set<Logical>,
      key: Logical, first: nat, j: nat)
    requires j < |lines| && first < |lines| && key in todo
    requires LogicalOf(pos, lines[j].ident) == key ==> RootAt(pos, Identities(lines), j) == first
    ensures (if LogicalOf(pos, lines[j].ident) == key && j != first
             then Linked(pos, lines, todo, j).(root := Some(lines[first].ident.id))
             else Linked(pos, lines, todo, j))
         == Linked(pos, lines, todo - {key}, j)
  {
  }

  lemma {:induction false} FirstOfGroup(pos: map<OrderId, Order>, ids: seq<LineId>, key: Logical, j: nat)
    requires j < |ids| && LogicalOf(pos, ids[j]) == key
    ensures Ordered(pos, ids, key) != [] && RootAt(pos, ids, j) == Ordered(pos, ids, key)[0]
  {
    SortByMembers<nat>(VersionKey(pos, ids), Versions(pos, ids, key));
    assert j in Ordered(pos, ids, key);
  }
}
