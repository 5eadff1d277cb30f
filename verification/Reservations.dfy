/** What the reservation operations promise their callers. */
module Reservations {
  import opened Rounding
  import opened Records
  import opened Tables
  import opened Ledger
  import opened Holds

  // ---- Reserving ----

  /** What a granted reservation changes: `reserved` at its place, at its lot where it names one, and one new active
      row, by which the ref holds that much more. */
  ghost predicate Holding(inv: Inventory, after: Inventory, place: Place, tag: Tag, qty: int, ref: Ref, now: int) {
    && (forall k: Place :: Reserved(after.balances, k)
          == Reserved(inv.balances, k) + (if k == place then qty else 0))
    && (forall k: LotKey :: Reserved(after.lots, k)
          == Reserved(inv.lots, k) + (if IsTagged(tag) && k == LotKey(place, tag) then qty else 0))
    && (forall k: Place :: OnHand(after.balances, k) == OnHand(inv.balances, k))
    && (forall k: LotKey :: OnHand(after.lots, k) == OnHand(inv.lots, k))
    && after.reservations == inv.reservations + [Reservation(place, tag, qty, Active, ref, now)]
    && after == inv.(balances := after.balances, lots := after.lots, reservations := after.reservations)
    && ActiveQty(after.reservations, ForRef(ref)) == ActiveQty(inv.reservations, ForRef(ref)) + qty
  }

  /** Whatever the tenant, a positive quantity is held exactly when strict mode is off or that much is available to
      promise; anything else reserves nothing. */
  lemma {:induction false} ReserveHolds(t: Tenant, inv: Inventory, place: Place, tag: Tag, qty: int, ref: Ref,
      now: int)
    ensures qty <= 0 ==> Reserve(t, inv, place, tag, qty, ref, now) == Ok(inv)
    ensures qty > 0 ==>
      match Reserve(t, inv, place, tag, qty, ref, now)
      case Err(_) => t.blockNegative && OnHand(inv.balances, place) < Reserved(inv.balances, place) + qty
      case Ok(after) =>
        && (t.blockNegative ==> Reserved(inv.balances, place) + qty <= OnHand(inv.balances, place))
        && Holding(inv, after, place, tag, qty, ref, now)
  {
    var r := Reserve(t, inv, place, tag, qty, ref, now);
    if qty > 0 && r.Ok? {
      forall k: Place { PostChangesOneKey(inv.balances, place, 0, qty, k); }
      forall k: LotKey { PostChangesOneKey(inv.lots, LotKey(place, tag), 0, qty, k); }
      CountersOfAppend(inv.reservations, Reservation(place, tag, qty, Active, ref, now), ForRef(ref));
    }
  }

  // ---- Consumption ----

  /** What has been consumed for a counter. */
  function ConsumedQty(rs: seq<Reservation>, c: Counter): int {
    if rs == [] then 0
    else (if rs[0].status == Consumed && Counted(rs[0], c) then rs[0].qty else 0) + ConsumedQty(rs[1..], c)
  }

  lemma {:induction false} ConsumedOfUpdate(rs: seq<Reservation>, i: nat, r: Reservation, c: Counter)
    requires i < |rs|
    ensures ConsumedQty(rs[i := r], c) == ConsumedQty(rs, c)
              - (if rs[i].status == Consumed && Counted(rs[i], c) then rs[i].qty else 0)
              + (if r.status == Consumed && Counted(r, c) then r.qty else 0)
  {
    if i == 0 {
      assert rs[0 := r][1..] == rs[1..];
    } else {
      assert rs[i := r][1..] == rs[1..][i - 1 := r];
      ConsumedOfUpdate(rs[1..], i - 1, r, c);
    }
  }

  lemma {:induction false} ConsumedOfAppend(rs: seq<Reservation>, r: Reservation, c: Counter)
    ensures ConsumedQty(rs + [r], c)
         == ConsumedQty(rs, c) + (if r.status == Consumed && Counted(r, c) then r.qty else 0)
  {
    if rs == [] {
      assert [r][1..] == [];
    } else {
      assert (rs + [r])[1..] == rs[1..] + [r];
      ConsumedOfAppend(rs[1..], r, c);
    }
  }

  /** What consuming may do to rows: leave one alone, consume it whole, or shrink an active one of the ref; and add
      consumed rows of the ref, made now. */
  ghost predicate OnlyConsumed(rs: seq<Reservation>, after: seq<Reservation>, ref: Ref, now: int) {
    && |rs| <= |after|
    && (forall i :: 0 <= i < |rs| ==>
          || after[i] == rs[i]
          || (Wanted(rs[i], ref) && after[i] == rs[i].(status := Consumed))
          || (Wanted(rs[i], ref) && after[i] == rs[i].(qty := after[i].qty) && 0 < after[i].qty < rs[i].qty))
    && (forall i :: |rs| <= i < |after| ==>
          after[i].status == Consumed && after[i].ref == ref && after[i].createdAt == now)
  }

  lemma {:induction false} ConsumeRowMarks(inv: Inventory, ref: Ref, i: nat, take: int, now: int, c: Counter)
    requires i < |inv.reservations| && Wanted(inv.reservations[i], ref) && 0 < take <= inv.reservations[i].qty
    ensures var after := ConsumeRow(inv, i, take, now).reservations;
            && OnlyConsumed(inv.reservations, after, ref, now)
            && (forall j :: 0 <= j < |inv.reservations| && j != i ==> after[j] == inv.reservations[j])
            && ConsumedQty(after, c)
               == ConsumedQty(inv.reservations, c) + (if Counted(inv.reservations[i], c) then take else 0)
  {
    var rs, r := inv.reservations, inv.reservations[i];
    if take >= r.qty {
      ConsumedOfUpdate(rs, i, r.(status := Consumed), c);
    } else {
      ConsumedOfUpdate(rs, i, r.(qty := r.qty - take), c);
      ConsumedOfAppend(rs[i := r.(qty := r.qty - take)], r.(qty := take, status := Consumed, createdAt := now), c);
    }
  }

  /** And no row before the `i`-th is touched. */
  ghost predicate ConsumedFrom(rs: seq<Reservation>, after: seq<Reservation>, ref: Ref, now: int, i: nat) {
    OnlyConsumed(rs, after, ref, now) && forall j :: 0 <= j < i && j < |rs| ==> after[j] == rs[j]
  }

  /** One row consumed, and then only later ones. */
  lemma {:induction false} ConsumedInTurn(rs: seq<Reservation>, mid: seq<Reservation>, after: seq<Reservation>,
      ref: Ref, now: int, i: nat)
    requires i < |rs| && OnlyConsumed(rs, mid, ref, now) && ConsumedFrom(mid, after, ref, now, i + 1)
    requires forall j :: 0 <= j < |rs| && j != i ==> mid[j] == rs[j]
    ensures ConsumedFrom(rs, after, ref, now, i)
  {
  }

  lemma {:induction false} ConsumeFromAdds(inv: Inventory, ref: Ref, remaining: Option<int>, i: nat, n: nat, now: int)
    requires n <= |inv.reservations|
    ensures var c := ConsumeFrom(inv, ref, remaining, i, n, now);
            ConsumedQty(c.inv.reservations, ForRef(ref)) == ConsumedQty(inv.reservations, ForRef(ref)) + c.total
    decreases n - i
  {
    if i < n {
      var take := TakeOf(inv.reservations[i], ref, remaining);
      if take <= 0 {
        ConsumeFromAdds(inv, ref, remaining, i + 1, n, now);
      } else {
        ConsumeRowMarks(inv, ref, i, take, now, ForRef(ref));
        ConsumeFromAdds(ConsumeRow(inv, i, take, now), ref, Less(remaining, take), i + 1, n, now);
      }
    }
  }

  lemma {:induction false} ConsumeFromMarks(inv: Inventory, ref: Ref, remaining: Option<int>, i: nat, n: nat, now: int)
    requires n <= |inv.reservations|
    ensures var after := ConsumeFrom(inv, ref, remaining, i, n, now).inv.reservations;
            ConsumedFrom(inv.reservations, after, ref, now, i)
    decreases n - i
  {
    if i < n {
      var take := TakeOf(inv.reservations[i], ref, remaining);
      if take <= 0 {
        var after := ConsumeFrom(inv, ref, remaining, i + 1, n, now).inv.reservations;
        ConsumeFromMarks(inv, ref, remaining, i + 1, n, now);
        EarlierToo(inv.reservations, after, ref, now, i);
      } else {
        var next := ConsumeRow(inv, i, take, now);
        var after := ConsumeFrom(next, ref, Less(remaining, take), i + 1, n, now).inv.reservations;
        ConsumeFromMarks(next, ref, Less(remaining, take), i + 1, n, now);
        RowThenLater(inv, ref, i, take, now, after);
      }
    }
  }

  lemma {:induction false} EarlierToo(rs: seq<Reservation>, after: seq<Reservation>, ref: Ref, now: int, i: nat)
    requires ConsumedFrom(rs, after, ref, now, i + 1)
    ensures ConsumedFrom(rs, after, ref, now, i)
  {
  }

  lemma {:induction false} RowThenLater(inv: Inventory, ref: Ref, i: nat, take: int, now: int,
      after: seq<Reservation>)
    requires i < |inv.reservations| && Wanted(inv.reservations[i], ref) && 0 < take <= inv.reservations[i].qty
    requires ConsumedFrom(ConsumeRow(inv, i, take, now).reservations, after, ref, now, i + 1)
    ensures ConsumedFrom(inv.reservations, after, ref, now, i)
  {
    ConsumeRowMarks(inv, ref, i, take, now, ForRef(ref));
    ConsumedInTurn(inv.reservations, ConsumeRow(inv, i, take, now).reservations, after, ref, now, i);
  }

  /** What is consumed of a ref is marked consumed, to the quantity returned; nothing is released, and no other ref's
      row changes. */
  lemma {:induction false} ConsumeMarksConsumed(inv: Inventory, ref: Ref, qty: Option<int>, now: int)
    ensures var c := Consume(inv, ref, qty, now);
            && OnlyConsumed(inv.reservations, c.inv.reservations, ref, now)
            && ConsumedQty(c.inv.reservations, ForRef(ref)) == ConsumedQty(inv.reservations, ForRef(ref)) + c.total
  {
    ConsumeFromMarks(inv, ref, qty, 0, |inv.reservations|, now);
    ConsumeFromAdds(inv, ref, qty, 0, |inv.reservations|, now);
  }

  lemma {:induction false} UnitsAreTheActiveTotal(rs: seq<Reservation>, ref: Ref, i: nat)
    requires i <= |rs|
    requires forall j :: 0 <= j < |rs| && rs[j].status == Active ==> 0 < rs[j].qty
    ensures |HeldUnits(rs, ref, i)| == ActiveQty(rs[i..], ForRef(ref))
    decreases |rs| - i
  {
    if i < |rs| {
      UnitsAreTheActiveTotal(rs, ref, i + 1);
      assert rs[i..][1..] == rs[i + 1..];
    }
  }

  /** `consume_reservations` returns the smaller of the quantity asked for and the ref's active total,
      takes it from the oldest rows first, and loses no quantity in the split. */
  lemma {:induction false} ConsumeTakesOldestFirst(inv: Inventory, ref: Ref, qty: Option<int>, now: int)
    requires HoldsAgree(inv)
    ensures var c := Consume(inv, ref, qty, now);
            var active := ActiveQty(inv.reservations, ForRef(ref));
            && c.total == (if qty.None? then active else Min(Max(0, qty.value), active))
            && ActiveQty(c.inv.reservations, ForRef(ref)) == active - c.total
            && 0 <= c.total <= active == |HeldUnits(inv.reservations, ref, 0)|
            && HeldUnits(c.inv.reservations, ref, 0) == HeldUnits(inv.reservations, ref, 0)[c.total..]
            && (forall k :: EverReserved(c.inv.reservations, k) == EverReserved(inv.reservations, k))
            && HoldsAgree(c.inv)
  {
    var rs := inv.reservations;
    var c := Consume(inv, ref, qty, now);
    ConsumeFromPopsFront(inv, ref, qty, 0, |rs|, now);
    ConsumeFromKeepsAgreement(inv, ref, qty, 0, |rs|, now);
    UnitsAreTheActiveTotal(rs, ref, 0);
    UnitsAreTheActiveTotal(c.inv.reservations, ref, 0);
    assert rs[0..] == rs && c.inv.reservations[0..] == c.inv.reservations;
  }

  // ---- Giving back ----

  /** A balance table with `amount` given back on the row of `key`, if it has one. */
  ghost predicate GivenBack<K(!new)>(rows: seq<Row<K>>, after: seq<Row<K>>, key: K, amount: int) {
    && |after| == |rows|
    && (forall k :: OnHand(after, k) == OnHand(rows, k))
    && (forall k :: Reserved(after, k) == Reserved(rows, k) - (if k == key && Has(rows, k) then amount else 0))
  }

  lemma {:induction false} PostGivesBack<K(!new)>(rows: seq<Row<K>>, key: K, amount: int)
    requires Has(rows, key)
    ensures GivenBack(rows, Post(rows, key, 0, -amount), key, amount)
  {
    forall k { PostChangesOneKey(rows, key, 0, -amount, k); }
    PostKeepsKeys(rows, key, 0, -amount);
  }

  /** Giving back what a reservation holds lowers `reserved` at its place, and at its lot where it names one, on rows
      that exist, and makes none. */
  lemma {:induction false} UnholdGivesBack(inv: Inventory, r: Reservation, amount: int)
    ensures var after := Unhold(inv, r, amount);
            && GivenBack(inv.balances, after.balances, r.place, amount)
            && (if IsTagged(r.tag) then GivenBack(inv.lots, after.lots, LotKey(r.place, r.tag), amount)
                else after.lots == inv.lots)
            && after == inv.(balances := after.balances, lots := after.lots)
  {
    if Has(inv.balances, r.place) {
      PostGivesBack(inv.balances, r.place, amount);
    }
    if IsTagged(r.tag) && Has(inv.lots, LotKey(r.place, r.tag)) {
      PostGivesBack(inv.lots, LotKey(r.place, r.tag), amount);
    }
  }

  // ---- Release and expiry ----

  function Marked(rs: seq<Reservation>, refs: set<Ref>): seq<Reservation> {
    if rs == [] then []
    else [if rs[0].status == Active && rs[0].ref in refs then rs[0].(status := Released) else rs[0]]
         + Marked(rs[1..], refs)
  }

  function ActiveIn(rs: seq<Reservation>, refs: set<Ref>): nat {
    if rs == [] then 0
    else (if rs[0].status == Active && rs[0].ref in refs then 1 else 0) + ActiveIn(rs[1..], refs)
  }

  lemma {:induction false} MarkedAt(rs: seq<Reservation>, refs: set<Ref>, i: nat)
    requires i < |rs|
    ensures |Marked(rs, refs)| == |rs|
    ensures Marked(rs, refs)[i]
         == if rs[i].status == Active && rs[i].ref in refs then rs[i].(status := Released) else rs[i]
  {
    if |rs| > 1 {
      MarkedAt(rs[1..], refs, if i == 0 then 0 else i - 1);
    }
  }

  lemma {:induction false} MarkedLength(rs: seq<Reservation>, refs: set<Ref>)
    ensures |Marked(rs, refs)| == |rs|
  {
    if rs != [] {
      MarkedLength(rs[1..], refs);
    }
  }

  /** Releasing a ref frees exactly that ref's active rows. */
  lemma {:induction false} ReleaseMarksTheRef(inv: Inventory, ref: Ref)
    requires HoldsAgree(inv)
    ensures Release(inv, ref).reservations == Marked(inv.reservations, {ref})
    ensures HoldsAgree(Release(inv, ref))
    ensures forall k :: EverReserved(Release(inv, ref).reservations, k) == EverReserved(inv.reservations, k)
  {
    ReleaseFromRows(inv, ref, 0);
    MarkedLength(inv.reservations, {ref});
    forall i | 0 <= i < |inv.reservations|
      ensures Release(inv, ref).reservations[i] == Marked(inv.reservations, {ref})[i]
    {
      MarkedAt(inv.reservations, {ref}, i);
    }
  }

  lemma {:induction false} MarkTwice(rs: seq<Reservation>, ref: Ref, others: set<Ref>)
    requires ref !in others
    ensures Marked(Marked(rs, {ref}), others) == Marked(rs, {ref} + others)
    ensures ActiveIn(rs, {ref} + others) == ActiveRows(rs, ref) + ActiveIn(Marked(rs, {ref}), others)
  {
    if rs != [] {
      MarkTwice(rs[1..], ref, others);
    }
  }

  function SetOf(refs: seq<Ref>): set<Ref> {
    set ref | ref in refs
  }

  ghost predicate Distinct(refs: seq<Ref>) {
    forall i, j :: 0 <= i < j < |refs| ==> refs[i] != refs[j]
  }

  lemma {:induction false} ReleaseAllMarks(inv: Inventory, refs: seq<Ref>)
    requires HoldsAgree(inv) && Distinct(refs)
    ensures var e := ReleaseAll(inv, refs);
            && e.inv.reservations == Marked(inv.reservations, SetOf(refs))
            && e.count == ActiveIn(inv.reservations, SetOf(refs))
            && HoldsAgree(e.inv)
            && (forall k :: EverReserved(e.inv.reservations, k) == EverReserved(inv.reservations, k))
    decreases |refs|
  {
    if refs == [] {
      assert SetOf(refs) == {};
      MarkNothing(inv.reservations);
    } else {
      var rest := refs[1..];
      ReleaseMarksTheRef(inv, refs[0]);
      ReleaseAllMarks(Release(inv, refs[0]), rest);
      assert SetOf(refs) == {refs[0]} + SetOf(rest);
      MarkTwice(inv.reservations, refs[0], SetOf(rest));
    }
  }

  lemma {:induction false} MarkNothing(rs: seq<Reservation>)
    ensures Marked(rs, {}) == rs && ActiveIn(rs, {}) == 0
  {
    if rs != [] {
      MarkNothing(rs[1..]);
    }
  }

  predicate IsStale(r: Reservation, cutoff: int) {
    r.status == Active && r.createdAt <= cutoff
  }

  predicate HasStale(rs: seq<Reservation>, ref: Ref, cutoff: int) {
    exists i :: 0 <= i < |rs| && IsStale(rs[i], cutoff) && rs[i].ref == ref
  }

  lemma {:induction false} StaleRefsAreTheStaleOnes(rs: seq<Reservation>, cutoff: int, ref: Ref)
    ensures Distinct(StaleRefs(rs, cutoff))
    ensures ref in StaleRefs(rs, cutoff) <==> HasStale(rs, ref, cutoff)
  {
    if rs != [] {
      var front, last := rs[..|rs| - 1], rs[|rs| - 1];
      StaleRefsAreTheStaleOnes(front, cutoff, ref);
      if HasStale(front, ref, cutoff) {
        var i :| 0 <= i < |front| && IsStale(front[i], cutoff) && front[i].ref == ref;
        assert rs[i] == front[i];
      }
      if HasStale(rs, ref, cutoff) && !HasStale(front, ref, cutoff) {
        assert forall i :: 0 <= i < |front| ==> rs[i] == front[i];
        assert IsStale(last, cutoff) && last.ref == ref;
      }
    }
  }

  /** `expire_stale_reservations` releases every active row of a ref that has a stale one, and nothing
      else; it returns the number of rows it released. */
  lemma {:induction false} ExpireReleasesWholeRefs(inv: Inventory, cutoff: int, refs: set<Ref>)
    requires HoldsAgree(inv)
    requires forall ref :: ref in refs <==> HasStale(inv.reservations, ref, cutoff)
    ensures var e := Expire(inv, cutoff);
            && e.inv.reservations == Marked(inv.reservations, refs)
            && e.count == ActiveIn(inv.reservations, refs)
            && HoldsAgree(e.inv)
            && (forall k :: EverReserved(e.inv.reservations, k) == EverReserved(inv.reservations, k))
  {
    var stale := StaleRefs(inv.reservations, cutoff);
    StaleRefsAreTheStaleOnes(inv.reservations, cutoff, Ref(OTHER(""), ""));
    forall ref ensures ref in SetOf(stale) <==> ref in refs {
      StaleRefsAreTheStaleOnes(inv.reservations, cutoff, ref);
    }
    assert SetOf(stale) == refs;
    ReleaseAllMarks(inv, stale);
  }

  /** Two active rows of one ref, one stale and one not. */
  predicate MixedAges(rs: seq<Reservation>, cutoff: int) {
    exists i, j :: 0 <= i < |rs| && 0 <= j < |rs| && IsStale(rs[i], cutoff)
                && rs[j].status == Active && !IsStale(rs[j], cutoff) && rs[i].ref == rs[j].ref
  }

  /** Expiry spares every fresh reservation exactly when no ref holds both a stale and a fresh one. */
  lemma {:induction false} ExpireSparesFreshRowsIff(inv: Inventory, cutoff: int)
    requires HoldsAgree(inv)
    ensures var after := Expire(inv, cutoff).inv.reservations;
            && |after| == |inv.reservations|
            && ((forall i :: 0 <= i < |after| && !IsStale(inv.reservations[i], cutoff) ==>
                   after[i] == inv.reservations[i])
                <==> !MixedAges(inv.reservations, cutoff))
  {
    var rs := inv.reservations;
    var refs := SetOf(StaleRefs(rs, cutoff));
    forall ref ensures ref in refs <==> HasStale(rs, ref, cutoff) {
      StaleRefsAreTheStaleOnes(rs, cutoff, ref);
    }
    ExpireReleasesWholeRefs(inv, cutoff, refs);
    MarkedLength(rs, refs);
    forall i | 0 <= i < |rs|
      ensures Marked(rs, refs)[i] != rs[i] <==> rs[i].status == Active && HasStale(rs, rs[i].ref, cutoff)
    {
      MarkedAt(rs, refs, i);
    }
  }

  /** In strict mode a hold is granted exactly when it is available to promise: the location then holds no
      more than it has on hand, and no other location is touched. */
  lemma {:induction false} StrictHoldsAreAvailable(t: Tenant, inv: Inventory, place: Place, tag: Tag, qty: int,
      ref: Ref, now: int, other: Place)
    requires t.blockNegative && 0 < qty
    ensures match Reserve(t, inv, place, tag, qty, ref, now)
            case Err(_) => Reserved(inv.balances, place) + qty > OnHand(inv.balances, place)
            case Ok(after) =>
              && Reserved(after.balances, place) == Reserved(inv.balances, place) + qty
              && Reserved(after.balances, place) <= OnHand(after.balances, place) == OnHand(inv.balances, place)
              && (other != place ==> Reserved(after.balances, other) == Reserved(inv.balances, other))
  {
    PostChangesOneKey(inv.balances, place, 0, qty, place);
    PostChangesOneKey(inv.balances, place, 0, qty, other);
  }

  /** A stale and a fresh hold of one order: the fresh one is released with it. */
  lemma {:induction false} FreshRowExpiresWithItsRef()
    ensures var ref := Ref(OTHER(""), "");
            var stale := Reservation(Place(1, 1), Untagged, 300, Active, ref, 10);
            var inv := Empty.(balances := [Row(Place(1, 1), 900, 500)],
                              reservations := [stale, stale.(qty := 200, createdAt := 90)]);
            && HoldsAgree(inv)
            && Expire(inv, 50).inv.reservations == Marked(inv.reservations, {ref})
            && |Marked(inv.reservations, {ref})| == 2
            && Marked(inv.reservations, {ref})[1].status == Released
            && !IsStale(inv.reservations[1], 50)
  {
    var ref := Ref(OTHER(""), "");
    var stale := Reservation(Place(1, 1), Untagged, 300, Active, ref, 10);
    var rs := [stale, stale.(qty := 200, createdAt := 90)];
    var inv := Empty.(balances := [Row(Place(1, 1), 900, 500)], reservations := rs);
    forall c ensures ActiveQty(rs, c) == Held(rs[0], c) + Held(rs[1], c) {
      assert rs[1..][1..] == [];
      assert ActiveQty(rs[1..], c) == Held(rs[1], c) + ActiveQty([], c);
    }
    forall ref' ensures ref' in {ref} <==> HasStale(rs, ref', 50) {
      assert IsStale(rs[0], 50);
    }
    ExpireReleasesWholeRefs(inv, 50, {ref});
    MarkedAt(rs, {ref}, 1);
  }
}
