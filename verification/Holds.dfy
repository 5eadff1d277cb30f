/** Reservations: quantities held against location and lot balances. */
module Holds {
  import opened Rounding
  import opened Records
  import opened Queues
  import opened Tables
  import opened Ledger

  /** What a reservation can be counted against. */
  datatype Counter = AtPlace(place: Place) | InLot(key: LotKey) | ForRef(ref: Ref)

  predicate Counted(r: Reservation, c: Counter) {
    match c
    case AtPlace(place) => r.place == place
    case InLot(key) => LotKey(r.place, r.tag) == key
    case ForRef(ref) => r.ref == ref
  }

  function Held(r: Reservation, c: Counter): int {
    if r.status == Active && Counted(r, c) then r.qty else 0
  }

  function ActiveQty(rs: seq<Reservation>, c: Counter): int {
    if rs == [] then 0 else Held(rs[0], c) + ActiveQty(rs[1..], c)
  }

  /** The quantity reserved for a counter whatever has become of it since. */
  function EverReserved(rs: seq<Reservation>, c: Counter): int {
    if rs == [] then 0
    else (if Counted(rs[0], c) then rs[0].qty else 0) + EverReserved(rs[1..], c)
  }

  /** `reserved` on every balance and lot balance is the sum of its active reservations. */
  ghost predicate HoldsAgree(inv: Inventory) {
    && (forall place :: Reserved(inv.balances, place) == ActiveQty(inv.reservations, AtPlace(place)))
    && (forall key: LotKey :: IsTagged(key.tag) ==>
          Reserved(inv.lots, key) == ActiveQty(inv.reservations, InLot(key)))
    && (forall i :: 0 <= i < |inv.reservations| && inv.reservations[i].status == Active ==>
          0 < inv.reservations[i].qty)
  }

  function Reserve(t: Tenant, inv: Inventory, place: Place, tag: Tag, qty: int, ref: Ref, now: int)
    : Result<Inventory, Problem>
  {
    if qty <= 0 then Ok(inv)
    else if t.blockNegative && qty > OnHand(inv.balances, place) - Reserved(inv.balances, place) then
      Err(NotAvailableToPromise)
    else
      Ok(inv.(balances := Post(inv.balances, place, 0, qty),
              lots := if IsTagged(tag) then Post(inv.lots, LotKey(place, tag), 0, qty) else inv.lots,
              reservations := inv.reservations + [Reservation(place, tag, qty, Active, ref, now)]))
  }

  /** Give back `amount` of what `r` holds; a missing balance row is skipped. */
  function Unhold(inv: Inventory, r: Reservation, amount: int): Inventory {
    var key := LotKey(r.place, r.tag);
    inv.(balances := if Has(inv.balances, r.place) then Post(inv.balances, r.place, 0, -amount) else inv.balances,
         lots := if IsTagged(r.tag) && Has(inv.lots, key) then Post(inv.lots, key, 0, -amount) else inv.lots)
  }

  predicate Wanted(r: Reservation, ref: Ref) {
    r.status == Active && r.ref == ref
  }

  function ReleaseRow(inv: Inventory, i: nat): Inventory
    requires i < |inv.reservations|
  {
    var r := inv.reservations[i];
    Unhold(inv, r, r.qty).(reservations := inv.reservations[i := r.(status := Released)])
  }

  /** Release the active reservations of `ref` from row `i` on. */
  function ReleaseFrom(inv: Inventory, ref: Ref, i: nat): Inventory
    decreases |inv.reservations| - i
  {
    if i >= |inv.reservations| then inv
    else if Wanted(inv.reservations[i], ref) then ReleaseFrom(ReleaseRow(inv, i), ref, i + 1)
    else ReleaseFrom(inv, ref, i + 1)
  }

  function Release(inv: Inventory, ref: Ref): Inventory {
    ReleaseFrom(inv, ref, 0)
  }

  /** Consume `take` of row `i`. A row taken only in part is split: the rest stays active in place and
      the consumed part becomes a new row. */
  function ConsumeRow(inv: Inventory, i: nat, take: int, now: int): Inventory
    requires i < |inv.reservations|
  {
    var r := inv.reservations[i];
    Unhold(inv, r, take).(reservations :=
      if take >= r.qty then inv.reservations[i := r.(status := Consumed)]
      else inv.reservations[i := r.(qty := r.qty - take)]
           + [r.(qty := take, status := Consumed, createdAt := now)])
  }

  /** How much of row `r` a consumption with `remaining` still to go takes. */
  function TakeOf(r: Reservation, ref: Ref, remaining: Option<int>): int {
    if !Wanted(r, ref) || (remaining.Some? && remaining.value <= 0) then 0
    else if remaining.None? then r.qty else Min(remaining.value, r.qty)
  }

  function Less(remaining: Option<int>, take: int): Option<int> {
    if remaining.None? then None else Some(remaining.value - take)
  }

  datatype Consumption = Consumption(inv: Inventory, total: int)

  /** Consume rows `i` up to `n`, the rows that existed when the query ran. */
  function ConsumeFrom(inv: Inventory, ref: Ref, remaining: Option<int>, i: nat, n: nat, now: int)
    : Consumption
    requires n <= |inv.reservations|
    decreases n - i
  {
    if i >= n then Consumption(inv, 0)
    else
      var take := TakeOf(inv.reservations[i], ref, remaining);
      if take <= 0 then ConsumeFrom(inv, ref, remaining, i + 1, n, now)
      else
        var rest := ConsumeFrom(ConsumeRow(inv, i, take, now), ref, Less(remaining, take), i + 1, n, now);
        rest.(total := take + rest.total)
  }

  function Consume(inv: Inventory, ref: Ref, qty: Option<int>, now: int): Consumption {
    ConsumeFrom(inv, ref, qty, 0, |inv.reservations|, now)
  }

  /** The refs that have a stale active row, each once. */
  function StaleRefs(rs: seq<Reservation>, cutoff: int): seq<Ref> {
    if rs == [] then []
    else
      var last := rs[|rs| - 1];
      var others := StaleRefs(rs[..|rs| - 1], cutoff);
      if last.status == Active && last.createdAt <= cutoff && last.ref !in others then others + [last.ref]
      else others
  }

  function ActiveRows(rs: seq<Reservation>, ref: Ref): nat {
    if rs == [] then 0 else (if Wanted(rs[0], ref) then 1 else 0) + ActiveRows(rs[1..], ref)
  }

  datatype Expiry = Expiry(inv: Inventory, count: nat)

  function ReleaseAll(inv: Inventory, refs: seq<Ref>): Expiry
    decreases |refs|
  {
    if refs == [] then Expiry(inv, 0)
    else
      var before := ActiveRows(inv.reservations, refs[0]);
      var rest := ReleaseAll(Release(inv, refs[0]), refs[1..]);
      rest.(count := before + rest.count)
  }

  function Expire(inv: Inventory, cutoff: int): Expiry {
    ReleaseAll(inv, StaleRefs(inv.reservations, cutoff))
  }

  // ---- Holds and balances agree ----

  lemma {:induction false} CountersOfUpdate(rs: seq<Reservation>, i: nat, r: Reservation, c: Counter)
    requires i < |rs|
    ensures ActiveQty(rs[i := r], c) == ActiveQty(rs, c) - Held(rs[i], c) + Held(r, c)
    ensures EverReserved(rs[i := r], c) == EverReserved(rs, c)
              - (if Counted(rs[i], c) then rs[i].qty else 0) + (if Counted(r, c) then r.qty else 0)
  {
    if i == 0 {
      assert rs[0 := r][1..] == rs[1..];
    } else {
      assert rs[i := r][1..] == rs[1..][i - 1 := r];
      CountersOfUpdate(rs[1..], i - 1, r, c);
    }
  }

  lemma {:induction false} CountersOfAppend(rs: seq<Reservation>, r: Reservation, c: Counter)
    ensures ActiveQty(rs + [r], c) == ActiveQty(rs, c) + Held(r, c)
    ensures EverReserved(rs + [r], c) == EverReserved(rs, c) + (if Counted(r, c) then r.qty else 0)
  {
    if rs == [] {
      assert [r][1..] == [];
    } else {
      assert (rs + [r])[1..] == rs[1..] + [r];
      CountersOfAppend(rs[1..], r, c);
    }
  }

  /** An active reservation is part of the total it counts towards. */
  lemma {:induction false} ActiveIsPartOfTotal(rs: seq<Reservation>, i: nat, c: Counter)
    requires i < |rs|
    requires forall j :: 0 <= j < |rs| && rs[j].status == Active ==> 0 < rs[j].qty
    ensures 0 <= ActiveQty(rs[1..], c)
    ensures Held(rs[i], c) <= ActiveQty(rs, c)
  {
    if |rs| > 1 {
      ActiveIsPartOfTotal(rs[1..], if i == 0 then 0 else i - 1, c);
    }
  }

  lemma {:induction false} ReservedRowExists<K>(rows: seq<Row<K>>, k: K)
    requires Reserved(rows, k) != 0
    ensures Has(rows, k)
  {
    if rows[0].key != k {
      ReservedRowExists(rows[1..], k);
      var i :| 0 <= i < |rows[1..]| && rows[1..][i].key == k;
      assert rows[i + 1].key == k;
    }
  }

  /** While holds agree, the rows an active reservation holds against do exist. */
  lemma {:induction false} HeldRowsExist(inv: Inventory, i: nat)
    requires HoldsAgree(inv) && i < |inv.reservations| && inv.reservations[i].status == Active
    ensures var r := inv.reservations[i];
            && Has(inv.balances, r.place)
            && (IsTagged(r.tag) ==> Has(inv.lots, LotKey(r.place, r.tag)))
  {
    var r := inv.reservations[i];
    ActiveIsPartOfTotal(inv.reservations, i, AtPlace(r.place));
    ReservedRowExists(inv.balances, r.place);
    if IsTagged(r.tag) {
      var key := LotKey(r.place, r.tag);
      ActiveIsPartOfTotal(inv.reservations, i, InLot(key));
      ReservedRowExists(inv.lots, key);
    }
  }

  /** Changing what row `r` holds by `delta`, on the balances and in the reservations alike, keeps them equal. */
  lemma {:induction false} MovingOneHoldAgrees(inv: Inventory, after: Inventory, r: Reservation, delta: int)
    requires HoldsAgree(inv)
    requires after.balances == Post(inv.balances, r.place, 0, delta)
    requires after.lots == if IsTagged(r.tag) then Post(inv.lots, LotKey(r.place, r.tag), 0, delta) else inv.lots
    requires forall c: Counter :: !c.ForRef? ==>
      ActiveQty(after.reservations, c) == ActiveQty(inv.reservations, c) + (if Counted(r, c) then delta else 0)
    requires forall i :: 0 <= i < |after.reservations| && after.reservations[i].status == Active ==>
               0 < after.reservations[i].qty
    ensures HoldsAgree(after)
  {
    forall place ensures Reserved(after.balances, place) == ActiveQty(after.reservations, AtPlace(place)) {
      PostChangesOneKey(inv.balances, r.place, 0, delta, place);
    }
    forall key: LotKey | IsTagged(key.tag)
      ensures Reserved(after.lots, key) == ActiveQty(after.reservations, InLot(key))
    {
      if IsTagged(r.tag) {
        PostChangesOneKey(inv.lots, LotKey(r.place, r.tag), 0, delta, key);
      }
    }
  }

  lemma {:induction false} ReserveKeepsAgreement(t: Tenant, inv: Inventory, place: Place, tag: Tag, qty: int,
      ref: Ref, now: int)
    requires HoldsAgree(inv)
    ensures var r := Reserve(t, inv, place, tag, qty, ref, now); r.Ok? ==> HoldsAgree(r.value)
  {
    var r := Reserve(t, inv, place, tag, qty, ref, now);
    if r.Ok? && qty > 0 {
      var row := Reservation(place, tag, qty, Active, ref, now);
      forall c ensures ActiveQty(r.value.reservations, c) == ActiveQty(inv.reservations, c) + Held(row, c) {
        CountersOfAppend(inv.reservations, row, c);
      }
      MovingOneHoldAgrees(inv, r.value, row, qty);
    }
  }

  lemma {:induction false} ReleaseRowKeepsAgreement(inv: Inventory, i: nat)
    requires HoldsAgree(inv) && i < |inv.reservations| && inv.reservations[i].status == Active
    ensures HoldsAgree(ReleaseRow(inv, i))
    ensures forall c :: EverReserved(ReleaseRow(inv, i).reservations, c) == EverReserved(inv.reservations, c)
  {
    var r := inv.reservations[i];
    var after := ReleaseRow(inv, i);
    HeldRowsExist(inv, i);
    forall c
      ensures ActiveQty(after.reservations, c) == ActiveQty(inv.reservations, c) - Held(r, c)
      ensures EverReserved(after.reservations, c) == EverReserved(inv.reservations, c)
    {
      CountersOfUpdate(inv.reservations, i, r.(status := Released), c);
    }
    MovingOneHoldAgrees(inv, after, r, -r.qty);
  }

  lemma {:induction false} ConsumeRowKeepsAgreement(inv: Inventory, i: nat, take: int, now: int)
    requires HoldsAgree(inv) && i < |inv.reservations| && inv.reservations[i].status == Active
    requires 0 < take <= inv.reservations[i].qty
    ensures HoldsAgree(ConsumeRow(inv, i, take, now))
    ensures forall c :: EverReserved(ConsumeRow(inv, i, take, now).reservations, c)
                     == EverReserved(inv.reservations, c)
  {
    var r := inv.reservations[i];
    var after := ConsumeRow(inv, i, take, now);
    HeldRowsExist(inv, i);
    forall c
      ensures ActiveQty(after.reservations, c)
           == ActiveQty(inv.reservations, c) - (if Counted(r, c) then take else 0)
      ensures EverReserved(after.reservations, c) == EverReserved(inv.reservations, c)
    {
      if take == r.qty {
        CountersOfUpdate(inv.reservations, i, r.(status := Consumed), c);
      } else {
        var rest := r.(qty := r.qty - take);
        CountersOfUpdate(inv.reservations, i, rest, c);
        CountersOfAppend(inv.reservations[i := rest], r.(qty := take, status := Consumed, createdAt := now), c);
      }
    }
    MovingOneHoldAgrees(inv, after, r, -take);
  }

  /** Releasing a ref keeps agreement, and releases exactly its active rows. */
  lemma {:induction false} ReleaseFromRows(inv: Inventory, ref: Ref, i: nat)
    requires HoldsAgree(inv)
    ensures var after := ReleaseFrom(inv, ref, i);
            && HoldsAgree(after)
            && (forall c :: EverReserved(after.reservations, c) == EverReserved(inv.reservations, c))
            && |after.reservations| == |inv.reservations|
            && forall j :: 0 <= j < |inv.reservations| ==>
                 after.reservations[j] == if i <= j && Wanted(inv.reservations[j], ref)
                                          then inv.reservations[j].(status := Released)
                                          else inv.reservations[j]
    decreases |inv.reservations| - i
  {
    if i < |inv.reservations| {
      if Wanted(inv.reservations[i], ref) {
        ReleaseRowKeepsAgreement(inv, i);
        ReleaseFromRows(ReleaseRow(inv, i), ref, i + 1);
      } else {
        ReleaseFromRows(inv, ref, i + 1);
      }
    }
  }

  /** Consuming a ref keeps agreement and conserves every counter's total, split rows included. */
  lemma {:induction false} ConsumeFromKeepsAgreement(inv: Inventory, ref: Ref, remaining: Option<int>, i: nat, n: nat,
      now: int)
    requires HoldsAgree(inv) && n <= |inv.reservations|
    ensures var c := ConsumeFrom(inv, ref, remaining, i, n, now);
            && HoldsAgree(c.inv)
            && forall k :: EverReserved(c.inv.reservations, k) == EverReserved(inv.reservations, k)
    decreases n - i
  {
    if i < n {
      var take := TakeOf(inv.reservations[i], ref, remaining);
      if take <= 0 {
        ConsumeFromKeepsAgreement(inv, ref, remaining, i + 1, n, now);
      } else {
        ConsumeRowKeepsAgreement(inv, i, take, now);
        ConsumeFromKeepsAgreement(ConsumeRow(inv, i, take, now), ref, Less(remaining, take), i + 1, n, now);
      }
    }
  }

  // ---- Oldest first ----

  function RowUnits(r: Reservation, ref: Ref, i: nat): seq<nat> {
    if Wanted(r, ref) then Copies(i, r.qty) else []
  }

  /** The active quantity of `ref` from row `i` on, unit by unit, each unit naming its row. */
  function HeldUnits(rs: seq<Reservation>, ref: Ref, i: nat): seq<nat>
    decreases |rs| - i
  {
    if i >= |rs| then []
    else RowUnits(rs[i], ref, i) + HeldUnits(rs, ref, i + 1)
  }

  lemma {:induction false} HeldUnitsOfLaterRows(a: seq<Reservation>, b: seq<Reservation>, ref: Ref, i: nat)
    requires |a| <= |b| && i <= |b|
    requires forall j :: i <= j < |a| ==> a[j] == b[j]
    requires forall j :: |a| <= j < |b| ==> !Wanted(b[j], ref)
    ensures HeldUnits(a, ref, i) == HeldUnits(b, ref, i)
    decreases |b| - i
  {
    if i < |b| {
      HeldUnitsOfLaterRows(a, b, ref, i + 1);
    }
  }

  /** How many of `available` units are consumed. */
  function Popped(remaining: Option<int>, available: nat): nat {
    if remaining.None? then available else Min(Max(0, remaining.value), available)
  }

  /** Consuming part of row `i` leaves the other units of the ref where they were. */
  lemma {:induction false} ConsumeRowUnits(inv: Inventory, ref: Ref, i: nat, take: int, now: int)
    requires i < |inv.reservations| && Wanted(inv.reservations[i], ref)
    requires 0 < take <= inv.reservations[i].qty
    ensures var rs, after := inv.reservations, ConsumeRow(inv, i, take, now).reservations;
            && |rs| <= |after|
            && (forall j :: 0 <= j < |rs| && j != i ==> after[j] == rs[j])
            && (forall j :: |rs| <= j < |after| ==> !Wanted(after[j], ref))
            && RowUnits(after[i], ref, i) == Copies(i, rs[i].qty - take)
            && HeldUnits(after, ref, i + 1) == HeldUnits(rs, ref, i + 1)
  {
    HeldUnitsOfLaterRows(inv.reservations, ConsumeRow(inv, i, take, now).reservations, ref, i + 1);
  }

  /** `after` is what is left of `rs` after popping `total` units of `ref` off the front of the rows from `i` on. */
  ghost predicate PopsFront(rs: seq<Reservation>, after: seq<Reservation>, total: int, ref: Ref,
                            remaining: Option<int>, i: nat)
  {
    var queue := HeldUnits(rs, ref, i);
    var popped := Popped(remaining, |queue|);
    && total == popped
    && |rs| <= |after|
    && (forall j :: 0 <= j < i && j < |rs| ==> after[j] == rs[j])
    && HeldUnits(after, ref, i) == queue[popped..]
  }

  /** Consumption pops units off the front of the ref's queue of held units, in row order. */
  lemma {:induction false} ConsumeFromPopsFront(inv: Inventory, ref: Ref, remaining: Option<int>, i: nat, n: nat,
      now: int)
    requires i <= n <= |inv.reservations|
    requires forall j :: n <= j < |inv.reservations| ==> !Wanted(inv.reservations[j], ref)
    ensures var c := ConsumeFrom(inv, ref, remaining, i, n, now);
            PopsFront(inv.reservations, c.inv.reservations, c.total, ref, remaining, i)
    decreases n - i
  {
    var rs := inv.reservations;
    if i == n {
      NothingHeldPops(inv, ref, remaining, n);
    } else {
      var take := TakeOf(rs[i], ref, remaining);
      if take <= 0 {
        ConsumeFromPopsFront(inv, ref, remaining, i + 1, n, now);
        var c := ConsumeFrom(inv, ref, remaining, i + 1, n, now);
        SkippedRowPops(rs, c.inv.reservations, c.total, ref, remaining, i);
      } else {
        var next := ConsumeRow(inv, i, take, now);
        var c := ConsumeFrom(next, ref, Less(remaining, take), i + 1, n, now);
        ConsumeRowLeavesNoneLater(inv, ref, i, take, now, n);
        ConsumeFromPopsFront(next, ref, Less(remaining, take), i + 1, n, now);
        ConsumedRowPops(inv, ref, remaining, i, take, now, c.inv.reservations, c.total);
      }
    }
  }

  lemma {:induction false} NothingHeldPops(inv: Inventory, ref: Ref, remaining: Option<int>, n: nat)
    requires n <= |inv.reservations|
    requires forall j :: n <= j < |inv.reservations| ==> !Wanted(inv.reservations[j], ref)
    ensures PopsFront(inv.reservations, inv.reservations, 0, ref, remaining, n)
  {
    HeldUnitsOfLaterRows(inv.reservations[..n], inv.reservations, ref, n);
  }

  lemma {:induction false} SkippedRowPops(rs: seq<Reservation>, after: seq<Reservation>, total: int, ref: Ref,
      remaining: Option<int>, i: nat)
    requires i < |rs| && TakeOf(rs[i], ref, remaining) <= 0
    requires PopsFront(rs, after, total, ref, remaining, i + 1)
    ensures PopsFront(rs, after, total, ref, remaining, i)
  {
    assert after[i] == rs[i];
    if Wanted(rs[i], ref) && rs[i].qty > 0 {
      assert remaining.Some? && remaining.value <= 0;
    } else {
      assert HeldUnits(rs, ref, i) == HeldUnits(rs, ref, i + 1);
      assert HeldUnits(after, ref, i) == HeldUnits(after, ref, i + 1);
    }
  }

  lemma {:induction false} TakenRowPops(rs: seq<Reservation>, next: seq<Reservation>, after: seq<Reservation>,
      total: int, ref: Ref, remaining: Option<int>, i: nat, take: int)
    requires i < |rs| <= |next| && Wanted(rs[i], ref) && 0 < take == TakeOf(rs[i], ref, remaining)
    requires forall j :: 0 <= j < i ==> next[j] == rs[j]
    requires RowUnits(next[i], ref, i) == Copies(i, rs[i].qty - take)
    requires HeldUnits(next, ref, i + 1) == HeldUnits(rs, ref, i + 1)
    requires PopsFront(next, after, total, ref, Less(remaining, take), i + 1)
    ensures PopsFront(rs, after, take + total, ref, remaining, i)
  {
    TakeAddsToPopped(rs[i], ref, remaining, |HeldUnits(rs, ref, i + 1)|);
    assert after[i] == next[i];
    TakenRowQueue(rs, after, ref, i, take, total);
  }

  lemma {:induction false} ConsumeRowLeavesNoneLater(inv: Inventory, ref: Ref, i: nat, take: int, now: int, n: nat)
    requires i < n <= |inv.reservations| && Wanted(inv.reservations[i], ref)
    requires 0 < take <= inv.reservations[i].qty
    requires forall j :: n <= j < |inv.reservations| ==> !Wanted(inv.reservations[j], ref)
    ensures var after := ConsumeRow(inv, i, take, now).reservations;
            n <= |after| && forall j :: n <= j < |after| ==> !Wanted(after[j], ref)
  {
  }

  lemma {:induction false} ConsumedRowPops(inv: Inventory, ref: Ref, remaining: Option<int>, i: nat, take: int,
      now: int, after: seq<Reservation>, total: int)
    requires i < |inv.reservations| && Wanted(inv.reservations[i], ref)
    requires 0 < take == TakeOf(inv.reservations[i], ref, remaining)
    requires PopsFront(ConsumeRow(inv, i, take, now).reservations, after, total, ref, Less(remaining, take), i + 1)
    ensures PopsFront(inv.reservations, after, take + total, ref, remaining, i)
  {
    ConsumeRowUnits(inv, ref, i, take, now);
    TakenRowPops(inv.reservations, ConsumeRow(inv, i, take, now).reservations, after, total, ref, remaining, i, take);
  }

  /** The queue after row `i` gave up `take` units and the rows behind it `later`. */
  lemma {:induction false} TakenRowQueue(rs: seq<Reservation>, after: seq<Reservation>, ref: Ref, i: nat, take: nat,
      later: nat)
    requires i < |rs| <= |after| && Wanted(rs[i], ref) && take <= rs[i].qty
    requires later <= |HeldUnits(rs, ref, i + 1)| && (later == 0 || take == rs[i].qty)
    requires RowUnits(after[i], ref, i) == Copies(i, rs[i].qty - take)
    requires HeldUnits(after, ref, i + 1) == HeldUnits(rs, ref, i + 1)[later..]
    ensures |HeldUnits(rs, ref, i)| == rs[i].qty + |HeldUnits(rs, ref, i + 1)|
    ensures HeldUnits(after, ref, i) == HeldUnits(rs, ref, i)[take + later..]
  {
    var rest := HeldUnits(rs, ref, i + 1);
    HeldUnitsStep(rs, ref, i, Copies(i, rs[i].qty), rest);
    HeldUnitsStep(after, ref, i, Copies(i, rs[i].qty - take), rest[later..]);
    DropFromCopies(i, rs[i].qty, rest, take, later);
  }

  lemma {:induction false} HeldUnitsStep(rs: seq<Reservation>, ref: Ref, i: nat, row: seq<nat>, rest: seq<nat>)
    requires i < |rs| && RowUnits(rs[i], ref, i) == row && HeldUnits(rs, ref, i + 1) == rest
    ensures HeldUnits(rs, ref, i) == row + rest
  {
  }

  lemma {:induction false} DropFromCopies<T>(x: T, n: nat, rest: seq<T>, take: nat, later: nat)
    requires take <= n && later <= |rest| && (later == 0 || take == n)
    ensures (Copies(x, n) + rest)[take + later..] == Copies(x, n - take) + rest[later..]
  {
  }

  lemma {:induction false} TakeAddsToPopped(r: Reservation, ref: Ref, remaining: Option<int>, later: nat)
    requires Wanted(r, ref) && 0 < TakeOf(r, ref, remaining)
    ensures var take := TakeOf(r, ref, remaining);
            && take == (if remaining.None? then r.qty else Min(remaining.value, r.qty))
            && Popped(remaining, r.qty + later) == take + Popped(Less(remaining, take), later)
            && (Popped(Less(remaining, take), later) == 0 || take == r.qty)
  {
  }
}
