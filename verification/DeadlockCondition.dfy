/** When transactions can deadlock, told from the transactions and the tables they start from. */
module DeadlockCondition {
  import opened Records
  import opened Ledger
  import opened FifoCosting
  import opened Plans
  import opened Locking
  import opened Deadlocks
  import opened Invoices
  import P = Posters

  // ---- Driving one transaction ----

  lemma {:induction false} OnlyItsPhase(t: Tenant, txs: seq<seq<Request>>, w: World, i: nat)
    requires Shaped(txs, w) && i < |txs|
    ensures Advance(t, txs, w, i).phases == w.phases[i := Advance(t, txs, w, i).phases[i]]
  {
  }

  lemma {:induction false} MovesUnlessHeld(t: Tenant, txs: seq<seq<Request>>, w: World, i: nat)
    requires LocksHeld(txs, w) && i < |txs| && w.phases[i].Open?
    requires forall j :: 0 <= j < |txs| && j != i ==>
      Wanted(t, txs, w, i).Some? ==> Wanted(t, txs, w, i).value !in Locks(txs[j], w.phases[j])
    ensures !NextOf(t, txs, w, i).Wait?
  {
    if WaitsFor(t, txs, w, i).Some? {
      HolderIsOpen(t, txs, w, i);
      assert false;
    }
    WaitingStays(t, txs, w, i);
  }

  lemma {:induction false} MovingTakesItsStep(t: Tenant, txs: seq<seq<Request>>, w: World, i: nat)
    requires Shaped(txs, w) && i < |txs| && !NextOf(t, txs, w, i).Wait?
    ensures 0 <= StepsLeft(txs[i], Advance(t, txs, w, i).phases[i]) < StepsLeft(txs[i], w.phases[i])
  {
    ActionTakesStep(txs[i], w, i, NextOf(t, txs, w, i));
  }

  /** While no other transaction holds a lock, one can be run to its end. */
  lemma {:induction false} RunsToEnd(t: Tenant, txs: seq<seq<Request>>, w: World, i: nat) returns (more: seq<nat>)
    requires Guarded(t, txs, w) && i < |txs| && w.phases[i].Open?
    requires forall j :: 0 <= j < |txs| && j != i ==> Locks(txs[j], w.phases[j]) == {}
    ensures var after := PlayOn(t, txs, w, more);
            Guarded(t, txs, after) && after.phases == w.phases[i := Done] && after.db == Alone(t, w.db, txs[i])
    decreases StepsLeft(txs[i], w.phases[i])
  {
    var next := Advance(t, txs, w, i);
    MovesUnlessHeld(t, txs, w, i);
    MovingTakesItsStep(t, txs, w, i);
    OnlyItsPhase(t, txs, w, i);
    AdvanceKeepsGuard(t, txs, w, i);
    AdvanceMovesTables(t, txs, w, i);
    if next.phases[i].Done? {
      more := [];
    } else {
      more := RunsToEnd(t, txs, next, i);
    }
    PlayOnFromFront(t, txs, w, i, more);
    more := [i] + more;
  }

  lemma {:induction false} ProductInPrefix(ms: seq<Request>, j: nat, k: nat)
    requires j < k <= |ms|
    ensures ms[j].place.product in Products(ms[..k])
    decreases k
  {
    assert ms[..k][..k - 1] == ms[..k - 1] && ms[..k][k - 1] == ms[k - 1];
    if j < k - 1 {
      ProductInPrefix(ms, j, k - 1);
    }
  }

  lemma {:induction false} PrefixAccepted(t: Tenant, inv: Inventory, ms: seq<Request>, j: nat, k: nat)
    requires j <= k <= |ms| && ApplyAll(t, inv, ms[..k]).Ok?
    ensures ApplyAll(t, inv, ms[..j]).Ok?
    decreases k
  {
    if j < k {
      OneMore(t, inv, ms, k - 1);
      PrefixAccepted(t, inv, ms, j, k - 1);
    }
  }

  /** Within an accepted prefix each movement is accepted. */
  lemma {:induction false} NextIsPlanned(t: Tenant, db: Inventory, ms: seq<Request>, j: nat, k: nat)
    requires LayersSound(db.layers) && j < k <= |ms| && ApplyAll(t, db, ms[..k]).Ok?
    ensures ApplyAll(t, db, ms[..j]).Ok? && ms[j].place.product in t.products
    ensures PlanNow(t, Alone(t, db, ms[..j]), ms[j]).Planned?
  {
    PrefixAccepted(t, db, ms, j, k);
    PrefixAccepted(t, db, ms, j + 1, k);
    NextMovement(t, db, ms, j);
  }

  /** Short of it the transaction does not finish. */
  lemma {:induction false} NotOverYet(t: Tenant, ms: seq<Request>, p: Phase, db: Inventory,
      holders: map<ProductId, nat>, i: nat, k: nat)
    requires LayersSound(db.layers) && StillTrue(t, db, ms, p) && k <= |ms| && ApplyAll(t, db, ms[..k]).Ok?
    requires p.Open? && |p.plans| < k
    ensures !Next(t, ms, p, db, holders, i).Finish?
  {
    var j := |p.plans|;
    NextIsPlanned(t, db, ms, j, k);
    CurrentPlansCommit(t, db, ms, j);
    if p.step.Read? {
      ReadsNow(t, db, ms, j, p.step.prior, p.step.average);
    }
  }

  /** A transaction has taken its first `k` movements and not begun the next. */
  predicate Has(p: Phase, k: nat) {
    p.Open? && |p.plans| == k && p.step.Start?
  }

  /** Where no other transaction holds their products, one can take movements that are accepted. */
  lemma {:induction false} TakesPrefix(t: Tenant, txs: seq<seq<Request>>, w: World, i: nat, k: nat)
    returns (more: seq<nat>)
    requires Guarded(t, txs, w) && i < |txs| && k <= |txs[i]| && ApplyAll(t, w.db, txs[i][..k]).Ok?
    requires Has(w.phases[i], k) || (w.phases[i].Open? && |w.phases[i].plans| < k)
    requires forall j :: 0 <= j < |txs| && j != i ==> Locks(txs[j], w.phases[j]) !! Products(txs[i][..k])
    ensures var after := PlayOn(t, txs, w, more);
            && Guarded(t, txs, after) && after.db == w.db && Has(after.phases[i], k)
            && after.phases == w.phases[i := after.phases[i]]
    decreases StepsLeft(txs[i], w.phases[i])
  {
    if Has(w.phases[i], k) {
      more := [];
    } else {
      var next := Advance(t, txs, w, i);
      ProductInPrefix(txs[i], |w.phases[i].plans|, k);
      MovesUnlessHeld(t, txs, w, i);
      NotOverYet(t, txs[i], w.phases[i], w.db, w.holders, i, k);
      MovingTakesItsStep(t, txs, w, i);
      OnlyItsPhase(t, txs, w, i);
      AdvanceKeepsGuard(t, txs, w, i);
      AdvanceMovesTables(t, txs, w, i);
      more := TakesPrefix(t, txs, next, i, k);
      PlayOnFromFront(t, txs, w, i, more);
      more := [i] + more;
    }
  }

  // ---- The condition ----

  /** Transaction `i` is left when those in `order` have finished. */
  predicate Left(txs: seq<seq<Request>>, order: seq<nat>, i: nat) {
    i < |txs| && i !in order
  }

  /** Different transactions finish, in this order, and some are left. */
  ghost predicate FinishSome(txs: seq<seq<Request>>, order: seq<nat>) {
    && (forall k :: 0 <= k < |order| ==> order[k] < |txs|)
    && (forall j, k :: 0 <= j < k < |order| ==> order[j] != order[k])
    && (exists i: nat :: Left(txs, order, i))
  }

  /** A beginning of each transaction left, not the whole of it. */
  ghost predicate Beginnings(txs: seq<seq<Request>>, order: seq<nat>, parts: seq<seq<Request>>) {
    |parts| == |txs| && forall i: nat :: Left(txs, order, i) ==> parts[i] < txs[i]
  }

  /** No two of them move the same product. */
  ghost predicate Apart(txs: seq<seq<Request>>, order: seq<nat>, parts: seq<seq<Request>>)
    requires |parts| == |txs|
  {
    forall i: nat, j: nat :: Left(txs, order, i) && Left(txs, order, j) && i != j ==>
      Products(parts[i]) !! Products(parts[j])
  }

  ghost predicate Accepted(t: Tenant, txs: seq<seq<Request>>, db: Inventory, order: seq<nat>,
      parts: seq<seq<Request>>)
    requires |parts| == |txs|
  {
    forall i: nat :: Left(txs, order, i) ==> ApplyAll(t, db, parts[i]).Ok?
  }

  /** What transaction `i` moves next is of a product that the beginning of another one left moves. */
  ghost predicate Meets(t: Tenant, txs: seq<seq<Request>>, order: seq<nat>, parts: seq<seq<Request>>, i: nat)
    requires |parts| == |txs| && i < |txs| && parts[i] < txs[i]
  {
    var next := txs[i][|parts[i]|].place.product;
    next in t.products && exists j: nat :: Left(txs, order, j) && j != i && next in Products(parts[j])
  }

  /** Some transactions, not all of them, run one by one in this order leave tables that accept a beginning of each
      of the others, no two of them moving the same product; and each of the others then wants a product that
      another of them has moved. */
  ghost predicate Trap(t: Tenant, txs: seq<seq<Request>>, start: Inventory, order: seq<nat>,
      parts: seq<seq<Request>>)
  {
    && FinishSome(txs, order) && Beginnings(txs, order, parts) && Apart(txs, order, parts)
    && Accepted(t, txs, OneByOne(t, txs, start, order), order, parts)
    && forall i: nat :: Left(txs, order, i) ==> Meets(t, txs, order, parts, i)
  }

  /** After this schedule no transaction can move and some are not done. */
  ghost predicate GetsStuck(t: Tenant, txs: seq<seq<Request>>, start: Inventory, schedule: seq<nat>) {
    var w := Play(t, txs, start, schedule).w;
    Stuck(t, txs, w) && exists i :: 0 <= i < |txs| && w.phases[i].Open?
  }

  // ---- A deadlock is such a trap ----

  /** The movements each transaction has planned. */
  function Begun(txs: seq<seq<Request>>, w: World): (parts: seq<seq<Request>>)
    requires Shaped(txs, w)
    ensures |parts| == |txs|
  {
    seq(|txs|, i requires 0 <= i < |txs| =>
          if w.phases[i].Open? then txs[i][..|w.phases[i].plans|] else [])
  }

  lemma {:induction false} WaiterHolds(t: Tenant, txs: seq<seq<Request>>, w: World, i: nat)
    requires LocksHeld(txs, w) && i < |txs| && WaitsFor(t, txs, w, i).Some?
    ensures var parts := Begun(txs, w);
            && parts[i] < txs[i] && Locks(txs[i], w.phases[i]) == Products(parts[i])
            && Wanted(t, txs, w, i) == Some(txs[i][|parts[i]|].place.product)
            && Wanted(t, txs, w, i).value in t.products
  {
  }

  lemma {:induction false} WaiterMeets(t: Tenant, txs: seq<seq<Request>>, w: World, order: seq<nat>, i: nat)
    requires LocksHeld(txs, w) && i < |txs| && WaitsFor(t, txs, w, i).Some?
    requires forall j: nat :: Left(txs, order, j) <==> j < |txs| && w.phases[j].Open?
    requires forall j: nat :: Left(txs, order, j) ==> WaitsFor(t, txs, w, j).Some?
    ensures Begun(txs, w)[i] < txs[i] && Meets(t, txs, order, Begun(txs, w), i)
  {
    WaiterHolds(t, txs, w, i);
    HolderIsOpen(t, txs, w, i);
    var j := WaitsFor(t, txs, w, i).value;
    assert Left(txs, order, j);
    WaiterHolds(t, txs, w, j);
  }

  lemma {:induction false} WaitersApart(t: Tenant, txs: seq<seq<Request>>, w: World, order: seq<nat>)
    requires LocksHeld(txs, w) && forall j: nat :: Left(txs, order, j) ==> WaitsFor(t, txs, w, j).Some?
    ensures Beginnings(txs, order, Begun(txs, w)) && Apart(txs, order, Begun(txs, w))
  {
    forall i: nat | Left(txs, order, i)
      ensures Begun(txs, w)[i] < txs[i] && Locks(txs[i], w.phases[i]) == Products(Begun(txs, w)[i])
    {
      WaiterHolds(t, txs, w, i);
    }
    forall i: nat, j: nat | Left(txs, order, i) && Left(txs, order, j) && i != j
      ensures Products(Begun(txs, w)[i]) !! Products(Begun(txs, w)[j])
    {
      LocksApart(txs, w, i, j);
    }
  }

  lemma {:induction false} WaitersAccepted(t: Tenant, txs: seq<seq<Request>>, w: World, order: seq<nat>)
    requires Guarded(t, txs, w) && forall j: nat :: Left(txs, order, j) <==> j < |txs| && w.phases[j].Open?
    ensures Accepted(t, txs, w.db, order, Begun(txs, w))
  {
    forall i: nat | Left(txs, order, i) ensures ApplyAll(t, w.db, Begun(txs, w)[i]).Ok? {
      assert StillTrue(t, w.db, txs[i], w.phases[i]);
    }
  }

  lemma {:induction false} StuckWait(t: Tenant, txs: seq<seq<Request>>, w: World)
    requires LocksHeld(txs, w) && Stuck(t, txs, w)
    ensures forall i: nat :: i < |txs| && w.phases[i].Open? ==> WaitsFor(t, txs, w, i).Some?
  {
    StuckIff(t, txs, w);
  }

  lemma {:induction false} StuckIsATrap(t: Tenant, txs: seq<seq<Request>>, start: Inventory, w: World,
      order: seq<nat>, i: nat)
    requires Guarded(t, txs, w) && Stuck(t, txs, w) && i < |txs| && w.phases[i].Open?
    requires forall k :: 0 <= k < |order| ==> order[k] < |txs|
    requires OrderedOnce(w, order) && w.db == OneByOne(t, txs, start, order)
    ensures Trap(t, txs, start, order, Begun(txs, w))
  {
    assert forall j: nat :: Left(txs, order, j) <==> j < |txs| && w.phases[j].Open?;
    assert Left(txs, order, i);
    StuckWait(t, txs, w);
    WaitersApart(t, txs, w, order);
    WaitersAccepted(t, txs, w, order);
    forall j: nat | Left(txs, order, j) ensures Meets(t, txs, order, Begun(txs, w), j) {
      WaiterMeets(t, txs, w, order, j);
    }
  }

  lemma {:induction false} DeadlockIsATrap(t: Tenant, txs: seq<seq<Request>>, start: Inventory, schedule: seq<nat>)
    requires LayersSound(start.layers) && GetsStuck(t, txs, start, schedule)
    ensures var r := Play(t, txs, start, schedule); Trap(t, txs, start, r.order, Begun(txs, r.w))
  {
    var r := Play(t, txs, start, schedule);
    AnyScheduleIsSerial(t, txs, start, schedule);
    var i :| 0 <= i < |txs| && r.w.phases[i].Open?;
    StuckIsATrap(t, txs, start, r.w, r.order, i);
  }

  // ---- Such a trap can be walked into ----

  /** Those in `order` are done; of the others the first `n` have taken their parts and the rest have not begun. */
  ghost predicate PartsTaken(txs: seq<seq<Request>>, w: World, order: seq<nat>, parts: seq<seq<Request>>, n: nat)
    requires |w.phases| == |txs| == |parts|
  {
    forall i :: 0 <= i < |txs| ==>
      if !Left(txs, order, i) then w.phases[i].Done?
      else if i < n then Has(w.phases[i], |parts[i]|) else w.phases[i] == Open([], Start)
  }

  lemma {:induction false} NoneHoldsLocks(txs: seq<seq<Request>>, w: World)
    requires Shaped(txs, w)
    requires forall i :: 0 <= i < |txs| ==> w.phases[i] == Done || w.phases[i] == Open([], Start)
    ensures forall i :: 0 <= i < |txs| ==> Locks(txs[i], w.phases[i]) == {}
  {
    assert forall i :: 0 <= i < |txs| ==> txs[i][..0] == [];
  }

  /** Those in `order` are done and the others have not begun. */
  ghost predicate OnlyDone(txs: seq<seq<Request>>, w: World, order: seq<nat>)
    requires |w.phases| == |txs|
  {
    forall i :: 0 <= i < |txs| ==> w.phases[i] == if Left(txs, order, i) then Open([], Start) else Done
  }

  lemma {:induction false} RunsNext(t: Tenant, txs: seq<seq<Request>>, w: World, order: seq<nat>, i: nat)
    returns (more: seq<nat>)
    requires Guarded(t, txs, w) && OnlyDone(txs, w, order) && Left(txs, order, i)
    ensures var after := PlayOn(t, txs, w, more);
            Guarded(t, txs, after) && OnlyDone(txs, after, order + [i]) && after.db == Alone(t, w.db, txs[i])
  {
    NoneHoldsLocks(txs, w);
    more := RunsToEnd(t, txs, w, i);
    assert forall j: nat :: Left(txs, order + [i], j) <==> Left(txs, order, j) && j != i;
  }

  lemma {:induction false} RunsInOrder(t: Tenant, txs: seq<seq<Request>>, start: Inventory, order: seq<nat>)
    returns (schedule: seq<nat>)
    requires LayersSound(start.layers) && forall k :: 0 <= k < |order| ==> order[k] < |txs|
    requires forall j, k :: 0 <= j < k < |order| ==> order[j] != order[k]
    ensures var w := Play(t, txs, start, schedule).w;
            Guarded(t, txs, w) && w.db == OneByOne(t, txs, start, order) && OnlyDone(txs, w, order)
  {
    if order == [] {
      schedule := [];
      AnyScheduleIsSerial(t, txs, start, []);
    } else {
      var front, i := order[..|order| - 1], order[|order| - 1];
      assert front + [i] == order && Left(txs, front, i);
      schedule := RunsInOrder(t, txs, start, front);
      var more := RunsNext(t, txs, Play(t, txs, start, schedule).w, front, i);
      PlaysOn(t, txs, start, schedule, more);
      schedule := schedule + more;
    }
  }

  /** What the others hold, those that have not begun included, is apart from the part a transaction is to take. */
  lemma {:induction false} PartIsFree(txs: seq<seq<Request>>, w: World, order: seq<nat>, parts: seq<seq<Request>>,
      i: nat)
    requires Shaped(txs, w) && Beginnings(txs, order, parts) && Apart(txs, order, parts)
    requires Left(txs, order, i) && PartsTaken(txs, w, order, parts, i)
    ensures forall j :: 0 <= j < |txs| && j != i ==> Locks(txs[j], w.phases[j]) !! Products(parts[i])
  {
    forall j | 0 <= j < |txs| && j != i ensures Locks(txs[j], w.phases[j]) !! Products(parts[i]) {
      if Left(txs, order, j) {
        LocksOfPart(txs, w, parts, order, i, j);
      }
    }
  }

  lemma {:induction false} LocksOfPart(txs: seq<seq<Request>>, w: World, parts: seq<seq<Request>>, order: seq<nat>,
      n: nat, j: nat)
    requires Shaped(txs, w) && Beginnings(txs, order, parts) && PartsTaken(txs, w, order, parts, n)
    requires Left(txs, order, j)
    ensures Locks(txs[j], w.phases[j]) == if j < n then Products(parts[j]) else {}
  {
    assert parts[j] < txs[j];
    assert txs[j][..|parts[j]|] == parts[j] && txs[j][..0] == [];
  }

  lemma {:induction false} TakesParts(t: Tenant, txs: seq<seq<Request>>, w: World, order: seq<nat>,
      parts: seq<seq<Request>>, n: nat) returns (more: seq<nat>)
    requires Guarded(t, txs, w) && n <= |txs|
    requires Beginnings(txs, order, parts) && Apart(txs, order, parts) && Accepted(t, txs, w.db, order, parts)
    requires PartsTaken(txs, w, order, parts, n)
    ensures var after := PlayOn(t, txs, w, more);
            Guarded(t, txs, after) && PartsTaken(txs, after, order, parts, |txs|)
    decreases |txs| - n
  {
    if n == |txs| {
      more := [];
    } else {
      more := TakesPart(t, txs, w, order, parts, n);
      var rest := TakesParts(t, txs, PlayOn(t, txs, w, more), order, parts, n + 1);
      PlayOnOfConcat(t, txs, w, more, rest);
      more := more + rest;
    }
  }

  lemma {:induction false} TakesPart(t: Tenant, txs: seq<seq<Request>>, w: World, order: seq<nat>,
      parts: seq<seq<Request>>, i: nat) returns (more: seq<nat>)
    requires Guarded(t, txs, w) && i < |txs|
    requires Beginnings(txs, order, parts) && Apart(txs, order, parts) && Accepted(t, txs, w.db, order, parts)
    requires PartsTaken(txs, w, order, parts, i)
    ensures var after := PlayOn(t, txs, w, more);
            Guarded(t, txs, after) && after.db == w.db && PartsTaken(txs, after, order, parts, i + 1)
  {
    if Left(txs, order, i) {
      var k := |parts[i]|;
      assert parts[i] < txs[i];
      assert txs[i][..k] == parts[i];
      PartIsFree(txs, w, order, parts, i);
      more := TakesPrefix(t, txs, w, i, k);
    } else {
      more := [];
    }
  }

  /** Once all have taken their parts, each waits for another. */
  lemma {:induction false} AllTakenWaits(t: Tenant, txs: seq<seq<Request>>, w: World, order: seq<nat>,
      parts: seq<seq<Request>>, i: nat)
    requires LocksHeld(txs, w) && Beginnings(txs, order, parts) && PartsTaken(txs, w, order, parts, |txs|)
    requires Left(txs, order, i) && parts[i] < txs[i] && Meets(t, txs, order, parts, i)
    ensures WaitsFor(t, txs, w, i).Some?
  {
    var next := txs[i][|parts[i]|].place.product;
    var j: nat :| Left(txs, order, j) && j != i && next in Products(parts[j]);
    LocksOfPart(txs, w, parts, order, |txs|, j);
    assert next in w.holders && w.holders[next] == j;
  }

  lemma {:induction false} AllTakenStuck(t: Tenant, txs: seq<seq<Request>>, w: World, order: seq<nat>,
      parts: seq<seq<Request>>)
    requires LocksHeld(txs, w) && Beginnings(txs, order, parts) && PartsTaken(txs, w, order, parts, |txs|)
    requires forall i: nat :: Left(txs, order, i) ==> Meets(t, txs, order, parts, i)
    ensures Stuck(t, txs, w)
  {
    forall i | 0 <= i < |txs| ensures Advance(t, txs, w, i) == w {
      WaitingStays(t, txs, w, i);
      if Left(txs, order, i) {
        AllTakenWaits(t, txs, w, order, parts, i);
      }
    }
  }

  lemma {:induction false} TrapDeadlocks(t: Tenant, txs: seq<seq<Request>>, start: Inventory, order: seq<nat>,
      parts: seq<seq<Request>>) returns (schedule: seq<nat>)
    requires LayersSound(start.layers) && Trap(t, txs, start, order, parts)
    ensures GetsStuck(t, txs, start, schedule)
  {
    var first := RunsInOrder(t, txs, start, order);
    var w := Play(t, txs, start, first).w;
    assert PartsTaken(txs, w, order, parts, 0);
    var more := TakesParts(t, txs, w, order, parts, 0);
    PlaysOn(t, txs, start, first, more);
    schedule := first + more;
    AllTakenStuck(t, txs, PlayOn(t, txs, w, more), order, parts);
    var i: nat :| Left(txs, order, i);
  }

  /** After this schedule some transactions wait for each other in a ring; others may go on. */
  ghost predicate RingAfter(t: Tenant, txs: seq<seq<Request>>, start: Inventory, schedule: seq<nat>, ring: seq<nat>) {
    Ring(WaitGraph(t, txs, Play(t, txs, start, schedule).w), ring)
  }

  lemma {:induction false} PlaysUntilStuck(t: Tenant, txs: seq<seq<Request>>, w: World) returns (more: seq<nat>)
    requires LocksHeld(txs, w)
    ensures Stuck(t, txs, PlayOn(t, txs, w, more))
    decreases AllStepsLeft(txs, w.phases)
  {
    if Stuck(t, txs, w) {
      more := [];
    } else {
      var i: nat :| i < |txs| && Advance(t, txs, w, i) != w;
      MovingTakesStep(t, txs, w, i);
      AdvanceKeepsLocks(t, txs, w, i);
      more := PlaysUntilStuck(t, txs, Advance(t, txs, w, i));
      PlayOnFromFront(t, txs, w, i, more);
      more := [i] + more;
    }
  }

  /** Whatever the others still do, a ring ends with everything stuck. */
  lemma {:induction false} RingGetsStuck(t: Tenant, txs: seq<seq<Request>>, start: Inventory, schedule: seq<nat>,
      ring: seq<nat>) returns (more: seq<nat>)
    requires LayersSound(start.layers) && RingAfter(t, txs, start, schedule, ring)
    ensures GetsStuck(t, txs, start, schedule + more)
  {
    var w := Play(t, txs, start, schedule).w;
    AnyScheduleIsSerial(t, txs, start, schedule);
    more := PlaysUntilStuck(t, txs, w);
    PlaysOn(t, txs, start, schedule, more);
    RingNeverMoves(t, txs, w, ring, more);
    RingNode(WaitGraph(t, txs, w), ring, 0);
    assert ring[0] in ring;
  }

  lemma {:induction false} StuckHasRing(t: Tenant, txs: seq<seq<Request>>, start: Inventory, schedule: seq<nat>)
    returns (ring: seq<nat>)
    requires LayersSound(start.layers) && GetsStuck(t, txs, start, schedule)
    ensures RingAfter(t, txs, start, schedule, ring)
  {
    var w := Play(t, txs, start, schedule).w;
    AnyScheduleIsSerial(t, txs, start, schedule);
    var i: nat :| i < |txs| && w.phases[i].Open?;
    ring := StuckMeansRing(t, txs, w, i);
  }

  lemma {:induction false} RingIffStuck(t: Tenant, txs: seq<seq<Request>>, start: Inventory)
    requires LayersSound(start.layers)
    ensures (exists schedule, ring :: RingAfter(t, txs, start, schedule, ring))
            <==> (exists schedule :: GetsStuck(t, txs, start, schedule))
  {
    if schedule, ring :| RingAfter(t, txs, start, schedule, ring) {
      var more := RingGetsStuck(t, txs, start, schedule, ring);
    }
    if schedule :| GetsStuck(t, txs, start, schedule) {
      var ring := StuckHasRing(t, txs, start, schedule);
    }
  }

  lemma {:induction false} StuckIffTrap(t: Tenant, txs: seq<seq<Request>>, start: Inventory)
    requires LayersSound(start.layers)
    ensures (exists schedule :: GetsStuck(t, txs, start, schedule))
            <==> (exists order, parts :: Trap(t, txs, start, order, parts))
  {
    if schedule :| GetsStuck(t, txs, start, schedule) {
      DeadlockIsATrap(t, txs, start, schedule);
    }
    if order, parts :| Trap(t, txs, start, order, parts) {
      var schedule := TrapDeadlocks(t, txs, start, order, parts);
    }
  }

  /** Some interleaving of these transactions deadlocks, all of them or only some, exactly when there is such a trap
      for them in the tables they start from. */
  lemma {:induction false} DeadlockIff(t: Tenant, txs: seq<seq<Request>>, start: Inventory)
    requires LayersSound(start.layers)
    ensures (exists schedule :: GetsStuck(t, txs, start, schedule))
            <==> (exists order, parts :: Trap(t, txs, start, order, parts))
    ensures (exists schedule, ring :: RingAfter(t, txs, start, schedule, ring))
            <==> (exists order, parts :: Trap(t, txs, start, order, parts))
  {
    StuckIffTrap(t, txs, start);
    RingIffStuck(t, txs, start);
  }

  // ---- Transactions that share their first product ----

  lemma {:induction false} FirstOfBeginning(ms: seq<Request>, part: seq<Request>, p: ProductId)
    requires part < ms && part != [] && ms[0].place.product == p
    ensures p in Products(part)
  {
    assert ms[..|part|] == part;
    ProductInPrefix(ms, 0, |part|);
  }

  lemma {:induction false} MetOneIsPastFirst(t: Tenant, txs: seq<seq<Request>>, order: seq<nat>,
      parts: seq<seq<Request>>, p: ProductId, i: nat) returns (j: nat)
    requires Beginnings(txs, order, parts) && Left(txs, order, i) && Meets(t, txs, order, parts, i)
    requires forall i :: 0 <= i < |txs| && txs[i] != [] ==> txs[i][0].place.product == p
    ensures Left(txs, order, j) && j != i && p in Products(parts[j])
  {
    j :| Left(txs, order, j) && j != i && txs[i][|parts[i]|].place.product in Products(parts[j]);
    assert parts[j] < txs[j];
    FirstOfBeginning(txs[j], parts[j], p);
  }

  lemma {:induction false} NotAllMeet(t: Tenant, txs: seq<seq<Request>>, order: seq<nat>, parts: seq<seq<Request>>,
      p: ProductId, i: nat)
    requires Beginnings(txs, order, parts) && Apart(txs, order, parts) && Left(txs, order, i)
    requires forall i :: 0 <= i < |txs| && txs[i] != [] ==> txs[i][0].place.product == p
    ensures exists j: nat :: Left(txs, order, j) && !Meets(t, txs, order, parts, j)
  {
    if Meets(t, txs, order, parts, i) {
      var j := MetOneIsPastFirst(t, txs, order, parts, p, i);
      if Meets(t, txs, order, parts, j) {
        var k := MetOneIsPastFirst(t, txs, order, parts, p, j);
        assert false;
      }
    }
  }

  lemma {:induction false} NoTrapBehindOneProduct(t: Tenant, txs: seq<seq<Request>>, start: Inventory,
      order: seq<nat>, parts: seq<seq<Request>>, p: ProductId)
    requires forall i :: 0 <= i < |txs| && txs[i] != [] ==> txs[i][0].place.product == p
    ensures !Trap(t, txs, start, order, parts)
  {
    if Trap(t, txs, start, order, parts) {
      var i: nat :| Left(txs, order, i);
      NotAllMeet(t, txs, order, parts, p, i);
    }
  }

  /** Transactions whose first movements are all of one product never deadlock, whatever order the rest is in: only
      one of them at a time gets past its first. */
  lemma {:induction false} OneFirstProductNoDeadlock(t: Tenant, txs: seq<seq<Request>>, start: Inventory,
      p: ProductId, schedule: seq<nat>)
    requires LayersSound(start.layers)
    requires forall i :: 0 <= i < |txs| && txs[i] != [] ==> txs[i][0].place.product == p
    ensures !GetsStuck(t, txs, start, schedule)
  {
    if GetsStuck(t, txs, start, schedule) {
      var r := Play(t, txs, start, schedule);
      DeadlockIsATrap(t, txs, start, schedule);
      NoTrapBehindOneProduct(t, txs, start, r.order, Begun(txs, r.w), p);
    }
  }

  // ---- Crossed orders ----

  /** After `a` movements `i` wants a product among the first `b` of `j`, and `j` then one among those of `i`; so far
      they have moved no product in common. */
  predicate Crossed(t: Tenant, txs: seq<seq<Request>>, i: nat, a: nat, j: nat, b: nat) {
    && i < |txs| && j < |txs| && i != j && a < |txs[i]| && b < |txs[j]|
    && txs[i][a].place.product in t.products && txs[i][a].place.product in Products(txs[j][..b])
    && txs[j][b].place.product in t.products && txs[j][b].place.product in Products(txs[i][..a])
    && Products(txs[i][..a]) !! Products(txs[j][..b])
  }

  lemma {:induction false} EachHoldsTheOthers(t: Tenant, txs: seq<seq<Request>>, w: World, i: nat, a: nat, j: nat,
      b: nat)
    requires LocksHeld(txs, w) && Crossed(t, txs, i, a, j, b) && Has(w.phases[i], a) && Has(w.phases[j], b)
    ensures Ring(WaitGraph(t, txs, w), [i, j])
  {
    var p, q := txs[i][a].place.product, txs[j][b].place.product;
    assert p in Locks(txs[j], w.phases[j]) && q in Locks(txs[i], w.phases[i]);
    assert WaitsFor(t, txs, w, i) == Some(j) && WaitsFor(t, txs, w, j) == Some(i);
  }

  lemma {:induction false} BothTakeTheirs(t: Tenant, txs: seq<seq<Request>>, start: Inventory, i: nat, a: nat, j: nat,
      b: nat) returns (schedule: seq<nat>)
    requires LayersSound(start.layers) && Crossed(t, txs, i, a, j, b)
    requires ApplyAll(t, start, txs[i][..a]).Ok? && ApplyAll(t, start, txs[j][..b]).Ok?
    ensures var w := Play(t, txs, start, schedule).w;
            LocksHeld(txs, w) && Has(w.phases[i], a) && Has(w.phases[j], b)
  {
    var opening := Play(t, txs, start, []).w;
    AnyScheduleIsSerial(t, txs, start, []);
    var first := TakesPrefix(t, txs, opening, i, a);
    var one := PlayOn(t, txs, opening, first);
    var second := TakesPrefix(t, txs, one, j, b);
    PlayOnOfConcat(t, txs, opening, first, second);
    PlaysOn(t, txs, start, [], first + second);
    schedule := [] + (first + second);
  }

  /** Two transactions, whatever others there are, whose orders cross at any point, their movements up to there
      accepted, have an interleaving after which neither ever moves again. */
  lemma {:induction false} CrossedOrdersDeadlock(t: Tenant, txs: seq<seq<Request>>, start: Inventory, i: nat, a: nat,
      j: nat, b: nat) returns (schedule: seq<nat>)
    requires LayersSound(start.layers) && Crossed(t, txs, i, a, j, b)
    requires ApplyAll(t, start, txs[i][..a]).Ok? && ApplyAll(t, start, txs[j][..b]).Ok?
    ensures forall more ::
      var w := Play(t, txs, start, schedule + more).w;
      Ring(WaitGraph(t, txs, w), [i, j]) && Has(w.phases[i], a) && Has(w.phases[j], b)
  {
    schedule := BothTakeTheirs(t, txs, start, i, a, j, b);
    var w := Play(t, txs, start, schedule).w;
    EachHoldsTheOthers(t, txs, w, i, a, j, b);
    forall more
      ensures var after := Play(t, txs, start, schedule + more).w;
              Ring(WaitGraph(t, txs, after), [i, j]) && Has(after.phases[i], a) && Has(after.phases[j], b)
    {
      RingNeverMoves(t, txs, w, [i, j], more);
      PlaysOn(t, txs, start, schedule, more);
      assert i in [i, j] && j in [i, j];
    }
  }

  // ---- Invoices ----

  /** The movements of a shipment, in line order. */
  function ShipRequests(lines: seq<InvoiceLine>, location: LocationId, number: string, now: int): seq<Request> {
    if lines == [] then []
    else
      (if lines[0].product.None? then [] else [SaleRequest(lines[0], location, number, now)])
      + ShipRequests(lines[1..], location, number, now)
  }

  lemma {:induction false} ApplyAllFromFront(t: Tenant, inv: Inventory, m: Request, rest: seq<Request>)
    ensures ApplyAll(t, inv, [m] + rest)
         == var first := Apply(t, inv, m); if first.Err? then first else ApplyAll(t, first.value, rest)
  {
    if rest == [] {
      assert [m] + rest == [m] && [m][..0] == [];
    } else {
      var all, most := [m] + rest, rest[..|rest| - 1];
      assert all[..|rest|] == [m] + most && all[|rest|] == rest[|rest| - 1];
      ApplyAllFromFront(t, inv, m, most);
    }
  }

  /** Shipping an invoice is the transaction of its lines' movements. */
  lemma {:induction false} ShipIsATransaction(t: Tenant, stock: Inventory, lines: seq<InvoiceLine>,
      location: LocationId, number: string, now: int)
    ensures var shipped := Ship(t, stock, lines, location, number, now);
            ApplyAll(t, stock, ShipRequests(lines, location, number, now))
            == if shipped.Ok? then Ok(shipped.value.stock) else Err(shipped.error)
    decreases |lines|
  {
    if lines != [] {
      if lines[0].product.None? {
        assert ShipRequests(lines, location, number, now) == ShipRequests(lines[1..], location, number, now);
        ShipIsATransaction(t, stock, lines[1..], location, number, now);
      } else {
        var m := SaleRequest(lines[0], location, number, now);
        ApplyAllFromFront(t, stock, m, ShipRequests(lines[1..], location, number, now));
        if Apply(t, stock, m).Ok? {
          ShipIsATransaction(t, Apply(t, stock, m).value, lines[1..], location, number, now);
        }
      }
    }
  }

  function OneUnit(product: ProductId): InvoiceLine {
    InvoiceLine(Some(product), ONE, Untagged, P.SalesLine(0, 0, 0, 0))
  }

  lemma {:induction false} PairIsStuck(t: Tenant, txs: seq<seq<Request>>, w: World)
    requires Shaped(txs, w) && |txs| == 2 && Ring(WaitGraph(t, txs, w), [0, 1])
    ensures Stuck(t, txs, w)
  {
    RingNode(WaitGraph(t, txs, w), [0, 1], 0);
    RingNode(WaitGraph(t, txs, w), [0, 1], 1);
    WaitingStays(t, txs, w, 0);
    WaitingStays(t, txs, w, 1);
  }

  /** Two invoices for a unit each of two products, their lines in opposite orders: there is an interleaving in which
      each ships its first line and then waits for ever for the product of its second. */
  lemma {:induction false} TwoInvoicesDeadlock() returns (schedule: seq<nat>)
    ensures var t := Tenant(map[1 := Product(AVERAGE, false, 0), 2 := Product(AVERAGE, false, 0)], false);
            var txs := [ShipRequests([OneUnit(1), OneUnit(2)], 1, "INV-1", 0),
                        ShipRequests([OneUnit(2), OneUnit(1)], 1, "INV-2", 0)];
            forall more ::
              var w := Play(t, txs, Empty, schedule + more).w;
              Stuck(t, txs, w) && Has(w.phases[0], 1) && Has(w.phases[1], 1)
  {
    var t := Tenant(map[1 := Product(AVERAGE, false, 0), 2 := Product(AVERAGE, false, 0)], false);
    var one := ShipRequests([OneUnit(1), OneUnit(2)], 1, "INV-1", 0);
    var two := ShipRequests([OneUnit(2), OneUnit(1)], 1, "INV-2", 0);
    TwoLineRequests(OneUnit(1), OneUnit(2), "INV-1");
    TwoLineRequests(OneUnit(2), OneUnit(1), "INV-2");
    schedule := PairDeadlocks(t, [one, two], Empty);
  }

  lemma {:induction false} PairDeadlocks(t: Tenant, txs: seq<seq<Request>>, start: Inventory)
    returns (schedule: seq<nat>)
    requires LayersSound(start.layers) && |txs| == 2 && |txs[0]| == |txs[1]| == 2
    requires txs[0][0].place.product == txs[1][1].place.product != txs[0][1].place.product
             == txs[1][0].place.product
    requires Apply(t, start, txs[0][0]).Ok? && Apply(t, start, txs[1][0]).Ok?
    ensures forall more ::
      var w := Play(t, txs, start, schedule + more).w;
      Stuck(t, txs, w) && Has(w.phases[0], 1) && Has(w.phases[1], 1)
  {
    OneMore(t, start, txs[0], 0);
    OneMore(t, start, txs[1], 0);
    schedule := CrossedOrdersDeadlock(t, txs, start, 0, 1, 1, 1);
    forall more
      ensures var w := Play(t, txs, start, schedule + more).w;
              Stuck(t, txs, w) && Has(w.phases[0], 1) && Has(w.phases[1], 1)
    {
      PairIsStuck(t, txs, Play(t, txs, start, schedule + more).w);
    }
  }

  lemma {:induction false} TwoLineRequests(a: InvoiceLine, b: InvoiceLine, number: string)
    requires a.product.Some? && b.product.Some?
    ensures ShipRequests([a, b], 1, number, 0) == [SaleRequest(a, 1, number, 0), SaleRequest(b, 1, number, 0)]
  {
    assert [a, b][1..] == [b] && [b][1..] == [];
    assert ShipRequests([b], 1, number, 0) == [SaleRequest(b, 1, number, 0)] + ShipRequests([], 1, number, 0);
  }
}
