/** Transactions that lock the products of their movements one by one can wait for each other. When they do, why
    they never stop, and which order of products rules it out. */
module Deadlocks {
  import opened Records
  import opened Ledger
  import opened FifoCosting
  import opened Locking

  // ---- Waiting ----

  /** The product transaction `i` is to lock next. */
  function Wanted(t: Tenant, txs: seq<seq<Request>>, w: World, i: nat): Option<ProductId>
    requires Shaped(txs, w) && i < |txs|
  {
    var p := w.phases[i];
    if p.Open? && p.step.Start? && |p.plans| < |txs[i]| && txs[i][|p.plans|].place.product in t.products
    then Some(txs[i][|p.plans|].place.product) else None
  }

  /** The transaction that holds what transaction `i` is to lock next, if another does. */
  function WaitsFor(t: Tenant, txs: seq<seq<Request>>, w: World, i: nat): Option<nat>
    requires Shaped(txs, w) && i < |txs|
  {
    var wanted := Wanted(t, txs, w, i);
    if wanted.Some? && wanted.value in w.holders && w.holders[wanted.value] != i
    then Some(w.holders[wanted.value]) else None
  }

  function WaitGraph(t: Tenant, txs: seq<seq<Request>>, w: World): map<nat, nat>
    requires Shaped(txs, w)
  {
    map i: nat | i < |txs| && WaitsFor(t, txs, w, i).Some? :: WaitsFor(t, txs, w, i).value
  }

  /** No transaction can take a step. */
  ghost predicate Stuck(t: Tenant, txs: seq<seq<Request>>, w: World)
    requires Shaped(txs, w)
  {
    forall i :: 0 <= i < |txs| ==> Advance(t, txs, w, i) == w
  }

  lemma {:induction false} WaitingStays(t: Tenant, txs: seq<seq<Request>>, w: World, i: nat)
    requires Shaped(txs, w) && i < |txs|
    ensures Advance(t, txs, w, i) == w <==> w.phases[i].Done? || WaitsFor(t, txs, w, i).Some?
  {
    if w.phases[i].Open? && WaitsFor(t, txs, w, i).None? {
      assert Advance(t, txs, w, i).phases[i] != w.phases[i];
    }
  }

  lemma {:induction false} HolderIsOpen(t: Tenant, txs: seq<seq<Request>>, w: World, i: nat)
    requires LocksHeld(txs, w) && i < |txs| && WaitsFor(t, txs, w, i).Some?
    ensures var h := WaitsFor(t, txs, w, i).value;
            && h < |txs| && h != i && w.phases[h].Open?
            && Wanted(t, txs, w, i).value in Locks(txs[h], w.phases[h])
            && Wanted(t, txs, w, i).value !in Locks(txs[i], w.phases[i])
  {
    var q := Wanted(t, txs, w, i).value;
    assert w.holders[q] < |txs|;
    assert q in Locks(txs[w.holders[q]], w.phases[w.holders[q]]);
  }

  /** The system is stuck exactly when every transaction not done waits for a product that another one, not done
      either, holds. */
  lemma {:induction false} StuckIff(t: Tenant, txs: seq<seq<Request>>, w: World)
    requires LocksHeld(txs, w)
    ensures Stuck(t, txs, w)
            <==> forall i :: 0 <= i < |txs| && w.phases[i].Open? ==>
                   var h := WaitsFor(t, txs, w, i);
                   h.Some? && h.value != i && h.value < |txs| && w.phases[h.value].Open?
  {
    forall i | 0 <= i < |txs|
      ensures Advance(t, txs, w, i) == w <==> w.phases[i].Done? || WaitsFor(t, txs, w, i).Some?
    {
      WaitingStays(t, txs, w, i);
    }
    forall i | 0 <= i < |txs| && WaitsFor(t, txs, w, i).Some?
      ensures var h := WaitsFor(t, txs, w, i).value; h < |txs| && h != i && w.phases[h].Open?
    {
      HolderIsOpen(t, txs, w, i);
    }
  }

  // ---- Rings ----

  /** Nodes of a graph that each lead to the next. */
  predicate Chain(graph: map<nat, nat>, chain: seq<nat>) {
    forall k :: 0 <= k < |chain| - 1 ==> chain[k] in graph && graph[chain[k]] == chain[k + 1]
  }

  /** A chain whose last node leads to its first. */
  predicate Ring(graph: map<nat, nat>, ring: seq<nat>) {
    ring != [] && Chain(graph, ring) && ring[|ring| - 1] in graph && graph[ring[|ring| - 1]] == ring[0]
  }

  lemma {:induction false} DistinctAmong(s: seq<nat>, nodes: set<nat>)
    requires forall k :: 0 <= k < |s| ==> s[k] in nodes
    requires forall j, k :: 0 <= j < k < |s| ==> s[j] != s[k]
    ensures |s| <= |nodes|
  {
    if s != [] {
      DistinctAmong(s[1..], nodes - {s[0]});
    }
  }

  /** Where every node leads to a node that leads on, any chain closes into a ring. */
  lemma {:induction false} ChainCloses(graph: map<nat, nat>, chain: seq<nat>) returns (ring: seq<nat>)
    requires forall i :: i in graph ==> graph[i] in graph
    requires chain != [] && Chain(graph, chain) && forall k :: 0 <= k < |chain| ==> chain[k] in graph
    requires forall j, k :: 0 <= j < k < |chain| ==> chain[j] != chain[k]
    ensures Ring(graph, ring)
    decreases |graph.Keys| - |chain|
  {
    var last := chain[|chain| - 1];
    var next := graph[last];
    if next in chain {
      var k :| 0 <= k < |chain| && chain[k] == next;
      ring := chain[k..];
    } else {
      assert forall k :: 0 <= k < |chain| ==> chain[k] in chain;
      DistinctAmong(chain + [next], graph.Keys);
      ring := ChainCloses(graph, chain + [next]);
    }
  }

  /** When the system is stuck, who waits, waits for someone who waits. */
  lemma {:induction false} StuckGraphGoesOn(t: Tenant, txs: seq<seq<Request>>, w: World)
    requires LocksHeld(txs, w) && Stuck(t, txs, w)
    ensures var graph := WaitGraph(t, txs, w);
            && (forall i :: i in graph ==> graph[i] in graph)
            && (forall i :: 0 <= i < |txs| && w.phases[i].Open? ==> i in graph)
  {
    StuckIff(t, txs, w);
    var graph := WaitGraph(t, txs, w);
    forall i | i in graph ensures graph[i] in graph {
      HolderIsOpen(t, txs, w, i);
    }
  }

  /** When that happens before all is done, some transactions wait for each other in a ring. */
  lemma {:induction false} StuckMeansRing(t: Tenant, txs: seq<seq<Request>>, w: World, i: nat)
    returns (ring: seq<nat>)
    requires LocksHeld(txs, w) && Stuck(t, txs, w) && i < |txs| && w.phases[i].Open?
    ensures Ring(WaitGraph(t, txs, w), ring)
  {
    StuckGraphGoesOn(t, txs, w);
    ring := ChainCloses(WaitGraph(t, txs, w), [i]);
  }

  /** The schedule `more` played on from a world. */
  function PlayOn(t: Tenant, txs: seq<seq<Request>>, w: World, more: seq<nat>): (after: World)
    requires Shaped(txs, w)
    ensures Shaped(txs, after)
  {
    if more == [] then w
    else
      var before := PlayOn(t, txs, w, more[..|more| - 1]);
      if more[|more| - 1] >= |txs| then before else Advance(t, txs, before, more[|more| - 1])
  }

  lemma {:induction false} PlaysOn(t: Tenant, txs: seq<seq<Request>>, start: Inventory, schedule: seq<nat>,
      more: seq<nat>)
    ensures Play(t, txs, start, schedule + more).w == PlayOn(t, txs, Play(t, txs, start, schedule).w, more)
  {
    if more == [] {
      assert schedule + more == schedule;
    } else {
      assert (schedule + more)[..|schedule + more| - 1] == schedule + more[..|more| - 1];
      PlaysOn(t, txs, start, schedule, more[..|more| - 1]);
    }
  }

  lemma {:induction false} RingNode(graph: map<nat, nat>, ring: seq<nat>, k: nat)
    requires Ring(graph, ring) && k < |ring|
    ensures ring[k] in graph && graph[ring[k]] in graph
  {
    assert k < |ring| - 1 ==> graph[ring[k]] == ring[k + 1];
  }

  lemma {:induction false} SameRing(a: map<nat, nat>, b: map<nat, nat>, ring: seq<nat>)
    requires Ring(a, ring) && forall k :: 0 <= k < |ring| ==> ring[k] in b && b[ring[k]] == a[ring[k]]
    ensures Ring(b, ring)
  {
  }

  lemma {:induction false} ActionKeepsHolder(ms: seq<Request>, w: World, i: nat, a: Action, q: ProductId)
    requires i < |w.phases| && Fits(ms, w.phases[i], a) && q in w.holders && w.holders[q] != i
    requires a.TakeLock? && a.product in w.holders ==> w.holders[a.product] == i
    ensures var after := Do(ms, w, i, a);
            q in after.holders && after.holders[q] == w.holders[q]
  {
  }

  /** A transaction that waits for one that waits goes on waiting for it, whoever moves. */
  lemma {:induction false} WaiterStays(t: Tenant, txs: seq<seq<Request>>, w: World, j: nat, i: nat)
    requires LocksHeld(txs, w) && i < |txs| && j in WaitGraph(t, txs, w)
    requires WaitGraph(t, txs, w)[j] in WaitGraph(t, txs, w)
    ensures var after := Advance(t, txs, w, i);
            after.phases[j] == w.phases[j] && WaitsFor(t, txs, after, j) == WaitsFor(t, txs, w, j)
  {
    if w.phases[i].Done? || WaitsFor(t, txs, w, i).Some? {
      WaitingStays(t, txs, w, i);
    } else {
      ActionKeepsHolder(txs[i], w, i, NextOf(t, txs, w, i), Wanted(t, txs, w, j).value);
    }
  }

  lemma {:induction false} StepKeepsRing(t: Tenant, txs: seq<seq<Request>>, w: World, ring: seq<nat>, i: nat)
    requires LocksHeld(txs, w) && Ring(WaitGraph(t, txs, w), ring) && i < |txs|
    ensures Ring(WaitGraph(t, txs, Advance(t, txs, w, i)), ring)
    ensures forall j :: j in ring ==> j < |txs| && Advance(t, txs, w, i).phases[j] == w.phases[j]
  {
    var graph, after := WaitGraph(t, txs, w), Advance(t, txs, w, i);
    forall k | 0 <= k < |ring|
      ensures ring[k] < |txs| && after.phases[ring[k]] == w.phases[ring[k]]
      ensures ring[k] in WaitGraph(t, txs, after) && WaitGraph(t, txs, after)[ring[k]] == graph[ring[k]]
    {
      RingNode(graph, ring, k);
      WaiterStays(t, txs, w, ring[k], i);
    }
    SameRing(graph, WaitGraph(t, txs, after), ring);
  }

  /** Transactions that wait for each other in a ring never move again, whatever the others do. */
  lemma {:induction false} RingNeverMoves(t: Tenant, txs: seq<seq<Request>>, w: World, ring: seq<nat>,
      more: seq<nat>)
    requires LocksHeld(txs, w) && Ring(WaitGraph(t, txs, w), ring)
    ensures var after := PlayOn(t, txs, w, more);
            && LocksHeld(txs, after) && Ring(WaitGraph(t, txs, after), ring)
            && forall j :: j in ring ==> j < |txs| && after.phases[j] == w.phases[j]
  {
    if more == [] {
      forall j | j in ring ensures j < |txs| {
        var k :| 0 <= k < |ring| && ring[k] == j;
        RingNode(WaitGraph(t, txs, w), ring, k);
      }
    } else {
      var before, i := PlayOn(t, txs, w, more[..|more| - 1]), more[|more| - 1];
      RingNeverMoves(t, txs, w, ring, more[..|more| - 1]);
      if i < |txs| {
        AdvanceKeepsLocks(t, txs, before, i);
        StepKeepsRing(t, txs, before, ring, i);
      }
    }
  }

  // ---- A common order of products ----

  /** Each product a transaction meets for the first time comes after all it has met before. */
  predicate InOrder(rank: ProductId -> int, ms: seq<Request>) {
    forall j, k :: 0 <= j < k < |ms| && ms[k].place.product !in Products(ms[..k]) ==>
      rank(ms[j].place.product) < rank(ms[k].place.product)
  }

  lemma {:induction false} ProductOfSome(ms: seq<Request>, p: ProductId) returns (j: nat)
    requires p in Products(ms)
    ensures j < |ms| && ms[j].place.product == p
  {
    if p == ms[|ms| - 1].place.product {
      j := |ms| - 1;
    } else {
      j := ProductOfSome(ms[..|ms| - 1], p);
    }
  }

  /** What a waiting transaction wants comes after all it holds. */
  lemma {:induction false} WantsHigher(t: Tenant, txs: seq<seq<Request>>, w: World, i: nat, p: ProductId,
      rank: ProductId -> int)
    requires LocksHeld(txs, w) && i < |txs| && WaitsFor(t, txs, w, i).Some? && InOrder(rank, txs[i])
    requires p in Locks(txs[i], w.phases[i])
    ensures rank(p) < rank(Wanted(t, txs, w, i).value)
  {
    var ms, k := txs[i], |w.phases[i].plans|;
    HolderIsOpen(t, txs, w, i);
    var j := ProductOfSome(ms[..k], p);
    assert ms[j].place.product == p;
  }

  /** Along a chain of waiting transactions, what they want comes later and later. */
  lemma {:induction false} WantsRise(t: Tenant, txs: seq<seq<Request>>, w: World, ring: seq<nat>, k: nat,
      rank: ProductId -> int)
    requires LocksHeld(txs, w) && Ring(WaitGraph(t, txs, w), ring) && k < |ring|
    requires forall i :: 0 <= i < |txs| ==> InOrder(rank, txs[i])
    ensures ring[0] < |txs| && Wanted(t, txs, w, ring[0]).Some?
    ensures ring[k] < |txs| && Wanted(t, txs, w, ring[k]).Some?
    ensures rank(Wanted(t, txs, w, ring[0]).value) + k <= rank(Wanted(t, txs, w, ring[k]).value)
  {
    var graph := WaitGraph(t, txs, w);
    RingNode(graph, ring, 0);
    RingNode(graph, ring, k);
    if k > 0 {
      WantsRise(t, txs, w, ring, k - 1, rank);
      RingNode(graph, ring, k - 1);
      HolderIsOpen(t, txs, w, ring[k - 1]);
      assert graph[ring[k - 1]] == ring[k];
      WantsHigher(t, txs, w, ring[k], Wanted(t, txs, w, ring[k - 1]).value, rank);
    }
  }

  /** When all transactions meet their products in one common order, no transactions ever wait in a ring. */
  lemma {:induction false} CommonOrderHasNoRing(t: Tenant, txs: seq<seq<Request>>, w: World, ring: seq<nat>,
      rank: ProductId -> int)
    requires LocksHeld(txs, w) && forall i :: 0 <= i < |txs| ==> InOrder(rank, txs[i])
    ensures !Ring(WaitGraph(t, txs, w), ring)
  {
    var graph := WaitGraph(t, txs, w);
    if Ring(graph, ring) {
      var last := |ring| - 1;
      WantsRise(t, txs, w, ring, last, rank);
      RingNode(graph, ring, last);
      RingNode(graph, ring, 0);
      HolderIsOpen(t, txs, w, ring[last]);
      WantsHigher(t, txs, w, ring[0], Wanted(t, txs, w, ring[last]).value, rank);
      assert false;
    }
  }

  /** Then some transaction can move as long as one is not done. */
  lemma {:induction false} SomeoneMoves(t: Tenant, txs: seq<seq<Request>>, w: World, rank: ProductId -> int)
    requires LocksHeld(txs, w) && forall i :: 0 <= i < |txs| ==> InOrder(rank, txs[i])
    ensures Stuck(t, txs, w) ==> forall i :: 0 <= i < |txs| ==> w.phases[i].Done?
  {
    if Stuck(t, txs, w) {
      forall i | 0 <= i < |txs| ensures w.phases[i].Done? {
        if w.phases[i].Open? {
          var ring := StuckMeansRing(t, txs, w, i);
          CommonOrderHasNoRing(t, txs, w, ring, rank);
        }
      }
    }
  }

  // ---- Every run can be brought to its end ----

  /** How many steps a transaction has before it at most. */
  function StepsLeft(ms: seq<Request>, p: Phase): int {
    match p
    case Done => 0
    case Open(plans, step) => 1 + 3 * (|ms| - |plans|) - (if step.Start? then 0 else if step.Locked? then 1 else 2)
  }

  function AllStepsLeft(txs: seq<seq<Request>>, phases: seq<Phase>): int
    requires |phases| == |txs|
  {
    if txs == [] then 0 else StepsLeft(txs[0], phases[0]) + AllStepsLeft(txs[1..], phases[1..])
  }

  lemma {:induction false} StepsLeftOfUpdate(txs: seq<seq<Request>>, phases: seq<Phase>, i: nat, p: Phase)
    requires |phases| == |txs| && i < |txs|
    ensures AllStepsLeft(txs, phases[i := p])
         == AllStepsLeft(txs, phases) - StepsLeft(txs[i], phases[i]) + StepsLeft(txs[i], p)
  {
    if i > 0 {
      assert phases[i := p][1..] == phases[1..][i - 1 := p];
      StepsLeftOfUpdate(txs[1..], phases[1..], i - 1, p);
    } else {
      assert phases[i := p][1..] == phases[1..];
    }
  }

  lemma {:induction false} SomeStepsLeft(txs: seq<seq<Request>>, phases: seq<Phase>)
    requires |phases| == |txs|
    requires forall i :: 0 <= i < |txs| ==> 0 <= StepsLeft(txs[i], phases[i])
    ensures 0 <= AllStepsLeft(txs, phases)
  {
    if txs != [] {
      assert 0 <= StepsLeft(txs[0], phases[0]);
      assert forall i :: 0 <= i < |txs[1..]| ==> txs[1..][i] == txs[i + 1] && phases[1..][i] == phases[i + 1];
      SomeStepsLeft(txs[1..], phases[1..]);
    }
  }

  lemma {:induction false} ActionTakesStep(ms: seq<Request>, w: World, i: nat, a: Action)
    requires i < |w.phases| && Fits(ms, w.phases[i], a) && !a.Wait?
    requires w.phases[i].Open? ==>
      |w.phases[i].plans| <= |ms| && (w.phases[i].step.Start? || |w.phases[i].plans| < |ms|)
    ensures 0 <= StepsLeft(ms, Do(ms, w, i, a).phases[i]) < StepsLeft(ms, w.phases[i])
    ensures Do(ms, w, i, a).phases == w.phases[i := Do(ms, w, i, a).phases[i]]
  {
  }

  lemma {:induction false} MovingTakesStep(t: Tenant, txs: seq<seq<Request>>, w: World, i: nat)
    requires Shaped(txs, w) && i < |txs| && Advance(t, txs, w, i) != w
    ensures 0 <= AllStepsLeft(txs, Advance(t, txs, w, i).phases) < AllStepsLeft(txs, w.phases)
  {
    var after := Advance(t, txs, w, i);
    ActionTakesStep(txs[i], w, i, NextOf(t, txs, w, i));
    StepsLeftOfUpdate(txs, w.phases, i, after.phases[i]);
    SomeStepsLeft(txs, after.phases);
  }

  lemma {:induction false} PlayOnOfConcat(t: Tenant, txs: seq<seq<Request>>, w: World, a: seq<nat>, b: seq<nat>)
    requires Shaped(txs, w)
    ensures PlayOn(t, txs, w, a + b) == PlayOn(t, txs, PlayOn(t, txs, w, a), b)
  {
    if b == [] {
      assert a + b == a;
    } else {
      assert (a + b)[..|a + b| - 1] == a + b[..|b| - 1];
      PlayOnOfConcat(t, txs, w, a, b[..|b| - 1]);
    }
  }

  lemma {:induction false} PlayOnFromFront(t: Tenant, txs: seq<seq<Request>>, w: World, i: nat, more: seq<nat>)
    requires Shaped(txs, w) && i < |txs|
    ensures PlayOn(t, txs, w, [i] + more) == PlayOn(t, txs, Advance(t, txs, w, i), more)
  {
    PlayOnOfConcat(t, txs, w, [i], more);
    assert [i][..0] == [];
  }

  lemma {:induction false} CanFinish(t: Tenant, txs: seq<seq<Request>>, w: World, rank: ProductId -> int)
    returns (more: seq<nat>)
    requires LocksHeld(txs, w) && forall i :: 0 <= i < |txs| ==> InOrder(rank, txs[i])
    ensures forall i :: 0 <= i < |txs| ==> PlayOn(t, txs, w, more).phases[i].Done?
    decreases AllStepsLeft(txs, w.phases)
  {
    SomeoneMoves(t, txs, w, rank);
    if Stuck(t, txs, w) {
      more := [];
    } else {
      var i: nat :| i < |txs| && Advance(t, txs, w, i) != w;
      MovingTakesStep(t, txs, w, i);
      AdvanceKeepsLocks(t, txs, w, i);
      more := CanFinish(t, txs, Advance(t, txs, w, i), rank);
      PlayOnFromFront(t, txs, w, i, more);
      more := [i] + more;
    }
  }

  /** No deadlock: when all transactions meet their products in one common order, every interleaving can be played
      on until all of them are done, and until then some transaction can move. */
  lemma {:induction false} NoDeadlockInCommonOrder(t: Tenant, txs: seq<seq<Request>>, start: Inventory,
      schedule: seq<nat>, rank: ProductId -> int) returns (more: seq<nat>)
    requires LayersSound(start.layers) && forall i :: 0 <= i < |txs| ==> InOrder(rank, txs[i])
    ensures var w := Play(t, txs, start, schedule).w;
            Stuck(t, txs, w) ==> forall i :: 0 <= i < |txs| ==> w.phases[i].Done?
    ensures forall i :: 0 <= i < |txs| ==> Play(t, txs, start, schedule + more).w.phases[i].Done?
  {
    var w := Play(t, txs, start, schedule).w;
    AnyScheduleIsSerial(t, txs, start, schedule);
    SomeoneMoves(t, txs, w, rank);
    more := CanFinish(t, txs, w, rank);
    PlaysOn(t, txs, start, schedule, more);
  }
}
