/** Concurrent transactions. Each movement of a transaction first locks its product's row, unless the transaction
    holds it already, and every lock is held until the transaction commits or is rolled back. Movements of other
    products interleave freely. Any interleaving ends where running the transactions one by one, in the order they
    finished, would. */
module Locking {
  import opened Rounding
  import opened Records
  import opened Tables
  import opened Ledger
  import opened FifoCosting
  import opened Plans

  /** How far a transaction has come with its next movement: what it has read is its own. */
  datatype Step = Start | Locked | Read(prior: int, average: int)

  /** A transaction is done once it has committed or been rolled back; until then its plans are its own. */
  datatype Phase = Done | Open(plans: seq<Plan>, step: Step)

  /** The committed tables, the transaction holding each locked product, and every transaction's phase. */
  datatype World = World(db: Inventory, holders: map<ProductId, nat>, phases: seq<Phase>)

  // ---- A transaction on its own ----

  /** Its movements one after the other; the first refusal refuses them all. */
  function ApplyAll(t: Tenant, inv: Inventory, ms: seq<Request>): Result<Inventory, Problem> {
    if ms == [] then Ok(inv)
    else
      var before := ApplyAll(t, inv, ms[..|ms| - 1]);
      if before.Err? then before else Apply(t, before.value, ms[|ms| - 1])
  }

  function Alone(t: Tenant, inv: Inventory, ms: seq<Request>): Inventory {
    var r := ApplyAll(t, inv, ms);
    if r.Ok? then r.value else inv
  }

  /** The transactions run one after the other in a given order. */
  function OneByOne(t: Tenant, txs: seq<seq<Request>>, start: Inventory, order: seq<nat>): Inventory
    requires forall k :: 0 <= k < |order| ==> order[k] < |txs|
  {
    if order == [] then start
    else Alone(t, OneByOne(t, txs, start, order[..|order| - 1]), txs[order[|order| - 1]])
  }

  // ---- Transactions step by step ----

  /** Merge a transaction's plans so far into the tables: at commit, and for what it sees itself before then. */
  function CommitAll(t: Tenant, db: Inventory, ms: seq<Request>, plans: seq<Plan>): Inventory
    requires |plans| <= |ms|
  {
    if plans == [] then db
    else
      var k := |plans| - 1;
      Commit(t, CommitAll(t, db, ms, plans[..k]), ms[k], plans[k])
  }

  predicate Shaped(txs: seq<seq<Request>>, w: World) {
    && |w.phases| == |txs|
    && (forall i :: 0 <= i < |txs| && w.phases[i].Open? ==>
          && |w.phases[i].plans| <= |txs[i]|
          && (w.phases[i].step.Start? || |w.phases[i].plans| < |txs[i]|))
  }

  /** What a transaction does next: wait, take its next movement's lock, read, plan, or finish, leaving these
      tables. */
  datatype Action = Wait | TakeLock(product: ProductId) | Look(prior: int, average: int) | Add(plan: Plan)
                  | Finish(db: Inventory)

  /** The actions a transaction can take in a phase. */
  predicate Fits(ms: seq<Request>, p: Phase, a: Action) {
    match a
    case Wait => true
    case TakeLock(q) => p.Open? && p.step.Start? && |p.plans| < |ms| && q == ms[|p.plans|].place.product
    case Look(_, _) => p.Open? && p.step.Locked? && |p.plans| < |ms|
    case Add(_) => p.Open? && p.step.Read? && |p.plans| < |ms|
    case Finish(_) => p.Open?
  }

  /** The next action of transaction `i`. One whose movement is refused is rolled back. */
  function Next(t: Tenant, ms: seq<Request>, p: Phase, db: Inventory, holders: map<ProductId, nat>, i: nat)
    : (a: Action)
    requires p.Open? ==> |p.plans| <= |ms|
    ensures Fits(ms, p, a)
  {
    match p
    case Done => Wait
    case Open(plans, step) =>
      var seen := CommitAll(t, db, ms, plans);
      if |plans| == |ms| then Finish(seen)
      else
        var m := ms[|plans|];
        var product := m.place.product;
        match step
        case Start =>
          if product !in t.products then Finish(db)
          else if product in holders && holders[product] != i then Wait else TakeLock(product)
        case Locked => Look(TotalOnHand(seen, product), Average(seen, product))
        case Read(prior, average) =>
          var plan := PlanWith(t, seen, m, prior, average);
          if plan.Refusal? then Finish(db) else Add(plan)
  }

  /** Finishing gives up all of a transaction's locks. */
  function Released(holders: map<ProductId, nat>, i: nat): map<ProductId, nat> {
    map p | p in holders && holders[p] != i :: holders[p]
  }

  function Do(ms: seq<Request>, w: World, i: nat, a: Action): World
    requires i < |w.phases| && Fits(ms, w.phases[i], a)
  {
    var p := w.phases[i];
    match a
    case Wait => w
    case TakeLock(q) => World(w.db, w.holders[q := i], w.phases[i := Open(p.plans, Locked)])
    case Look(prior, average) => w.(phases := w.phases[i := Open(p.plans, Read(prior, average))])
    case Add(plan) => w.(phases := w.phases[i := Open(p.plans + [plan], Start)])
    case Finish(db) => World(db, Released(w.holders, i), w.phases[i := Done])
  }

  function NextOf(t: Tenant, txs: seq<seq<Request>>, w: World, i: nat): (a: Action)
    requires Shaped(txs, w) && i < |txs|
    ensures Fits(txs[i], w.phases[i], a)
  {
    Next(t, txs[i], w.phases[i], w.db, w.holders, i)
  }

  /** One scheduler step: let transaction `i` take its next action. */
  function Advance(t: Tenant, txs: seq<seq<Request>>, w: World, i: nat): (after: World)
    requires Shaped(txs, w) && i < |txs|
    ensures Shaped(txs, after)
  {
    Do(txs[i], w, i, NextOf(t, txs, w, i))
  }

  /** A schedule names the transaction to advance at each point; `order` collects them as they finish. */
  datatype Trace = Trace(w: World, order: seq<nat>)

  function Opening(txs: seq<seq<Request>>, start: Inventory): (w: World)
    ensures Shaped(txs, w)
  {
    World(start, map[], seq(|txs|, _ => Open([], Start)))
  }

  function Play(t: Tenant, txs: seq<seq<Request>>, start: Inventory, schedule: seq<nat>): (r: Trace)
    ensures Shaped(txs, r.w)
    ensures forall k :: 0 <= k < |r.order| ==> r.order[k] < |txs|
  {
    if schedule == [] then Trace(Opening(txs, start), [])
    else
      var before := Play(t, txs, start, schedule[..|schedule| - 1]);
      var i := schedule[|schedule| - 1];
      if i >= |txs| then before
      else
        Trace(Advance(t, txs, before.w, i),
              if NextOf(t, txs, before.w, i).Finish? then before.order + [i] else before.order)
  }

  // ---- Plans made in a row on current tables ----

  function Products(ms: seq<Request>): set<ProductId> {
    if ms == [] then {} else Products(ms[..|ms| - 1]) + {ms[|ms| - 1].place.product}
  }

  /** The plans a transaction makes when it runs on the tables alone. */
  function PlansOf(t: Tenant, inv: Inventory, ms: seq<Request>): (plans: seq<Plan>)
    ensures |plans| == |ms|
  {
    if ms == [] then []
    else PlansOf(t, inv, ms[..|ms| - 1]) + [PlanNow(t, Alone(t, inv, ms[..|ms| - 1]), ms[|ms| - 1])]
  }

  lemma {:induction false} OneMore(t: Tenant, inv: Inventory, ms: seq<Request>, k: nat)
    requires k < |ms|
    ensures ms[..k + 1][..k] == ms[..k] && ms[..k + 1][k] == ms[k]
    ensures Products(ms[..k + 1]) == Products(ms[..k]) + {ms[k].place.product}
    ensures var before := ApplyAll(t, inv, ms[..k]);
            ApplyAll(t, inv, ms[..k + 1]) == if before.Err? then before else Apply(t, before.value, ms[k])
  {
    assert ms[..k + 1][..k] == ms[..k] && ms[..k + 1][k] == ms[k];
  }

  lemma {:induction false} OneMorePlan(t: Tenant, inv: Inventory, ms: seq<Request>, k: nat)
    requires k < |ms|
    ensures PlansOf(t, inv, ms[..k + 1]) == PlansOf(t, inv, ms[..k]) + [PlanNow(t, Alone(t, inv, ms[..k]), ms[k])]
  {
    assert ms[..k + 1][..k] == ms[..k] && ms[..k + 1][k] == ms[k];
  }

  lemma {:induction false} AloneKeepsLayersSound(t: Tenant, inv: Inventory, ms: seq<Request>)
    requires LayersSound(inv.layers)
    ensures LayersSound(Alone(t, inv, ms).layers)
  {
    if ms != [] {
      var rest := ms[..|ms| - 1];
      AloneKeepsLayersSound(t, inv, rest);
      if ApplyAll(t, inv, rest).Ok? {
        MovedKeepsLayersSound(t, ApplyAll(t, inv, rest).value, ms[|ms| - 1]);
      }
    }
  }

  /** Plans made in a row on current tables commit to the movements themselves. */
  lemma {:induction false} CurrentPlansCommit(t: Tenant, db: Inventory, ms: seq<Request>, k: nat)
    requires LayersSound(db.layers) && k <= |ms| && ApplyAll(t, db, ms[..k]).Ok?
    ensures CommitAll(t, db, ms, PlansOf(t, db, ms[..k])) == ApplyAll(t, db, ms[..k]).value
  {
    if k > 0 {
      OneMore(t, db, ms, k - 1);
      OneMorePlan(t, db, ms, k - 1);
      CurrentPlansCommit(t, db, ms, k - 1);
      AloneKeepsLayersSound(t, db, ms[..k - 1]);
      CurrentPlanCommitsToTheMovement(t, Alone(t, db, ms[..k - 1]), ms[k - 1]);
      assert PlansOf(t, db, ms[..k])[..k - 1] == PlansOf(t, db, ms[..k - 1]);
    }
  }

  lemma {:induction false} RefusedFromThere(t: Tenant, inv: Inventory, ms: seq<Request>, k: nat)
    requires k <= |ms| && ApplyAll(t, inv, ms[..k]).Err?
    ensures ApplyAll(t, inv, ms).Err?
    decreases |ms|
  {
    if k == |ms| {
      assert ms[..k] == ms;
    } else {
      assert ms[..|ms| - 1][..k] == ms[..k];
      RefusedFromThere(t, inv, ms[..|ms| - 1], k);
    }
  }

  /** A transaction changes nothing that movements of products it does not move read. */
  lemma {:induction false} ElsewhereLeavesRows(t: Tenant, inv: Inventory, ms: seq<Request>, p: ProductId)
    requires p !in Products(ms)
    ensures SameProduct(inv, Alone(t, inv, ms), p)
  {
    if ms != [] && ApplyAll(t, inv, ms).Ok? {
      var rest := ms[..|ms| - 1];
      ElsewhereLeavesRows(t, inv, rest, p);
      OtherProductLeavesRows(t, Alone(t, inv, rest), ms[|ms| - 1], p);
      SameTwice(Alone(t, inv, rest), Alone(t, inv, rest), inv, Alone(t, inv, ms), p);
    }
  }

  ghost predicate Alike(a: Inventory, b: Inventory, products: set<ProductId>) {
    forall p :: p in products ==> SameProduct(a, b, p)
  }

  /** On tables alike in its products a transaction makes the same plans and leaves the tables alike. */
  lemma {:induction false} AlikeTablesSamePlans(t: Tenant, a: Inventory, b: Inventory, ms: seq<Request>,
      products: set<ProductId>)
    requires LayersSound(a.layers) && LayersSound(b.layers) && Alike(a, b, products) && Products(ms) <= products
    ensures ApplyAll(t, a, ms).Ok? <==> ApplyAll(t, b, ms).Ok?
    ensures ApplyAll(t, a, ms).Ok? ==>
      && PlansOf(t, a, ms) == PlansOf(t, b, ms)
      && Alike(ApplyAll(t, a, ms).value, ApplyAll(t, b, ms).value, products)
  {
    if ms != [] {
      var rest, m := ms[..|ms| - 1], ms[|ms| - 1];
      AlikeTablesSamePlans(t, a, b, rest, products);
      if ApplyAll(t, a, rest).Ok? {
        AlikeTablesSameMovement(t, Alone(t, a, rest), Alone(t, b, rest), m, products) by {
          AloneKeepsLayersSound(t, a, rest);
          AloneKeepsLayersSound(t, b, rest);
        }
      }
    }
  }

  lemma {:induction false} AlikeTablesSameMovement(t: Tenant, a: Inventory, b: Inventory, m: Request,
      products: set<ProductId>)
    requires LayersSound(a.layers) && LayersSound(b.layers) && Alike(a, b, products) && m.place.product in products
    ensures Apply(t, a, m).Ok? <==> Apply(t, b, m).Ok?
    ensures PlanNow(t, a, m) == PlanNow(t, b, m)
    ensures Alike(Moved(t, a, m), Moved(t, b, m), products)
  {
    SameProductSamePlan(t, a, b, m);
    SameMovementKeepsSame(t, a, b, m, m.place.product);
    forall p | p in products ensures SameProduct(Moved(t, a, m), Moved(t, b, m), p) {
      SameMovementKeepsSame(t, a, b, m, p);
    }
  }

  // ---- Who holds what ----

  /** The products a transaction has locked: those of the movements it has planned, and the one it is at. */
  function Locks(ms: seq<Request>, p: Phase): set<ProductId> {
    match p
    case Done => {}
    case Open(plans, step) =>
      if |plans| >= |ms| then Products(ms)
      else Products(ms[..|plans|]) + (if step.Start? then {} else {ms[|plans|].place.product})
  }

  ghost predicate LocksHeld(txs: seq<seq<Request>>, w: World) {
    && Shaped(txs, w)
    && (forall i, p :: 0 <= i < |txs| ==>
          (p in Locks(txs[i], w.phases[i]) <==> p in w.holders && w.holders[p] == i))
    && (forall p :: p in w.holders ==> w.holders[p] < |txs|)
  }

  lemma {:induction false} LocksOfAction(t: Tenant, ms: seq<Request>, w: World, i: nat, a: Action)
    requires i < |w.phases| && Fits(ms, w.phases[i], a) && (w.phases[i].Open? ==> |w.phases[i].plans| <= |ms|)
    ensures Locks(ms, Do(ms, w, i, a).phases[i])
         == if a.Finish? then {}
            else Locks(ms, w.phases[i]) + (if a.TakeLock? then {a.product} else {})
  {
    if a.Add? {
      var k := |w.phases[i].plans|;
      OneMore(t, w.db, ms, k);
      assert k + 1 == |ms| ==> ms[..k + 1] == ms;
    }
  }

  lemma {:induction false} ActionKeepsLocks(t: Tenant, txs: seq<seq<Request>>, w: World, i: nat, a: Action)
    requires LocksHeld(txs, w) && i < |txs| && Fits(txs[i], w.phases[i], a)
    requires a.TakeLock? && a.product in w.holders ==> w.holders[a.product] == i
    ensures LocksHeld(txs, Do(txs[i], w, i, a))
  {
    var after := Do(txs[i], w, i, a);
    LocksOfAction(t, txs[i], w, i, a);
    forall j, p | 0 <= j < |txs|
      ensures p in Locks(txs[j], after.phases[j]) <==> p in after.holders && after.holders[p] == j
    {
      assert p in Locks(txs[j], w.phases[j]) <==> p in w.holders && w.holders[p] == j;
      assert j != i ==> after.phases[j] == w.phases[j];
    }
  }

  lemma {:induction false} AdvanceKeepsLocks(t: Tenant, txs: seq<seq<Request>>, w: World, i: nat)
    requires LocksHeld(txs, w) && i < |txs|
    ensures LocksHeld(txs, Advance(t, txs, w, i))
  {
    ActionKeepsLocks(t, txs, w, i, NextOf(t, txs, w, i));
  }

  lemma {:induction false} LocksApart(txs: seq<seq<Request>>, w: World, i: nat, j: nat)
    requires LocksHeld(txs, w) && i < |txs| && j < |txs| && i != j
    ensures Locks(txs[i], w.phases[i]) !! Locks(txs[j], w.phases[j])
  {
    forall p | p in Locks(txs[i], w.phases[i]) ensures p !in Locks(txs[j], w.phases[j]) {
      assert p in w.holders && w.holders[p] == i;
    }
  }

  // ---- What has been read and planned is still true ----

  /** A transaction's plans are those it would make on the committed tables alone. */
  ghost predicate MadeNow(t: Tenant, db: Inventory, ms: seq<Request>, plans: seq<Plan>) {
    && |plans| <= |ms|
    && ApplyAll(t, db, ms[..|plans|]).Ok? && plans == PlansOf(t, db, ms[..|plans|])
  }

  /** What its next movement has read is what it would read there. */
  ghost predicate ReadNow(t: Tenant, db: Inventory, ms: seq<Request>, k: nat, prior: int, average: int)
    requires k < |ms|
  {
    var seen, product := Alone(t, db, ms[..k]), ms[k].place.product;
    prior == TotalOnHand(seen, product) && average == Average(seen, product)
  }

  ghost predicate StillTrue(t: Tenant, db: Inventory, ms: seq<Request>, p: Phase) {
    p.Open? ==>
      && MadeNow(t, db, ms, p.plans)
      && (!p.step.Start? ==> |p.plans| < |ms| && ms[|p.plans|].place.product in t.products)
      && (p.step.Read? ==> ReadNow(t, db, ms, |p.plans|, p.step.prior, p.step.average))
  }

  ghost predicate Guarded(t: Tenant, txs: seq<seq<Request>>, w: World) {
    && LocksHeld(txs, w) && LayersSound(w.db.layers)
    && (forall i :: 0 <= i < |txs| ==> StillTrue(t, w.db, txs[i], w.phases[i]))
  }

  /** The next movement's plan on what the transaction sees is refused exactly when the movement is, and then the
      transaction comes to nothing. */
  lemma {:induction false} NextMovement(t: Tenant, db: Inventory, ms: seq<Request>, k: nat)
    requires LayersSound(db.layers) && k < |ms| && ApplyAll(t, db, ms[..k]).Ok?
    ensures PlanNow(t, Alone(t, db, ms[..k]), ms[k]).Planned? <==> ApplyAll(t, db, ms[..k + 1]).Ok?
    ensures ApplyAll(t, db, ms[..k + 1]).Err? ==> Alone(t, db, ms) == db
    ensures ms[k].place.product !in t.products ==> ApplyAll(t, db, ms[..k + 1]).Err?
  {
    OneMore(t, db, ms, k);
    AloneKeepsLayersSound(t, db, ms[..k]);
    CurrentPlanCommitsToTheMovement(t, Alone(t, db, ms[..k]), ms[k]);
    if ApplyAll(t, db, ms[..k + 1]).Err? {
      RefusedFromThere(t, db, ms, k + 1);
    }
  }

  /** What a transaction does next is what it would do on the committed tables alone. */
  ghost predicate TrueAction(t: Tenant, db: Inventory, ms: seq<Request>, p: Phase, a: Action)
    requires Fits(ms, p, a)
  {
    match a
    case Wait => true
    case TakeLock(q) => q in t.products
    case Look(prior, average) => ReadNow(t, db, ms, |p.plans|, prior, average)
    case Add(plan) => MadeNow(t, db, ms, p.plans + [plan])
    case Finish(left) => left == Alone(t, db, ms)
  }

  lemma {:induction false} OneMoreMade(t: Tenant, db: Inventory, ms: seq<Request>, plans: seq<Plan>, plan: Plan)
    requires MadeNow(t, db, ms, plans) && |plans| < |ms| && ApplyAll(t, db, ms[..|plans| + 1]).Ok?
    requires plan == PlanNow(t, Alone(t, db, ms[..|plans|]), ms[|plans|])
    ensures MadeNow(t, db, ms, plans + [plan])
  {
    var k, next := |plans|, plans + [plan];
    OneMorePlan(t, db, ms, k);
    assert |next| == k + 1 && next == PlansOf(t, db, ms[..k + 1]);
  }

  lemma {:induction false} ReadsNow(t: Tenant, db: Inventory, ms: seq<Request>, k: nat, prior: int, average: int)
    requires k < |ms| && ReadNow(t, db, ms, k, prior, average)
    ensures var seen := Alone(t, db, ms[..k]);
            PlanWith(t, seen, ms[k], prior, average) == PlanNow(t, seen, ms[k])
  {
  }

  lemma {:induction false} NextIsTrue(t: Tenant, ms: seq<Request>, p: Phase, db: Inventory,
      holders: map<ProductId, nat>, i: nat)
    requires (p.Open? ==> |p.plans| <= |ms|) && LayersSound(db.layers) && StillTrue(t, db, ms, p)
    ensures TrueAction(t, db, ms, p, Next(t, ms, p, db, holders, i))
  {
    if p.Open? {
      var k := |p.plans|;
      CurrentPlansCommit(t, db, ms, k);
      if k == |ms| {
        assert ms[..k] == ms;
      } else {
        NextMovement(t, db, ms, k);
        if p.step.Read? {
          ReadsNow(t, db, ms, k, p.step.prior, p.step.average);
          if Next(t, ms, p, db, holders, i).Add? {
            OneMoreMade(t, db, ms, p.plans, Next(t, ms, p, db, holders, i).plan);
          }
        }
      }
    }
  }

  lemma {:induction false} TrueActionKeepsTrue(t: Tenant, ms: seq<Request>, w: World, i: nat, a: Action)
    requires i < |w.phases| && Fits(ms, w.phases[i], a)
    requires StillTrue(t, w.db, ms, w.phases[i]) && TrueAction(t, w.db, ms, w.phases[i], a)
    ensures StillTrue(t, w.db, ms, Do(ms, w, i, a).phases[i])
  {
  }

  /** What the tables become when a transaction finishes: its own outcome; until then they stay as they are. */
  lemma {:induction false} AdvanceMovesTables(t: Tenant, txs: seq<seq<Request>>, w: World, i: nat)
    requires Guarded(t, txs, w) && i < |txs|
    ensures Advance(t, txs, w, i).db == if NextOf(t, txs, w, i).Finish? then Alone(t, w.db, txs[i]) else w.db
    ensures StillTrue(t, w.db, txs[i], Advance(t, txs, w, i).phases[i])
  {
    assert StillTrue(t, w.db, txs[i], w.phases[i]);
    NextIsTrue(t, txs[i], w.phases[i], w.db, w.holders, i);
    TrueActionKeepsTrue(t, txs[i], w, i, NextOf(t, txs, w, i));
  }

  /** What a transaction has read and planned outlives another one finishing, whose products are all others. */
  lemma {:induction false} OtherFinishes(t: Tenant, db: Inventory, other: seq<Request>, ms: seq<Request>, p: Phase)
    requires LayersSound(db.layers) && StillTrue(t, db, ms, p) && Locks(ms, p) !! Products(other)
    ensures StillTrue(t, Alone(t, db, other), ms, p)
  {
    if p.Open? {
      var after, locks := Alone(t, db, other), Locks(ms, p);
      AloneKeepsLayersSound(t, db, other);
      forall q | q in locks ensures SameProduct(db, after, q) {
        ElsewhereLeavesRows(t, db, other, q);
      }
      assert |p.plans| == |ms| ==> ms[..|p.plans|] == ms;
      AlikeTablesSamePlans(t, db, after, ms[..|p.plans|], locks);
      assert p.step.Read? ==> SameProduct(Alone(t, db, ms[..|p.plans|]), Alone(t, after, ms[..|p.plans|]),
                                          ms[|p.plans|].place.product);
    }
  }

  lemma {:induction false} AllLocksAtCommit(t: Tenant, txs: seq<seq<Request>>, w: World, i: nat)
    requires Guarded(t, txs, w) && i < |txs| && Advance(t, txs, w, i).db != w.db
    ensures Locks(txs[i], w.phases[i]) == Products(txs[i])
  {
    AdvanceMovesTables(t, txs, w, i);
  }

  lemma {:induction false} AdvanceKeepsGuard(t: Tenant, txs: seq<seq<Request>>, w: World, i: nat)
    requires Guarded(t, txs, w) && i < |txs|
    ensures Guarded(t, txs, Advance(t, txs, w, i))
  {
    var after := Advance(t, txs, w, i);
    AdvanceKeepsLocks(t, txs, w, i);
    AdvanceMovesTables(t, txs, w, i);
    AloneKeepsLayersSound(t, w.db, txs[i]);
    forall j | 0 <= j < |txs| ensures StillTrue(t, after.db, txs[j], after.phases[j]) {
      assert StillTrue(t, w.db, txs[j], w.phases[j]);
      if after.db != w.db && j != i {
        AllLocksAtCommit(t, txs, w, i);
        LocksApart(txs, w, j, i);
        OtherFinishes(t, w.db, txs[i], txs[j], w.phases[j]);
      }
    }
  }

  // ---- Any schedule ----

  /** Each transaction is in the order once it is done, and only once. */
  ghost predicate OrderedOnce(w: World, order: seq<nat>) {
    && (forall i :: 0 <= i < |w.phases| ==> (i in order <==> w.phases[i].Done?))
    && (forall j, k :: 0 <= j < k < |order| ==> order[j] != order[k])
  }

  lemma {:induction false} AdvanceKeepsOrder(t: Tenant, txs: seq<seq<Request>>, w: World, order: seq<nat>, i: nat)
    requires Shaped(txs, w) && i < |txs| && OrderedOnce(w, order)
    ensures OrderedOnce(Advance(t, txs, w, i), if NextOf(t, txs, w, i).Finish? then order + [i] else order)
  {
    var after := Advance(t, txs, w, i);
    assert forall j :: 0 <= j < |txs| && j != i ==> after.phases[j] == w.phases[j];
    assert w.phases[i].Done? ==> after.phases[i].Done?;
  }

  lemma {:induction false} FinishingAppends(t: Tenant, txs: seq<seq<Request>>, start: Inventory, order: seq<nat>,
      i: nat)
    requires i < |txs| && forall k :: 0 <= k < |order| ==> order[k] < |txs|
    ensures OneByOne(t, txs, start, order + [i]) == Alone(t, OneByOne(t, txs, start, order), txs[i])
  {
    assert (order + [i])[..|order|] == order;
  }

  /** At every point of any interleaving the committed tables are those of running the transactions that are done
      one by one, in the order they finished, each once: all of its movements, or none if one is refused. */
  lemma {:induction false} AnyScheduleIsSerial(t: Tenant, txs: seq<seq<Request>>, start: Inventory,
      schedule: seq<nat>)
    requires LayersSound(start.layers)
    ensures var r := Play(t, txs, start, schedule);
            && Guarded(t, txs, r.w) && OrderedOnce(r.w, r.order)
            && r.w.db == OneByOne(t, txs, start, r.order)
  {
    if schedule != [] {
      var before := Play(t, txs, start, schedule[..|schedule| - 1]);
      var i := schedule[|schedule| - 1];
      AnyScheduleIsSerial(t, txs, start, schedule[..|schedule| - 1]);
      if i < |txs| {
        AdvanceKeepsGuard(t, txs, before.w, i);
        AdvanceMovesTables(t, txs, before.w, i);
        AdvanceKeepsOrder(t, txs, before.w, before.order, i);
        FinishingAppends(t, txs, start, before.order, i);
      }
    }
  }

  /** When every transaction is done, the tables are the outcome of running each of them exactly once, in the order
      they finished. */
  lemma {:induction false} FinishedRunsAreSerial(t: Tenant, txs: seq<seq<Request>>, start: Inventory,
      schedule: seq<nat>)
    requires LayersSound(start.layers)
    requires forall i :: 0 <= i < |txs| ==> Play(t, txs, start, schedule).w.phases[i].Done?
    ensures var r := Play(t, txs, start, schedule);
            && r.w.db == OneByOne(t, txs, start, r.order)
            && (forall i :: 0 <= i < |txs| ==> i in r.order)
            && (forall j, k :: 0 <= j < k < |r.order| ==> r.order[j] != r.order[k])
  {
    AnyScheduleIsSerial(t, txs, start, schedule);
  }

  // ---- Why the lock: the same steps on stale reads ----

  function Receipt(qty: int, unitCost: int): Request {
    Request(Receive, Place(1, 1), None, Untagged, qty, Some(unitCost), Ref(OTHER(""), ""), 0)
  }

  lemma {:induction false} ReceiptCommits(t: Tenant, db: Inventory, qty: int, unitCost: int, prior: int, average: int)
    requires t == Tenant(map[1 := Product(AVERAGE, false, 0)], false) && qty > 0 && prior + qty > 0
    ensures var m := Receipt(qty, unitCost);
            var after := Commit(t, db, m, PlanWith(t, db, m, prior, average));
            && Average(after, 1) == NewAverage(prior, average, qty, unitCost)
            && TotalOnHand(after, 1) == TotalOnHand(db, 1) + qty
  {
    PostChangesSum(db.balances, Place(1, 1), qty, 0, ProductOf, 1);
  }

  /** Two receipts of ten, at 2.00 and at 4.00, that both read an empty product before either wrote: the
      average ends at the second cost. Had the second read after the first wrote, it would end at 3.00. */
  lemma {:induction false} UnlockedAverageIsLost()
    ensures var t := Tenant(map[1 := Product(AVERAGE, false, 0)], false);
            var one, two := Receipt(1000, 20000), Receipt(1000, 40000);
            var after := Commit(t, Empty, one, PlanNow(t, Empty, one));
            var stale := PlanWith(t, after, two, TotalOnHand(Empty, 1), Average(Empty, 1));
            && Average(Commit(t, after, two, stale), 1) == 40000
            && Average(Commit(t, after, two, PlanNow(t, after, two)), 1) == 30000
  {
    var t := Tenant(map[1 := Product(AVERAGE, false, 0)], false);
    var one := Receipt(1000, 20000);
    var after := Commit(t, Empty, one, PlanNow(t, Empty, one));
    ReceiptCommits(t, Empty, 1000, 20000, 0, 0);
    ReceiptCommits(t, after, 1000, 40000, 0, 0);
    RoundExact(20000, 1000);
    ReceiptCommits(t, after, 1000, 40000, 1000, 20000);
    RoundExact(40000, 1000);
    RoundExact(30000, 2000);
  }
}
