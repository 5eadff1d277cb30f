/** What a movement works out inside its transaction, for rows of its own product, and what merging that into the
    tables at commit makes of them. A plan depends on its own product's rows alone. */
module Plans {
  import opened Rounding
  import opened Records
  import opened Tables
  import opened Fifo
  import opened Ledger
  import opened FifoCosting

  /** A movement worked out but not committed. Takes name a layer by its position in the queue of its place. */
  datatype Plan = Refusal(problem: Problem)
                | Planned(unitCost: int, value: int, average: int, takes: seq<Take>)

  /** The layers of one place. */
  function LayersAt(layers: seq<Layer>, place: Place): seq<Layer> {
    if layers == [] then []
    else (if layers[0].place == place then [layers[0]] else []) + LayersAt(layers[1..], place)
  }

  /** A queue with each layer named by its position in it. */
  function Numbered(queue: seq<Layer>, from: nat): seq<Layer> {
    if queue == [] then [] else [queue[0].(id := from)] + Numbered(queue[1..], from + 1)
  }

  function Slots(layers: seq<Layer>, place: Place): seq<Layer> {
    Numbered(LayersAt(layers, place), 0)
  }

  /** Takes that name positions in a queue, naming the layers there. */
  function Named(takes: seq<Take>, queue: seq<Layer>): seq<Take> {
    if takes == [] then []
    else
      var slot := takes[0].layer;
      [if slot.Some? && slot.value < |queue| then takes[0].(layer := Some(queue[slot.value].id)) else takes[0]]
      + Named(takes[1..], queue)
  }

  /** What a plan keeps of a costing. */
  function Kept(c: Costing): Plan {
    Planned(c.unitCost, c.value, c.average, c.takes)
  }

  function PlanWith(t: Tenant, inv: Inventory, m: Request, prior: int, average: int): Plan {
    var problem := MovementProblem(t, inv, m);
    if problem.Some? then Refusal(problem.value)
    else Kept(Cost(t.products[m.place.product], prior, average, Slots(inv.layers, m.place), m))
  }

  /** The plan made on the tables as they stand. */
  function PlanNow(t: Tenant, inv: Inventory, m: Request): Plan {
    PlanWith(t, inv, m, TotalOnHand(inv, m.place.product), Average(inv, m.place.product))
  }

  /** Take from each layer what the takes took from it. */
  function Deduct(layers: seq<Layer>, takes: seq<Take>): seq<Layer> {
    if layers == [] then []
    else [layers[0].(qtyRemaining := layers[0].qtyRemaining - TakenFrom(takes, layers[0].id))]
         + Deduct(layers[1..], takes)
  }

  function LayersAfter(t: Tenant, layers: seq<Layer>, m: Request, unitCost: int, takes: seq<Take>): seq<Layer> {
    if !IsFifo(t, m.place) then layers
    else if m.qty > 0 then Insert(layers, NewLayer(layers, m, unitCost)) else Deduct(layers, takes)
  }

  /** Merge a plan into the committed tables, which other products' movements may have changed since. */
  function Commit(t: Tenant, db: Inventory, m: Request, plan: Plan): Inventory {
    match plan
    case Refusal(_) => db
    case Planned(unitCost, value, average, takes) =>
      var named := Named(takes, LayersAt(db.layers, m.place));
      Book(db, m, Costing(unitCost, value, average, LayersAfter(t, db.layers, m, unitCost, named), named))
  }

  /** One movement on its own; a refused one changes nothing. */
  function Moved(t: Tenant, inv: Inventory, m: Request): Inventory {
    var r := Apply(t, inv, m);
    if r.Ok? then r.value else inv
  }

  // ---- Naming layers by position loses nothing ----

  lemma {:induction false} NamedCost(takes: seq<Take>, queue: seq<Layer>)
    ensures TakenCost(Named(takes, queue)) == TakenCost(takes)
  {
    if takes != [] {
      NamedCost(takes[1..], queue);
    }
  }

  lemma {:induction false} NamedOfConcat(a: seq<Take>, b: seq<Take>, queue: seq<Layer>)
    ensures Named(a + b, queue) == Named(a, queue) + Named(b, queue)
  {
    if a == [] {
      assert a + b == b;
    } else {
      assert (a + b)[1..] == a[1..] + b;
      NamedOfConcat(a[1..], b, queue);
    }
  }

  /** Relieving looks at ids only to name what it takes from. */
  lemma {:induction false} RelieveNumbered(queue: seq<Layer>, k: nat, scope: Scope, qty: int)
    ensures var slots, all := Relieve(Numbered(queue, k), scope, qty), Relieve(queue, scope, qty);
            slots.uncovered == all.uncovered && slots.layers == Numbered(all.layers, k)
  {
    if queue != [] {
      var here := qty > 0 && InScope(queue[0], scope) && queue[0].qtyRemaining > 0;
      RelieveNumbered(queue[1..], k + 1, scope, if here then qty - Min(qty, queue[0].qtyRemaining) else qty);
    }
  }

  /** The takes of a relief from position `k` on, named. */
  lemma {:induction false} TakesNumbered(queue: seq<Layer>, k: nat, scope: Scope, qty: int)
    requires k <= |queue|
    ensures Named(Relieve(Numbered(queue[k..], k), scope, qty).takes, queue) == Relieve(queue[k..], scope, qty).takes
    decreases |queue| - k
  {
    if k < |queue| {
      var first, rest := queue[k], queue[k + 1..];
      assert queue[k..] == [first] + rest && queue[k..][1..] == rest;
      var here := qty > 0 && InScope(first, scope) && first.qtyRemaining > 0;
      TakesNumbered(queue, k + 1, scope, if here then qty - Min(qty, first.qtyRemaining) else qty);
    }
  }

  lemma {:induction false} RelieveOfOnePlace(layers: seq<Layer>, scope: Scope, qty: int)
    ensures var all, here := Relieve(layers, scope, qty), Relieve(LayersAt(layers, scope.place), scope, qty);
            && all.takes == here.takes && all.uncovered == here.uncovered
            && LayersAt(all.layers, scope.place) == here.layers
  {
    if layers != [] {
      var others := LayersAt(layers[1..], scope.place);
      var here := qty > 0 && InScope(layers[0], scope) && layers[0].qtyRemaining > 0;
      RelieveOfOnePlace(layers[1..], scope, if here then qty - Min(qty, layers[0].qtyRemaining) else qty);
      if layers[0].place == scope.place {
        assert ([layers[0]] + others)[1..] == others;
      } else {
        assert LayersAt(layers, scope.place) == others;
      }
    }
  }

  /** Relieving the numbered queue of a place is relieving the place. */
  lemma {:induction false} RelieveOfSlots(layers: seq<Layer>, scope: Scope, qty: int)
    ensures var slots, all := Relieve(Slots(layers, scope.place), scope, qty), Relieve(layers, scope, qty);
            && Named(slots.takes, LayersAt(layers, scope.place)) == all.takes && slots.uncovered == all.uncovered
            && slots.layers == Slots(all.layers, scope.place)
  {
    var queue := LayersAt(layers, scope.place);
    assert queue[0..] == queue;
    RelieveOfOnePlace(layers, scope, qty);
    RelieveNumbered(queue, 0, scope, qty);
    TakesNumbered(queue, 0, scope, qty);
  }

  lemma {:induction false} AllTakesOfSlots(layers: seq<Layer>, scope: Scope, qty: int, fallback: int)
    ensures var slots := AllTakes(Relieve(Slots(layers, scope.place), scope, qty), fallback);
            var all := AllTakes(Relieve(layers, scope, qty), fallback);
            Named(slots, LayersAt(layers, scope.place)) == all && TakenCost(slots) == TakenCost(all)
  {
    var queue, r := LayersAt(layers, scope.place), Relieve(Slots(layers, scope.place), scope, qty);
    RelieveOfSlots(layers, scope, qty);
    NamedOfConcat(r.takes, if r.uncovered > 0 then [Take(None, r.uncovered, fallback)] else [], queue);
    NamedCost(AllTakes(r, fallback), queue);
  }

  // ---- A plan made on current rows commits to the movement itself ----

  lemma {:induction false} TakenFromNone(takes: seq<Take>, id: nat)
    requires forall take :: take in takes ==> take.layer != Some(id)
    ensures TakenFrom(takes, id) == 0
  {
    if takes != [] {
      assert takes[0] in takes;
      TakenFromNone(takes[1..], id);
    }
  }

  lemma {:induction false} DeductAlike(layers: seq<Layer>, a: seq<Take>, b: seq<Take>)
    requires forall l :: l in layers ==> TakenFrom(a, l.id) == TakenFrom(b, l.id)
    ensures Deduct(layers, a) == Deduct(layers, b)
  {
    if layers != [] {
      assert layers[0] in layers;
      DeductAlike(layers[1..], a, b);
    }
  }

  lemma {:induction false} FirstLayerNotTakenLater(layers: seq<Layer>, scope: Scope, qty: int)
    requires layers != [] && DistinctIds(layers)
    ensures TakenFrom(Relieve(layers[1..], scope, qty).takes, layers[0].id) == 0
  {
    RelieveTakesFromLayers(layers[1..], scope, qty);
    forall l | l in layers[1..] ensures l.id != layers[0].id {
      var j :| 0 <= j < |layers[1..]| && layers[1..][j] == l;
      assert layers[j + 1] == l;
    }
    TakenFromNone(Relieve(layers[1..], scope, qty).takes, layers[0].id);
  }

  lemma {:induction false} LaterLayersTakenAlike(layers: seq<Layer>, takes: seq<Take>, later: seq<Take>)
    requires layers != [] && DistinctIds(layers)
    requires takes == later || (takes != [] && takes[0].layer == Some(layers[0].id) && takes[1..] == later)
    ensures forall l :: l in layers[1..] ==> TakenFrom(takes, l.id) == TakenFrom(later, l.id)
  {
    forall l | l in layers[1..] ensures l.id != layers[0].id {
      var j :| 0 <= j < |layers[1..]| && layers[1..][j] == l;
      assert layers[j + 1] == l;
    }
  }

  /** Deducting the takes of a relief, layer by layer, leaves the relieved layers. */
  lemma {:induction false} DeductIsRelieve(layers: seq<Layer>, scope: Scope, qty: int)
    requires DistinctIds(layers)
    ensures Deduct(layers, Relieve(layers, scope, qty).takes) == Relieve(layers, scope, qty).layers
  {
    if layers != [] {
      var here := qty > 0 && InScope(layers[0], scope) && layers[0].qtyRemaining > 0;
      var left := if here then qty - Min(qty, layers[0].qtyRemaining) else qty;
      var rest, takes := Relieve(layers[1..], scope, left), Relieve(layers, scope, qty).takes;
      DeductIsRelieve(layers[1..], scope, left);
      FirstLayerNotTakenLater(layers, scope, left);
      assert here ==> takes[1..] == rest.takes;
      LaterLayersTakenAlike(layers, takes, rest.takes);
      DeductAlike(layers[1..], takes, rest.takes);
    }
  }

  lemma {:induction false} IssueDeducts(t: Tenant, inv: Inventory, m: Request)
    requires IsFifo(t, m.place) && m.qty <= 0 && DistinctIds(inv.layers)
    ensures Deduct(inv.layers, CostingOf(t, inv, m).takes) == CostingOf(t, inv, m).layers
  {
    FifoIssueIsItsRelief(t, inv, m);
    var r := IssueRelief(inv, m);
    forall l | l in inv.layers ensures TakenFrom(CostingOf(t, inv, m).takes, l.id) == TakenFrom(r.takes, l.id) {
      TakenFromShortfallTail(r.takes, r.uncovered, Average(inv, m.place.product), l.id);
    }
    DeductAlike(inv.layers, CostingOf(t, inv, m).takes, r.takes);
    DeductIsRelieve(inv.layers, ScopeOf(m.place, m.tag), -m.qty);
  }

  /** The costing a plan is made from. */
  function PlanCosting(t: Tenant, inv: Inventory, m: Request): Costing
    requires m.place.product in t.products
  {
    Cost(t.products[m.place.product], TotalOnHand(inv, m.place.product), Average(inv, m.place.product),
         Slots(inv.layers, m.place), m)
  }

  lemma {:induction false} PlannedIssue(t: Tenant, inv: Inventory, m: Request)
    requires IsFifo(t, m.place) && m.qty <= 0
    ensures var slots, c := PlanCosting(t, inv, m), CostingOf(t, inv, m);
            && TakenCost(slots.takes) == TakenCost(c.takes)
            && Named(slots.takes, LayersAt(inv.layers, m.place)) == c.takes
  {
    FifoIssueIsItsRelief(t, inv, m);
    AllTakesOfSlots(inv.layers, ScopeOf(m.place, m.tag), -m.qty, Average(inv, m.place.product));
  }

  /** It is that of the movement, its takes named by position. */
  lemma {:induction false} PlannedCosting(t: Tenant, inv: Inventory, m: Request)
    requires m.place.product in t.products
    ensures var slots, c := PlanCosting(t, inv, m), CostingOf(t, inv, m);
            && slots.unitCost == c.unitCost && slots.value == c.value && slots.average == c.average
            && Named(slots.takes, LayersAt(inv.layers, m.place)) == c.takes
  {
    if IsFifo(t, m.place) && m.qty <= 0 {
      PlannedIssue(t, inv, m);
    }
  }

  lemma {:induction false} CostingLeavesLayers(t: Tenant, inv: Inventory, m: Request)
    requires DistinctIds(inv.layers) && m.place.product in t.products
    ensures var c := CostingOf(t, inv, m);
            LayersAfter(t, inv.layers, m, c.unitCost, c.takes) == c.layers
  {
    if IsFifo(t, m.place) && m.qty <= 0 {
      IssueDeducts(t, inv, m);
    }
  }

  lemma {:induction false} CurrentPlanCommitsToTheMovement(t: Tenant, inv: Inventory, m: Request)
    requires DistinctIds(inv.layers)
    ensures Commit(t, inv, m, PlanNow(t, inv, m)) == Moved(t, inv, m)
    ensures PlanNow(t, inv, m).Planned? <==> Apply(t, inv, m).Ok?
  {
    if MovementProblem(t, inv, m).None? {
      PlannedCosting(t, inv, m);
      CostingLeavesLayers(t, inv, m);
    }
  }

  // ---- A plan depends on its own product's rows alone ----

  /** Two states alike in all that is on hand of a product. */
  ghost predicate SameStock(a: Inventory, b: Inventory, p: ProductId) {
    && TotalOnHand(a, p) == TotalOnHand(b, p)
    && (forall place: Place :: place.product == p ==> OnHand(a.balances, place) == OnHand(b.balances, place))
    && (forall key: LotKey :: key.place.product == p ==> OnHand(a.lots, key) == OnHand(b.lots, key))
    && (forall key: BinKey :: key.place.product == p ==> OnHand(a.bins, key) == OnHand(b.bins, key))
    && (forall key: SerialKey :: key.place.product == p ==>
          SumOnHand(a.lots, SerialAt, key) == SumOnHand(b.lots, SerialAt, key))
  }

  /** All that movements of a product read: the same in both states, layers up to their ids. */
  ghost predicate SameProduct(a: Inventory, b: Inventory, p: ProductId) {
    && SameStock(a, b, p)
    && Average(a, p) == Average(b, p)
    && (forall place: Place :: place.product == p ==> Slots(a.layers, place) == Slots(b.layers, place))
  }

  lemma {:induction false} SameProductSamePlan(t: Tenant, a: Inventory, b: Inventory, m: Request)
    requires SameProduct(a, b, m.place.product)
    ensures PlanNow(t, a, m) == PlanNow(t, b, m)
  {
    assert MovementProblem(t, a, m) == MovementProblem(t, b, m);
  }

  lemma {:induction false} InsertElsewhere(layers: seq<Layer>, layer: Layer, place: Place)
    requires layer.place != place
    ensures LayersAt(Insert(layers, layer), place) == LayersAt(layers, place)
  {
    if layers == [] || Before(layer, layers[0]) {
      assert ([layer] + layers)[1..] == layers;
    } else {
      InsertElsewhere(layers[1..], layer, place);
    }
  }

  lemma {:induction false} RelieveElsewhere(layers: seq<Layer>, scope: Scope, qty: int, place: Place)
    requires scope.place != place
    ensures LayersAt(Relieve(layers, scope, qty).layers, place) == LayersAt(layers, place)
  {
    if layers != [] {
      var here := qty > 0 && InScope(layers[0], scope) && layers[0].qtyRemaining > 0;
      RelieveElsewhere(layers[1..], scope, if here then qty - Min(qty, layers[0].qtyRemaining) else qty, place);
    }
  }

  lemma {:induction false} MovementLeavesLayersElsewhere(t: Tenant, inv: Inventory, m: Request, place: Place)
    requires m.place.product in t.products && m.place != place
    ensures LayersAt(CostingOf(t, inv, m).layers, place) == LayersAt(inv.layers, place)
  {
    if IsFifo(t, m.place) {
      if m.qty > 0 {
        InsertElsewhere(inv.layers, NewLayer(inv.layers, m, CostingOf(t, inv, m).unitCost), place);
      } else {
        RelieveElsewhere(inv.layers, ScopeOf(m.place, m.tag), -m.qty, place);
      }
    }
  }

  /** What a movement does to what is on hand of a product, its own or another. */
  ghost predicate StockMoved(before: Inventory, after: Inventory, m: Request, p: ProductId) {
    && TotalOnHand(after, p) == TotalOnHand(before, p) + (if p == m.place.product then m.qty else 0)
    && (forall place: Place :: OnHand(after.balances, place)
          == OnHand(before.balances, place) + (if place == m.place then m.qty else 0))
    && (forall key: LotKey :: OnHand(after.lots, key)
          == OnHand(before.lots, key) + (if IsTagged(m.tag) && key == LotKey(m.place, m.tag) then m.qty else 0))
    && (forall key: BinKey :: OnHand(after.bins, key)
          == OnHand(before.bins, key)
             + (if m.bin.Some? && key == BinKey(m.place, m.bin.value) then m.qty else 0))
    && (forall key: SerialKey :: SumOnHand(after.lots, SerialAt, key)
          == SumOnHand(before.lots, SerialAt, key)
             + (if IsTagged(m.tag) && key == SerialKey(m.place, m.tag.serial) then m.qty else 0))
  }

  lemma {:induction false} MovementMovesStock(inv: Inventory, m: Request, p: ProductId)
    ensures StockMoved(inv, WithStockMoved(inv, m), m, p)
  {
    var lot := LotKey(m.place, m.tag);
    PostChangesSum(inv.balances, m.place, m.qty, 0, ProductOf, p);
    forall place: Place { PostChangesOneKey(inv.balances, m.place, m.qty, 0, place); }
    forall key: LotKey { PostChangesOneKey(inv.lots, lot, m.qty, 0, key); }
    forall key: SerialKey { PostChangesSum(inv.lots, lot, m.qty, 0, SerialAt, key); }
    if m.bin.Some? {
      forall key: BinKey { PostChangesOneKey(inv.bins, BinKey(m.place, m.bin.value), m.qty, 0, key); }
    }
  }

  /** A movement of one product changes nothing that movements of another read. */
  lemma {:induction false} OtherProductLeavesRows(t: Tenant, inv: Inventory, m: Request, p: ProductId)
    requires m.place.product != p
    ensures SameProduct(inv, Moved(t, inv, m), p)
  {
    if Apply(t, inv, m).Ok? {
      MovementMovesStock(inv, m, p);
      forall place: Place | place.product == p
        ensures Slots(Moved(t, inv, m).layers, place) == Slots(inv.layers, place)
      {
        MovementLeavesLayersElsewhere(t, inv, m, place);
      }
    }
  }

  // ---- The same movement on states alike in its product leaves them alike ----

  lemma {:induction false} InsertAtPlace(layers: seq<Layer>, layer: Layer)
    requires InQueueOrder(layers)
    ensures LayersAt(Insert(layers, layer), layer.place) == Insert(LayersAt(layers, layer.place), layer)
  {
    if layers == [] || Before(layer, layers[0]) {
      assert ([layer] + layers)[1..] == layers;
      AfterAll(layers, layer);
    } else {
      InsertAtPlace(layers[1..], layer);
      var rest, others := Insert(layers[1..], layer), LayersAt(layers[1..], layer.place);
      assert ([layers[0]] + rest)[1..] == rest && ([layers[0]] + others)[1..] == others;
      if layers[0].place != layer.place {
        assert LayersAt(layers, layer.place) == others && LayersAt([layers[0]] + rest, layer.place)
            == LayersAt(rest, layer.place);
      }
    }
  }

  lemma {:induction false} AfterAll(layers: seq<Layer>, layer: Layer)
    requires forall i :: 0 <= i < |layers| ==> Before(layer, layers[i])
    ensures Insert(LayersAt(layers, layer.place), layer) == [layer] + LayersAt(layers, layer.place)
  {
    if layers != [] {
      if layers[0].place != layer.place {
        assert LayersAt(layers, layer.place) == LayersAt(layers[1..], layer.place);
        AfterAll(layers[1..], layer);
      }
    }
  }

  lemma {:induction false} LayersAtAreLayers(layers: seq<Layer>, place: Place)
    ensures forall l :: l in LayersAt(layers, place) ==> l in layers
  {
    if layers != [] {
      LayersAtAreLayers(layers[1..], place);
    }
  }

  /** A new layer is given an id above all others, so it goes to its place by receipt time alone. */
  lemma {:induction false} InsertNumbered(a: seq<Layer>, b: seq<Layer>, x: Layer, y: Layer, from: nat)
    requires Numbered(a, from) == Numbered(b, from) && x.(id := 0) == y.(id := 0)
    requires (forall l :: l in a ==> l.id < x.id) && (forall l :: l in b ==> l.id < y.id)
    ensures Numbered(Insert(a, x), from) == Numbered(Insert(b, y), from)
  {
    if a == [] || b == [] {
    } else {
      assert a[0] in a && b[0] in b;
      assert Numbered(a, from)[0] == Numbered(b, from)[0];
      assert Numbered(a, from)[1..] == Numbered(b, from)[1..];
      if Before(x, a[0]) {
        RenumberedAlike(a, b, from);
      } else {
        InsertNumbered(a[1..], b[1..], x, y, from + 1);
      }
    }
  }

  lemma {:induction false} RenumberedAlike(a: seq<Layer>, b: seq<Layer>, from: nat)
    requires Numbered(a, from) == Numbered(b, from)
    ensures Numbered(a, from + 1) == Numbered(b, from + 1)
  {
    if a != [] && b != [] {
      assert Numbered(a, from)[0] == Numbered(b, from)[0];
      assert Numbered(a, from)[1..] == Numbered(b, from)[1..];
      RenumberedAlike(a[1..], b[1..], from + 1);
    }
  }

  lemma {:induction false} ReceiptKeepsSlots(a: seq<Layer>, b: seq<Layer>, m: Request, unitCost: int)
    requires LayersSound(a) && LayersSound(b) && Slots(a, m.place) == Slots(b, m.place)
    ensures Slots(Insert(a, NewLayer(a, m, unitCost)), m.place) == Slots(Insert(b, NewLayer(b, m, unitCost)), m.place)
  {
    var x, y := NewLayer(a, m, unitCost), NewLayer(b, m, unitCost);
    InsertAtPlace(a, x);
    InsertAtPlace(b, y);
    LayersAtAreLayers(a, m.place);
    LayersAtAreLayers(b, m.place);
    InsertNumbered(LayersAt(a, m.place), LayersAt(b, m.place), x, y, 0);
  }

  lemma {:induction false} IssueKeepsSlots(a: seq<Layer>, b: seq<Layer>, scope: Scope, qty: int)
    requires Slots(a, scope.place) == Slots(b, scope.place)
    ensures Slots(Relieve(a, scope, qty).layers, scope.place) == Slots(Relieve(b, scope, qty).layers, scope.place)
  {
    RelieveOfSlots(a, scope, qty);
    RelieveOfSlots(b, scope, qty);
  }

  lemma {:induction false} SameMovementKeepsSlots(t: Tenant, a: Inventory, b: Inventory, m: Request, place: Place)
    requires LayersSound(a.layers) && LayersSound(b.layers) && m.place.product in t.products
    requires SameProduct(a, b, m.place.product) && place.product == m.place.product
    ensures Slots(CostingOf(t, a, m).layers, place) == Slots(CostingOf(t, b, m).layers, place)
  {
    if place != m.place {
      MovementLeavesLayersElsewhere(t, a, m, place);
      MovementLeavesLayersElsewhere(t, b, m, place);
    } else if IsFifo(t, m.place) {
      if m.qty > 0 {
        ReceiptKeepsSlots(a.layers, b.layers, m, CostingOf(t, a, m).unitCost);
      } else {
        IssueKeepsSlots(a.layers, b.layers, ScopeOf(m.place, m.tag), -m.qty);
      }
    }
  }

  lemma {:induction false} SameMovementKeepsStock(a: Inventory, b: Inventory, m: Request, p: ProductId)
    requires SameStock(a, b, p)
    ensures SameStock(WithStockMoved(a, m), WithStockMoved(b, m), p)
  {
    MovementMovesStock(a, m, p);
    MovementMovesStock(b, m, p);
  }

  lemma {:induction false} SameMovementSameAverage(t: Tenant, a: Inventory, b: Inventory, m: Request)
    requires SameProduct(a, b, m.place.product) && m.place.product in t.products
    ensures CostingOf(t, a, m).average == CostingOf(t, b, m).average
  {
    SameProductSamePlan(t, a, b, m);
    PlannedCosting(t, a, m);
    PlannedCosting(t, b, m);
  }

  lemma {:induction false} SameMovementKeepsItsProduct(t: Tenant, a: Inventory, b: Inventory, m: Request)
    requires LayersSound(a.layers) && LayersSound(b.layers) && SameProduct(a, b, m.place.product)
    requires Apply(t, a, m).Ok? && Apply(t, b, m).Ok?
    ensures SameProduct(Moved(t, a, m), Moved(t, b, m), m.place.product)
  {
    var p := m.place.product;
    SameMovementKeepsStock(a, b, m, p);
    SameMovementSameAverage(t, a, b, m);
    forall place: Place | place.product == p
      ensures Slots(Moved(t, a, m).layers, place) == Slots(Moved(t, b, m).layers, place)
    {
      SameMovementKeepsSlots(t, a, b, m, place);
    }
    SameRows(Moved(t, a, m), WithStockMoved(a, m), p);
    SameRows(Moved(t, b, m), WithStockMoved(b, m), p);
  }

  lemma {:induction false} SameRows(a: Inventory, b: Inventory, p: ProductId)
    requires a.balances == b.balances && a.lots == b.lots && a.bins == b.bins
    ensures SameStock(a, b, p)
  {
  }

  lemma {:induction false} SameTwice(a: Inventory, b: Inventory, x: Inventory, y: Inventory, p: ProductId)
    requires SameProduct(a, b, p) && SameProduct(a, x, p) && SameProduct(b, y, p)
    ensures SameProduct(x, y, p)
  {
  }

  /** States alike in the product of a movement accept or refuse it alike, and stay alike in every product in
      which they were. */
  lemma {:induction false} SameMovementKeepsSame(t: Tenant, a: Inventory, b: Inventory, m: Request, p: ProductId)
    requires LayersSound(a.layers) && LayersSound(b.layers)
    requires SameProduct(a, b, m.place.product) && SameProduct(a, b, p)
    ensures Apply(t, a, m).Ok? <==> Apply(t, b, m).Ok?
    ensures SameProduct(Moved(t, a, m), Moved(t, b, m), p)
  {
    SameProductSamePlan(t, a, b, m);
    if p != m.place.product {
      OtherProductLeavesRows(t, a, m, p);
      OtherProductLeavesRows(t, b, m, p);
      SameTwice(a, b, Moved(t, a, m), Moved(t, b, m), p);
    } else if Apply(t, a, m).Ok? {
      SameMovementKeepsItsProduct(t, a, b, m);
    }
  }

  lemma {:induction false} MovedKeepsLayersSound(t: Tenant, inv: Inventory, m: Request)
    requires LayersSound(inv.layers)
    ensures LayersSound(Moved(t, inv, m).layers)
  {
    if Apply(t, inv, m).Ok? {
      BookKeepsLayersSound(t, inv, m);
    }
  }
}
