/** FIFO costing over whole runs: quantities, values, shortfall and the issue-cost trail. */
module FifoCosting {
  import opened Rounding
  import opened Records
  import opened Tables
  import opened Fifo
  import opened Ledger
  import opened Runs

  predicate IsFifo(t: Tenant, place: Place) {
    place.product in t.products && t.products[place.product].costMethod == FIFO
  }

  predicate Concerns(m: Movement, scope: Scope) {
    m.place == scope.place && (scope.OneLot? ==> m.tag == scope.tag)
  }

  /** A shortfall row of a movement in scope. */
  predicate ShortIn(row: IssueCost, ms: seq<Movement>, scope: Scope) {
    row.take.layer.None? && row.movement < |ms| && Concerns(ms[row.movement], scope)
  }

  /** All the shortfall ever recorded in scope. */
  function ShortQty(rows: seq<IssueCost>, ms: seq<Movement>, scope: Scope): int {
    if rows == [] then 0
    else (if ShortIn(rows[0], ms, scope) then rows[0].take.qty else 0) + ShortQty(rows[1..], ms, scope)
  }

  function ShortCost(rows: seq<IssueCost>, ms: seq<Movement>, scope: Scope): int {
    if rows == [] then 0
    else (if ShortIn(rows[0], ms, scope) then rows[0].take.qty * rows[0].take.unitCost else 0)
         + ShortCost(rows[1..], ms, scope)
  }

  function UncoveredQty(takes: seq<Take>): int {
    if takes == [] then 0 else (if takes[0].layer.None? then takes[0].qty else 0) + UncoveredQty(takes[1..])
  }

  function UncoveredCost(takes: seq<Take>): int {
    if takes == [] then 0
    else (if takes[0].layer.None? then takes[0].qty * takes[0].unitCost else 0) + UncoveredCost(takes[1..])
  }

  ghost predicate RowsOnLedger(inv: Inventory) {
    forall i :: 0 <= i < |inv.issueCosts| ==> inv.issueCosts[i].movement < |inv.movements|
  }

  /** Layers are sound: in queue order, none negative, ids distinct and below the next one. */
  ghost predicate LayersSound(layers: seq<Layer>) {
    && InQueueOrder(layers) && NoneNegative(layers) && DistinctIds(layers)
    && (forall l :: l in layers ==> l.id < |layers|)
  }

  ghost predicate DistinctIds(layers: seq<Layer>) {
    forall i, j :: 0 <= i < j < |layers| ==> layers[i].id != layers[j].id
  }

  lemma {:induction false} ShortOfConcat(a: seq<IssueCost>, b: seq<IssueCost>, ms: seq<Movement>, scope: Scope)
    ensures ShortQty(a + b, ms, scope) == ShortQty(a, ms, scope) + ShortQty(b, ms, scope)
    ensures ShortCost(a + b, ms, scope) == ShortCost(a, ms, scope) + ShortCost(b, ms, scope)
  {
    if a == [] {
      assert a + b == b;
    } else {
      assert (a + b)[1..] == a[1..] + b;
      ShortOfConcat(a[1..], b, ms, scope);
    }
  }

  lemma {:induction false} OldRowsKeepTheirMovement(rows: seq<IssueCost>, ms: seq<Movement>, m: Movement, scope: Scope)
    requires forall i :: 0 <= i < |rows| ==> rows[i].movement < |ms|
    ensures ShortQty(rows, ms + [m], scope) == ShortQty(rows, ms, scope)
    ensures ShortCost(rows, ms + [m], scope) == ShortCost(rows, ms, scope)
  {
    if rows != [] {
      OldRowsKeepTheirMovement(rows[1..], ms, m, scope);
    }
  }

  lemma {:induction false} NewRowsAreTheTakes(takes: seq<Take>, ms: seq<Movement>, m: Movement, scope: Scope)
    ensures var rows := IssueRows(|ms|, m.tag, takes);
            && |rows| == |takes|
            && (forall i :: 0 <= i < |rows| ==> rows[i].movement == |ms|)
            && ShortQty(rows, ms + [m], scope) == (if Concerns(m, scope) then UncoveredQty(takes) else 0)
            && ShortCost(rows, ms + [m], scope) == (if Concerns(m, scope) then UncoveredCost(takes) else 0)
  {
    if takes != [] {
      NewRowsAreTheTakes(takes[1..], ms, m, scope);
      assert IssueRows(|ms|, m.tag, takes)[1..] == IssueRows(|ms|, m.tag, takes[1..]);
    }
  }

  /** A movement adds its own shortfall to the trail, and nothing else. */
  lemma {:induction false} BookShortfall(inv: Inventory, m: Request, c: Costing, scope: Scope)
    requires RowsOnLedger(inv)
    ensures var after, here := Book(inv, m, c), Concerns(Entry(m, c), scope);
            && RowsOnLedger(after)
            && ShortQty(after.issueCosts, after.movements, scope)
               == ShortQty(inv.issueCosts, inv.movements, scope) + (if here then UncoveredQty(c.takes) else 0)
            && ShortCost(after.issueCosts, after.movements, scope)
               == ShortCost(inv.issueCosts, inv.movements, scope) + (if here then UncoveredCost(c.takes) else 0)
  {
    var ms, entry := inv.movements, Entry(m, c);
    OldRowsKeepTheirMovement(inv.issueCosts, ms, entry, scope);
    NewRowsAreTheTakes(c.takes, ms, entry, scope);
    ShortOfConcat(inv.issueCosts, IssueRows(|ms|, m.tag, c.takes), ms + [entry], scope);
  }

  lemma {:induction false} UncoveredOfRelief(takes: seq<Take>, uncovered: int, fallback: int)
    requires forall take :: take in takes ==> take.layer.Some?
    ensures var all := takes + (if uncovered > 0 then [Take(None, uncovered, fallback)] else []);
            && UncoveredQty(all) == Max(0, uncovered)
            && UncoveredCost(all) == Max(0, uncovered) * fallback
  {
    var tail := if uncovered > 0 then [Take(None, uncovered, fallback)] else [];
    if takes == [] {
      assert takes + tail == tail;
      assert uncovered > 0 ==> tail[1..] == [];
    } else {
      assert (takes + tail)[1..] == takes[1..] + tail;
      UncoveredOfRelief(takes[1..], uncovered, fallback);
    }
  }

  // ---- What one movement does to the layers in a scope ----

  /** The change of the layers' quantity and worth in a scope, by one costing. */
  ghost predicate LayersMove(inv: Inventory, m: Request, c: Costing, scope: Scope) {
    && Quantity(c.layers, scope) == Quantity(inv.layers, scope) + m.qty + UncoveredQty(c.takes)
    && (m.qty <= 0 ==> Worth(c.layers, scope) == Worth(inv.layers, scope) - TakenCost(c.takes) + UncoveredCost(c.takes))
    && (m.qty > 0 ==> Worth(c.layers, scope) == Worth(inv.layers, scope) + m.qty * c.unitCost)
  }

  ghost predicate LayersStay(inv: Inventory, c: Costing, scope: Scope) {
    Quantity(c.layers, scope) == Quantity(inv.layers, scope) && Worth(c.layers, scope) == Worth(inv.layers, scope)
  }

  function IssueRelief(inv: Inventory, m: Request): Relief {
    Relieve(inv.layers, ScopeOf(m.place, m.tag), -m.qty)
  }

  lemma {:induction false} FifoIssueIsItsRelief(t: Tenant, inv: Inventory, m: Request)
    requires IsFifo(t, m.place) && m.qty <= 0
    ensures var c, r := CostingOf(t, inv, m), IssueRelief(inv, m);
            && c.layers == r.layers
            && c.value == Cents(-TakenCost(c.takes))
            && c.takes == AllTakes(r, Average(inv, m.place.product))
  {
  }

  lemma {:induction false} ReliefTotals(layers: seq<Layer>, scope: Scope, qty: nat, fallback: int, r: Relief,
      takes: seq<Take>)
    requires NoneNegative(layers)
    requires r == Relieve(layers, scope, qty) && takes == AllTakes(r, fallback)
    ensures UncoveredQty(takes) == Max(0, qty - Quantity(layers, scope))
    ensures TakenQty(r.takes) + UncoveredQty(takes) == qty
    ensures TakenCost(takes) == TakenCost(r.takes) + UncoveredCost(takes)
  {
    RelieveSplitsQuantity(layers, scope, qty);
    RelieveTakesAreReal(layers, scope, qty);
    UncoveredOfRelief(r.takes, r.uncovered, fallback);
    ReliefCosts(r, fallback);
  }

  lemma {:induction false} ReliefCosts(r: Relief, fallback: int)
    requires forall take :: take in r.takes ==> take.layer.Some?
    ensures TakenCost(AllTakes(r, fallback)) == TakenCost(r.takes) + UncoveredCost(AllTakes(r, fallback))
  {
    AllTakesCost(r, fallback);
    UncoveredOfRelief(r.takes, r.uncovered, fallback);
  }

  /** The costing of a FIFO issue, in terms of what it relieves. */
  lemma {:induction false} FifoIssueCosting(t: Tenant, inv: Inventory, m: Request)
    requires IsFifo(t, m.place) && m.qty <= 0 && NoneNegative(inv.layers)
    ensures var c, r := CostingOf(t, inv, m), IssueRelief(inv, m);
            && c.layers == r.layers
            && c.value == Cents(-TakenCost(c.takes))
            && UncoveredQty(c.takes) == Max(0, -m.qty - Quantity(inv.layers, ScopeOf(m.place, m.tag)))
            && TakenQty(r.takes) + UncoveredQty(c.takes) == -m.qty
            && TakenCost(c.takes) == TakenCost(r.takes) + UncoveredCost(c.takes)
  {
    var c, r := CostingOf(t, inv, m), IssueRelief(inv, m);
    FifoIssueIsItsRelief(t, inv, m);
    ReliefTotals(inv.layers, ScopeOf(m.place, m.tag), -m.qty, Average(inv, m.place.product), r, c.takes);
  }

  lemma {:induction false} IssueMovesCovering(t: Tenant, inv: Inventory, m: Request, scope: Scope)
    requires IsFifo(t, m.place) && m.qty <= 0 && NoneNegative(inv.layers)
    requires Covers(scope, ScopeOf(m.place, m.tag))
    ensures LayersMove(inv, m, CostingOf(t, inv, m), scope)
  {
    FifoIssueCosting(t, inv, m);
    RelieveConserves(inv.layers, ScopeOf(m.place, m.tag), -m.qty, scope);
  }

  lemma {:induction false} IssueSparesApart(t: Tenant, inv: Inventory, m: Request, scope: Scope)
    requires IsFifo(t, m.place) && m.qty <= 0 && Apart(scope, ScopeOf(m.place, m.tag))
    ensures LayersStay(inv, CostingOf(t, inv, m), scope)
  {
    FifoIssueIsItsRelief(t, inv, m);
    RelieveSparesOthers(inv.layers, ScopeOf(m.place, m.tag), -m.qty, scope);
  }

  lemma {:induction false} IssueRelievesScope(t: Tenant, inv: Inventory, m: Request, scope: Scope)
    requires IsFifo(t, m.place) && m.qty <= 0 && NoneNegative(inv.layers)
    ensures Covers(scope, ScopeOf(m.place, m.tag)) ==> LayersMove(inv, m, CostingOf(t, inv, m), scope)
    ensures Apart(scope, ScopeOf(m.place, m.tag)) ==> LayersStay(inv, CostingOf(t, inv, m), scope)
  {
    if Covers(scope, ScopeOf(m.place, m.tag)) {
      IssueMovesCovering(t, inv, m, scope);
    }
    if Apart(scope, ScopeOf(m.place, m.tag)) {
      IssueSparesApart(t, inv, m, scope);
    }
  }

  lemma {:induction false} ReceiptAddsLayer(t: Tenant, inv: Inventory, m: Request, scope: Scope)
    requires IsFifo(t, m.place) && m.qty > 0
    ensures var c := CostingOf(t, inv, m);
            && c.takes == []
            && (if InScope(NewLayer(inv.layers, m, c.unitCost), scope)
                then LayersMove(inv, m, c, scope) else LayersStay(inv, c, scope))
  {
    InsertAddsOneLayer(inv.layers, NewLayer(inv.layers, m, CostingOf(t, inv, m).unitCost), scope);
  }

  /** Whatever the movement, the layers at its location move with it and those elsewhere stay. */
  lemma {:induction false} MovementMovesItsLocation(t: Tenant, inv: Inventory, m: Request, place: Place)
    requires m.place.product in t.products && IsFifo(t, place) && NoneNegative(inv.layers)
    ensures var c := CostingOf(t, inv, m);
            && (m.place == place ==> LayersMove(inv, m, c, Everything(place)))
            && (m.place != place ==> LayersStay(inv, c, Everything(place)))
  {
    if IsFifo(t, m.place) {
      if m.qty > 0 {
        ReceiptAddsLayer(t, inv, m, Everything(place));
      } else {
        IssueRelievesScope(t, inv, m, Everything(place));
      }
    }
  }

  lemma {:induction false} InsertKeepsIdsDistinct(layers: seq<Layer>, layer: Layer)
    requires DistinctIds(layers) && forall i :: 0 <= i < |layers| ==> layers[i].id != layer.id
    ensures DistinctIds(Insert(layers, layer))
    ensures forall l :: l in Insert(layers, layer) <==> l == layer || l in layers
  {
    if layers != [] && !Before(layer, layers[0]) {
      InsertKeepsIdsDistinct(layers[1..], layer);
      var rest := Insert(layers[1..], layer);
      assert forall l :: l in rest ==> layers[0].id != l.id;
    }
  }

  lemma {:induction false} InsertKeepsLayersSound(layers: seq<Layer>, layer: Layer)
    requires LayersSound(layers) && layer.id == |layers| && 0 <= layer.qtyRemaining
    ensures LayersSound(Insert(layers, layer))
  {
    assert forall i :: 0 <= i < |layers| ==> layers[i] in layers;
    InsertKeepsOrder(layers, layer);
    InsertKeepsIdsDistinct(layers, layer);
    InsertAddsOneLayer(layers, layer, Everything(layer.place));
  }

  lemma {:induction false} RelieveKeepsLayersSound(layers: seq<Layer>, scope: Scope, qty: int)
    requires LayersSound(layers)
    ensures LayersSound(Relieve(layers, scope, qty).layers)
  {
    var after := Relieve(layers, scope, qty).layers;
    RelieveTouchesOnlyScope(layers, scope, qty);
    forall i, j | 0 <= i < j < |after| ensures Before(after[i], after[j]) {
      assert Before(layers[i], layers[j]);
    }
    forall i | 0 <= i < |after| ensures after[i].id < |after| {
      assert layers[i] in layers;
    }
  }

  lemma {:induction false} BookKeepsLayersSound(t: Tenant, inv: Inventory, m: Request)
    requires LayersSound(inv.layers) && m.place.product in t.products
    ensures LayersSound(CostingOf(t, inv, m).layers)
  {
    if IsFifo(t, m.place) {
      if m.qty > 0 {
        InsertKeepsLayersSound(inv.layers, NewLayer(inv.layers, m, CostingOf(t, inv, m).unitCost));
      } else {
        RelieveKeepsLayersSound(inv.layers, ScopeOf(m.place, m.tag), -m.qty);
      }
    }
  }

  // ---- Whole runs ----

  /** At every FIFO location the layers hold what is on hand plus all shortfall ever recorded. */
  ghost predicate QuantitiesAgree(t: Tenant, inv: Inventory) {
    forall place :: IsFifo(t, place) ==>
      Quantity(inv.layers, Everything(place))
      == OnHand(inv.balances, place) + ShortQty(inv.issueCosts, inv.movements, Everything(place))
  }

  ghost predicate FifoSound(t: Tenant, inv: Inventory) {
    LayersSound(inv.layers) && RowsOnLedger(inv) && QuantitiesAgree(t, inv)
  }

  lemma {:induction false} StepKeepsFifoSound(t: Tenant, inv: Inventory, op: Op)
    requires FifoSound(t, inv)
    ensures FifoSound(t, Step(t, inv, op))
  {
    OnlyMovementsMoveStock(t, inv, op);
    if Accepted(t, inv, op) {
      var m, c := op.m, CostingOf(t, inv, op.m);
      BookKeepsLayersSound(t, inv, m);
      BookShortfall(inv, m, c, Everything(m.place));
      forall place | IsFifo(t, place)
        ensures var after := Book(inv, m, c);
                Quantity(after.layers, Everything(place))
                == OnHand(after.balances, place) + ShortQty(after.issueCosts, after.movements, Everything(place))
      {
        BookShortfall(inv, m, c, Everything(place));
        MovementMovesItsLocation(t, inv, m, place);
        PostChangesOneKey(inv.balances, m.place, m.qty, 0, place);
      }
    }
  }

  /** FIFO quantity identity, in every reachable state. */
  lemma {:induction false} LayersEqualStockPlusShortfall(t: Tenant, ops: seq<Op>)
    ensures FifoSound(t, Run(t, Empty, ops))
  {
    if ops != [] {
      LayersEqualStockPlusShortfall(t, ops[..|ops| - 1]);
      StepKeepsFifoSound(t, Run(t, Empty, ops[..|ops| - 1]), ops[|ops| - 1]);
    }
  }

  function ValueAt(ms: seq<Movement>, place: Place): int {
    if ms == [] then 0
    else ValueAt(ms[..|ms| - 1], place) + (if ms[|ms| - 1].place == place then ms[|ms| - 1].value else 0)
  }

  function CountAt(ms: seq<Movement>, place: Place): nat {
    if ms == [] then 0
    else CountAt(ms[..|ms| - 1], place) + (if ms[|ms| - 1].place == place then 1 else 0)
  }

  /** Ledger value less (layer worth less shortfall cost), in millionths. */
  function FifoGap(inv: Inventory, place: Place): int {
    Millionths(ValueAt(inv.movements, place))
    - (Worth(inv.layers, Everything(place)) - ShortCost(inv.issueCosts, inv.movements, Everything(place)))
  }

  /** The ledger value of a location is what its layers are worth, less what shortfall was costed at, to
      within half a cent per movement. */
  ghost predicate ValuesAgree(t: Tenant, inv: Inventory) {
    forall place :: IsFifo(t, place) ==> 2 * Abs(FifoGap(inv, place)) <= Millionths(CountAt(inv.movements, place))
  }

  /** What a FIFO movement is valued at, to the cent, against what it does to its layers and its shortfall. */
  lemma {:induction false} ValueFollowsLayers(t: Tenant, inv: Inventory, m: Request)
    requires IsFifo(t, m.place) && NoneNegative(inv.layers)
    ensures var c, here := CostingOf(t, inv, m), Everything(m.place);
            2 * Abs(Millionths(c.value) - (Worth(c.layers, here) - Worth(inv.layers, here) - UncoveredCost(c.takes)))
              <= 10000
  {
    MovementMovesItsLocation(t, inv, m, m.place);
    if m.qty > 0 {
      ReceiptAddsLayer(t, inv, m, Everything(m.place));
    } else {
      FifoIssueIsItsRelief(t, inv, m);
    }
  }

  lemma {:induction false} BookMovesGap(inv: Inventory, m: Request, c: Costing, place: Place)
    requires RowsOnLedger(inv)
    ensures var after, here := Book(inv, m, c), Everything(place);
            && FifoGap(after, place) == FifoGap(inv, place) - (Worth(c.layers, here) - Worth(inv.layers, here))
                 + (if m.place == place then Millionths(c.value) + UncoveredCost(c.takes) else 0)
            && CountAt(after.movements, place) == CountAt(inv.movements, place) + (if m.place == place then 1 else 0)
  {
    BookShortfall(inv, m, c, Everything(place));
  }

  lemma {:induction false} StepKeepsValues(t: Tenant, inv: Inventory, op: Op, place: Place)
    requires FifoSound(t, inv) && IsFifo(t, place)
    requires 2 * Abs(FifoGap(inv, place)) <= Millionths(CountAt(inv.movements, place))
    ensures var after := Step(t, inv, op); 2 * Abs(FifoGap(after, place)) <= Millionths(CountAt(after.movements, place))
  {
    OnlyMovementsMoveStock(t, inv, op);
    if Accepted(t, inv, op) {
      var m, c := op.m, CostingOf(t, inv, op.m);
      BookMovesGap(inv, m, c, place);
      if m.place == place {
        ValueFollowsLayers(t, inv, m);
      } else {
        MovementMovesItsLocation(t, inv, m, place);
      }
    }
  }

  lemma {:induction false} LedgerValueIsLayerWorth(t: Tenant, ops: seq<Op>)
    ensures ValuesAgree(t, Run(t, Empty, ops))
  {
    if ops != [] {
      var before := Run(t, Empty, ops[..|ops| - 1]);
      LedgerValueIsLayerWorth(t, ops[..|ops| - 1]);
      LayersEqualStockPlusShortfall(t, ops[..|ops| - 1]);
      forall place | IsFifo(t, place)
        ensures var after := Step(t, before, ops[|ops| - 1]);
                2 * Abs(FifoGap(after, place)) <= Millionths(CountAt(after.movements, place))
      {
        StepKeepsValues(t, before, ops[|ops| - 1], place);
      }
    }
  }

  function TotalCost(rows: seq<IssueCost>): int {
    if rows == [] then 0 else rows[0].totalCost + TotalCost(rows[1..])
  }

  lemma {:induction false} RowsRoundTheTakes(movement: nat, tag: Tag, takes: seq<Take>)
    ensures var rows := IssueRows(movement, tag, takes);
            2 * Abs(Millionths(TotalCost(rows)) - TakenCost(takes)) <= Millionths(|rows|)
  {
    if takes != [] {
      RowsRoundTheTakes(movement, tag, takes[1..]);
      assert IssueRows(movement, tag, takes)[1..] == IssueRows(movement, tag, takes[1..]);
    }
  }

  /** The rows one accepted movement adds to the issue-cost trail. */
  function NewRows(t: Tenant, inv: Inventory, m: Request): seq<IssueCost>
    requires m.place.product in t.products
  {
    IssueRows(|inv.movements|, m.tag, CostingOf(t, inv, m).takes)
  }

  lemma {:induction false} RowsMatchTakes(movement: nat, tag: Tag, takes: seq<Take>)
    ensures var rows := IssueRows(movement, tag, takes);
            2 * Abs(TotalCost(rows) + Cents(-TakenCost(takes))) <= |rows| + 1
  {
    RowsRoundTheTakes(movement, tag, takes);
  }

  lemma {:induction false} BookedRowsMatchValue(inv: Inventory, m: Request, c: Costing)
    requires c.value == Cents(-TakenCost(c.takes))
    ensures var after, rows := Book(inv, m, c), IssueRows(|inv.movements|, m.tag, c.takes);
            && after.issueCosts == inv.issueCosts + rows
            && |after.movements| == |inv.movements| + 1
            && (forall i :: 0 <= i < |rows| ==> rows[i].movement == |inv.movements|)
            && 2 * Abs(TotalCost(rows) + after.movements[|inv.movements|].value) <= |rows| + 1
  {
    RowsMatchTakes(|inv.movements|, m.tag, c.takes);
    NewRowsAreTheTakes(c.takes, inv.movements, Entry(m, c), Everything(m.place));
  }

  /** The issue-cost rows of one issue total the movement's value, to within half a cent per row and half a
      cent for the movement itself. */
  lemma {:induction false} IssueTrailMatchesValue(t: Tenant, inv: Inventory, m: Request)
    requires IsFifo(t, m.place) && m.qty <= 0 && NoneNegative(inv.layers) && MovementProblem(t, inv, m).None?
    ensures var after, rows := Step(t, inv, Move(m)), NewRows(t, inv, m);
            && after.issueCosts == inv.issueCosts + rows
            && |after.movements| == |inv.movements| + 1
            && (forall i :: 0 <= i < |rows| ==> rows[i].movement == |inv.movements|)
            && 2 * Abs(TotalCost(rows) + after.movements[|inv.movements|].value) <= |rows| + 1
  {
    OnlyMovementsMoveStock(t, inv, Move(m));
    FifoIssueIsItsRelief(t, inv, m);
    BookedRowsMatchValue(inv, m, CostingOf(t, inv, m));
  }

  // ---- Every unit of every layer is accounted for ----

  function ReceivedIn(layers: seq<Layer>, id: nat): int {
    if layers == [] then 0 else (if layers[0].id == id then layers[0].qtyReceived else 0) + ReceivedIn(layers[1..], id)
  }

  function RemainingIn(layers: seq<Layer>, id: nat): int {
    if layers == [] then 0
    else (if layers[0].id == id then layers[0].qtyRemaining else 0) + RemainingIn(layers[1..], id)
  }

  function IssuedFrom(rows: seq<IssueCost>, id: nat): int {
    if rows == [] then 0
    else (if rows[0].take.layer == Some(id) then rows[0].take.qty else 0) + IssuedFrom(rows[1..], id)
  }

  function TakenFrom(takes: seq<Take>, id: nat): int {
    if takes == [] then 0 else (if takes[0].layer == Some(id) then takes[0].qty else 0) + TakenFrom(takes[1..], id)
  }

  /** For each layer, the quantity received is the quantity remaining plus what the trail says was issued. */
  ghost predicate TrailAccounts(inv: Inventory) {
    forall id :: ReceivedIn(inv.layers, id) == RemainingIn(inv.layers, id) + IssuedFrom(inv.issueCosts, id)
  }

  lemma {:induction false} RelieveTrail(layers: seq<Layer>, scope: Scope, qty: int, id: nat)
    ensures var r := Relieve(layers, scope, qty);
            && ReceivedIn(r.layers, id) == ReceivedIn(layers, id)
            && RemainingIn(r.layers, id) == RemainingIn(layers, id) - TakenFrom(r.takes, id)
  {
    if layers != [] {
      var here := qty > 0 && InScope(layers[0], scope) && layers[0].qtyRemaining > 0;
      RelieveTrail(layers[1..], scope, if here then qty - Min(qty, layers[0].qtyRemaining) else qty, id);
    }
  }

  lemma {:induction false} InsertTrail(layers: seq<Layer>, layer: Layer, id: nat)
    ensures var after := Insert(layers, layer);
            && ReceivedIn(after, id) == ReceivedIn(layers, id) + (if layer.id == id then layer.qtyReceived else 0)
            && RemainingIn(after, id) == RemainingIn(layers, id) + (if layer.id == id then layer.qtyRemaining else 0)
  {
    if layers == [] || Before(layer, layers[0]) {
      assert ([layer] + layers)[1..] == layers;
    } else {
      InsertTrail(layers[1..], layer, id);
    }
  }

  lemma {:induction false} TakenFromShortfallTail(takes: seq<Take>, uncovered: int, fallback: int, id: nat)
    ensures var tail := if uncovered > 0 then [Take(None, uncovered, fallback)] else [];
            TakenFrom(takes + tail, id) == TakenFrom(takes, id)
  {
    var tail := if uncovered > 0 then [Take(None, uncovered, fallback)] else [];
    if takes == [] {
      assert takes + tail == tail;
    } else {
      assert (takes + tail)[1..] == takes[1..] + tail;
      TakenFromShortfallTail(takes[1..], uncovered, fallback, id);
    }
  }

  lemma {:induction false} IssuedOfNewRows(rows: seq<IssueCost>, movement: nat, tag: Tag, takes: seq<Take>, id: nat)
    ensures IssuedFrom(rows + IssueRows(movement, tag, takes), id) == IssuedFrom(rows, id) + TakenFrom(takes, id)
  {
    var added := IssueRows(movement, tag, takes);
    if rows != [] {
      assert (rows + added)[1..] == rows[1..] + added;
      IssuedOfNewRows(rows[1..], movement, tag, takes, id);
    } else if takes != [] {
      assert rows + added == added && added[1..] == [] + IssueRows(movement, tag, takes[1..]);
      IssuedOfNewRows([], movement, tag, takes[1..], id);
    }
  }

  /** What a costing takes out of a layer is what the layer loses. */
  lemma {:induction false} CostingKeepsTrail(t: Tenant, inv: Inventory, m: Request, id: nat)
    requires m.place.product in t.products
    ensures var c := CostingOf(t, inv, m);
            ReceivedIn(c.layers, id) - RemainingIn(c.layers, id)
            == ReceivedIn(inv.layers, id) - RemainingIn(inv.layers, id) + TakenFrom(c.takes, id)
  {
    if IsFifo(t, m.place) {
      if m.qty > 0 {
        InsertTrail(inv.layers, NewLayer(inv.layers, m, CostingOf(t, inv, m).unitCost), id);
      } else {
        var r := IssueRelief(inv, m);
        RelieveTrail(inv.layers, ScopeOf(m.place, m.tag), -m.qty, id);
        TakenFromShortfallTail(r.takes, r.uncovered, Average(inv, m.place.product), id);
      }
    }
  }

  lemma {:induction false} BookKeepsTrail(t: Tenant, inv: Inventory, m: Request)
    requires m.place.product in t.products && TrailAccounts(inv)
    ensures TrailAccounts(Book(inv, m, CostingOf(t, inv, m)))
  {
    var c := CostingOf(t, inv, m);
    forall id
      ensures ReceivedIn(c.layers, id) == RemainingIn(c.layers, id)
              + IssuedFrom(inv.issueCosts + IssueRows(|inv.movements|, m.tag, c.takes), id)
    {
      assert ReceivedIn(inv.layers, id) == RemainingIn(inv.layers, id) + IssuedFrom(inv.issueCosts, id);
      IssuedOfNewRows(inv.issueCosts, |inv.movements|, m.tag, c.takes, id);
      CostingKeepsTrail(t, inv, m, id);
    }
  }

  /** In every reachable state the issue-cost trail accounts for every unit that left a layer. */
  lemma {:induction false} TrailAlwaysAccounts(t: Tenant, ops: seq<Op>)
    ensures TrailAccounts(Run(t, Empty, ops))
  {
    if ops != [] {
      var before, op := Run(t, Empty, ops[..|ops| - 1]), ops[|ops| - 1];
      TrailAlwaysAccounts(t, ops[..|ops| - 1]);
      OnlyMovementsMoveStock(t, before, op);
      if Accepted(t, before, op) {
        BookKeepsTrail(t, before, op.m);
      }
    }
  }
}
