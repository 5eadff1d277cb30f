/** FIFO cost layers. The table is kept in (received_at, id) order, the order every query asks for. */
module Fifo {
  import opened Rounding
  import opened Records
  import opened Queues

  /** The layers an issue may draw on: a whole location, or one lot at a location. */
  datatype Scope = Everything(place: Place) | OneLot(place: Place, tag: Tag)

  function ScopeOf(place: Place, tag: Tag): Scope {
    if IsTagged(tag) then OneLot(place, tag) else Everything(place)
  }

  predicate InScope(layer: Layer, scope: Scope) {
    layer.place == scope.place && (scope.OneLot? ==> layer.tag == scope.tag)
  }

  predicate Before(a: Layer, b: Layer) {
    a.receivedAt < b.receivedAt || (a.receivedAt == b.receivedAt && a.id < b.id)
  }

  ghost predicate InQueueOrder(layers: seq<Layer>) {
    forall i, j :: 0 <= i < j < |layers| ==> Before(layers[i], layers[j])
  }

  ghost predicate NoneNegative(layers: seq<Layer>) {
    forall i :: 0 <= i < |layers| ==> 0 <= layers[i].qtyRemaining
  }

  /** A new layer goes to its place in the queue. */
  function Insert(layers: seq<Layer>, layer: Layer): seq<Layer> {
    if layers == [] || Before(layer, layers[0]) then [layer] + layers
    else [layers[0]] + Insert(layers[1..], layer)
  }

  function Quantity(layers: seq<Layer>, scope: Scope): int {
    if layers == [] then 0
    else (if InScope(layers[0], scope) then layers[0].qtyRemaining else 0) + Quantity(layers[1..], scope)
  }

  function Worth(layers: seq<Layer>, scope: Scope): int {
    if layers == [] then 0
    else (if InScope(layers[0], scope) then layers[0].qtyRemaining * layers[0].unitCost else 0)
         + Worth(layers[1..], scope)
  }

  function TakenQty(takes: seq<Take>): int {
    if takes == [] then 0 else takes[0].qty + TakenQty(takes[1..])
  }

  function TakenCost(takes: seq<Take>): int {
    if takes == [] then 0 else takes[0].qty * takes[0].unitCost + TakenCost(takes[1..])
  }

  lemma {:induction false} TakenOfConcat(a: seq<Take>, b: seq<Take>)
    ensures TakenQty(a + b) == TakenQty(a) + TakenQty(b)
    ensures TakenCost(a + b) == TakenCost(a) + TakenCost(b)
  {
    if a == [] {
      assert a + b == b;
    } else {
      assert (a + b)[1..] == a[1..] + b;
      TakenOfConcat(a[1..], b);
    }
  }

  /** What an issue leaves behind, what it took from which layer, and the quantity no layer covered. */
  datatype Relief = Relief(layers: seq<Layer>, takes: seq<Take>, uncovered: int)

  function Relieve(layers: seq<Layer>, scope: Scope, qty: int): Relief {
    if layers == [] then Relief([], [], qty)
    else if qty > 0 && InScope(layers[0], scope) && layers[0].qtyRemaining > 0 then
      var take := Min(qty, layers[0].qtyRemaining);
      var rest := Relieve(layers[1..], scope, qty - take);
      Relief([layers[0].(qtyRemaining := layers[0].qtyRemaining - take)] + rest.layers,
             [Take(Some(layers[0].id), take, layers[0].unitCost)] + rest.takes, rest.uncovered)
    else
      var rest := Relieve(layers[1..], scope, qty);
      Relief([layers[0]] + rest.layers, rest.takes, rest.uncovered)
  }

  /** All the takes of an issue: those from layers, then the shortfall at the fallback cost. */
  function AllTakes(relief: Relief, fallback: int): seq<Take> {
    relief.takes + (if relief.uncovered > 0 then [Take(None, relief.uncovered, fallback)] else [])
  }

  // ---- The queue order ----

  lemma {:induction false} InsertKeepsOrder(layers: seq<Layer>, layer: Layer)
    requires InQueueOrder(layers)
    requires forall i :: 0 <= i < |layers| ==> layers[i].id != layer.id
    ensures InQueueOrder(Insert(layers, layer))
    ensures forall l :: l in Insert(layers, layer) <==> l == layer || l in layers
  {
    if layers == [] || Before(layer, layers[0]) {
    } else {
      InsertKeepsOrder(layers[1..], layer);
      var rest := Insert(layers[1..], layer);
      assert forall l :: l in rest ==> Before(layers[0], l);
    }
  }

  lemma {:induction false} InsertAddsOneLayer(layers: seq<Layer>, layer: Layer, scope: Scope)
    ensures Quantity(Insert(layers, layer), scope)
         == Quantity(layers, scope) + (if InScope(layer, scope) then layer.qtyRemaining else 0)
    ensures Worth(Insert(layers, layer), scope)
         == Worth(layers, scope) + (if InScope(layer, scope) then layer.qtyRemaining * layer.unitCost else 0)
    ensures NoneNegative(layers) && 0 <= layer.qtyRemaining ==> NoneNegative(Insert(layers, layer))
    ensures |Insert(layers, layer)| == |layers| + 1
  {
    if layers == [] || Before(layer, layers[0]) {
      assert ([layer] + layers)[1..] == layers;
    } else {
      var rest := Insert(layers[1..], layer);
      InsertAddsOneLayer(layers[1..], layer, scope);
      assert ([layers[0]] + rest)[1..] == rest;
      assert NoneNegative(layers) ==> NoneNegative(layers[1..]);
    }
  }

  // ---- Conservation ----

  /** Only `qty_remaining` changes, only downwards, only in scope, and never below zero. */
  lemma {:induction false} RelieveTouchesOnlyScope(layers: seq<Layer>, scope: Scope, qty: int)
    requires NoneNegative(layers)
    ensures var after := Relieve(layers, scope, qty).layers;
            && |after| == |layers| && NoneNegative(after)
            && forall i :: 0 <= i < |layers| ==>
                 && after[i] == layers[i].(qtyRemaining := after[i].qtyRemaining)
                 && after[i].qtyRemaining <= layers[i].qtyRemaining
                 && (!InScope(layers[i], scope) ==> after[i] == layers[i])
  {
    if layers != [] {
      var here := qty > 0 && InScope(layers[0], scope) && layers[0].qtyRemaining > 0;
      var left := if here then qty - Min(qty, layers[0].qtyRemaining) else qty;
      RelieveTouchesOnlyScope(layers[1..], scope, left);
      var rest := Relieve(layers[1..], scope, left).layers;
      assert forall i :: 1 <= i < |layers| ==> layers[i] == layers[1..][i - 1];
      assert forall i :: 1 <= i < |layers| ==> Relieve(layers, scope, qty).layers[i] == rest[i - 1];
    }
  }

  /** Layers are drained in queue order: before a layer is touched, every earlier one in scope is empty. */
  lemma {:induction false} RelieveDrainsInOrder(layers: seq<Layer>, scope: Scope, qty: int, i: nat, j: nat)
    requires NoneNegative(layers) && i < j < |layers|
    requires InScope(layers[i], scope)
    requires |Relieve(layers, scope, qty).layers| == |layers|
    requires Relieve(layers, scope, qty).layers[j] != layers[j]
    ensures Relieve(layers, scope, qty).layers[i].qtyRemaining == 0
  {
    var here := qty > 0 && InScope(layers[0], scope) && layers[0].qtyRemaining > 0;
    var left := if here then qty - Min(qty, layers[0].qtyRemaining) else qty;
    var rest := Relieve(layers[1..], scope, left).layers;
    assert Relieve(layers, scope, qty).layers[1..] == rest;
    if left <= 0 {
      RelieveNothing(layers[1..], scope, left);
      assert false;
    } else if i > 0 {
      RelieveDrainsInOrder(layers[1..], scope, left, i - 1, j - 1);
    }
  }

  lemma {:induction false} RelieveNothing(layers: seq<Layer>, scope: Scope, qty: int)
    requires qty <= 0
    ensures Relieve(layers, scope, qty) == Relief(layers, [], qty)
  {
    if layers != [] {
      RelieveNothing(layers[1..], scope, qty);
    }
  }

  /** Every unit asked for is either taken from a layer in scope or reported uncovered, and the shortfall
      is exactly what the layers in scope lack. */
  lemma {:induction false} RelieveSplitsQuantity(layers: seq<Layer>, scope: Scope, qty: int)
    requires NoneNegative(layers) && 0 <= qty
    ensures var r := Relieve(layers, scope, qty);
            && TakenQty(r.takes) + r.uncovered == qty
            && r.uncovered == Max(0, qty - Quantity(layers, scope))
    ensures 0 <= Quantity(layers, scope)
  {
    if layers != [] {
      var here := qty > 0 && InScope(layers[0], scope) && layers[0].qtyRemaining > 0;
      var left := if here then qty - Min(qty, layers[0].qtyRemaining) else qty;
      RelieveSplitsQuantity(layers[1..], scope, left);
    }
  }

  /** `wide` contains every layer that `narrow` does. */
  predicate Covers(wide: Scope, narrow: Scope) {
    wide.place == narrow.place && (wide.Everything? || wide == narrow)
  }

  /** No layer is in both scopes. */
  predicate Apart(a: Scope, b: Scope) {
    a.place != b.place || (a.OneLot? && b.OneLot? && a.tag != b.tag)
  }

  lemma {:induction false} LessTake(qty: int, take: int, cost: int)
    ensures (qty - take) * cost == qty * cost - take * cost
  {
  }

  /** A scope covering the one issued from loses exactly the quantity and the cost that was taken. */
  lemma {:induction false} RelieveConserves(layers: seq<Layer>, scope: Scope, qty: int, wide: Scope)
    requires Covers(wide, scope)
    ensures var r := Relieve(layers, scope, qty);
            && Quantity(r.layers, wide) == Quantity(layers, wide) - TakenQty(r.takes)
            && Worth(r.layers, wide) == Worth(layers, wide) - TakenCost(r.takes)
  {
    if layers != [] {
      if qty > 0 && InScope(layers[0], scope) && layers[0].qtyRemaining > 0 {
        var take := Min(qty, layers[0].qtyRemaining);
        RelieveConserves(layers[1..], scope, qty - take, wide);
        LessTake(layers[0].qtyRemaining, take, layers[0].unitCost);
      } else {
        RelieveConserves(layers[1..], scope, qty, wide);
      }
    }
  }

  /** A scope apart from the one issued from loses nothing. */
  lemma {:induction false} RelieveSparesOthers(layers: seq<Layer>, scope: Scope, qty: int, other: Scope)
    requires Apart(other, scope)
    ensures var r := Relieve(layers, scope, qty);
            && Quantity(r.layers, other) == Quantity(layers, other)
            && Worth(r.layers, other) == Worth(layers, other)
  {
    if layers != [] {
      var here := qty > 0 && InScope(layers[0], scope) && layers[0].qtyRemaining > 0;
      RelieveSparesOthers(layers[1..], scope,
                          if here then qty - Min(qty, layers[0].qtyRemaining) else qty, other);
    }
  }

  // ---- Refinement of a queue of single units ----

  /** One hundredth of a unit of stock in the queue: the layer it belongs to and its unit cost. */
  datatype Unit = Unit(layer: nat, cost: int)

  /** The stock in scope laid out unit by unit, oldest layer first. */
  function Units(layers: seq<Layer>, scope: Scope): seq<Unit> {
    if layers == [] then []
    else (if InScope(layers[0], scope)
          then Copies(Unit(layers[0].id, layers[0].unitCost), layers[0].qtyRemaining) else [])
         + Units(layers[1..], scope)
  }

  function UnitsTaken(takes: seq<Take>): seq<Unit> {
    if takes == [] then []
    else (if takes[0].layer.Some? then Copies(Unit(takes[0].layer.value, takes[0].unitCost), takes[0].qty) else [])
         + UnitsTaken(takes[1..])
  }

  /** Pop `qty` units from the front of the queue one at a time; once it is empty each further unit
      costs `fallback`. */
  function PopCost(queue: seq<Unit>, qty: nat, fallback: int): int
    decreases qty
  {
    if qty == 0 then 0
    else if queue == [] then fallback + PopCost([], qty - 1, fallback)
    else queue[0].cost + PopCost(queue[1..], qty - 1, fallback)
  }

  lemma {:induction false} UnitsOfCons(first: Layer, others: seq<Layer>, scope: Scope)
    ensures Units([first] + others, scope)
         == (if InScope(first, scope) then Copies(Unit(first.id, first.unitCost), first.qtyRemaining) else [])
            + Units(others, scope)
  {
    assert ([first] + others)[1..] == others;
  }

  lemma {:induction false} UnitsTakenOfCons(first: Take, others: seq<Take>)
    requires first.layer.Some?
    ensures UnitsTaken([first] + others)
         == Copies(Unit(first.layer.value, first.unitCost), first.qty) + UnitsTaken(others)
  {
    assert ([first] + others)[1..] == others;
  }

  /** The layer walk takes exactly the front units of the queue and leaves exactly the rest. */
  lemma {:induction false} RelievePopsFromFront(layers: seq<Layer>, scope: Scope, qty: nat)
    requires NoneNegative(layers)
    ensures var queue := Units(layers, scope);
            var r := Relieve(layers, scope, qty);
            var popped := Min(qty, |queue|);
            && UnitsTaken(r.takes) == queue[..popped]
            && Units(r.layers, scope) == queue[popped..]
            && r.uncovered == qty - popped
    decreases |layers|, 1
  {
    if qty == 0 {
      RelieveNothing(layers, scope, qty);
    } else if layers != [] {
      var first, others := layers[0], layers[1..];
      if InScope(first, scope) && first.qtyRemaining > 0 {
        assert layers == [first] + others;
        FirstLayerPops(first, others, scope, qty);
      } else {
        RelievePopsFromFront(others, scope, qty);
        assert Units(layers, scope) == Units(others, scope);
        var rest := Relieve(others, scope, qty);
        assert Relieve(layers, scope, qty).layers == [first] + rest.layers;
        assert ([first] + rest.layers)[1..] == rest.layers;
      }
    }
  }

  lemma {:induction false} FirstLayerPops(first: Layer, others: seq<Layer>, scope: Scope, qty: nat)
    requires NoneNegative(others) && 0 < qty
    requires InScope(first, scope) && first.qtyRemaining > 0
    ensures var queue := Units([first] + others, scope);
            var r := Relieve([first] + others, scope, qty);
            var popped := Min(qty, |queue|);
            && UnitsTaken(r.takes) == queue[..popped]
            && Units(r.layers, scope) == queue[popped..]
            && r.uncovered == qty - popped
    decreases |others| + 1, 0
  {
    var take := Min(qty, first.qtyRemaining);
    var tail := Relieve(others, scope, qty - take);
    RelieveOfCons(first, others, scope, qty);
    RelievePopsFromFront(others, scope, qty - take);
    FirstLayerQueues(first, others, scope, tail, take);
    PopCopies(Unit(first.id, first.unitCost), first.qtyRemaining, Units(others, scope), qty);
    assert Min(qty, |Units([first] + others, scope)|) - take == Min(qty - take, |Units(others, scope)|);
  }

  lemma {:induction false} RelieveOfCons(first: Layer, others: seq<Layer>, scope: Scope, qty: nat)
    requires 0 < qty && InScope(first, scope) && first.qtyRemaining > 0
    ensures var take := Min(qty, first.qtyRemaining);
            var tail := Relieve(others, scope, qty - take);
            Relieve([first] + others, scope, qty)
            == Relief([first.(qtyRemaining := first.qtyRemaining - take)] + tail.layers,
                      [Take(Some(first.id), take, first.unitCost)] + tail.takes, tail.uncovered)
  {
    assert ([first] + others)[1..] == others;
  }

  /** The queue before and after, and the units taken, when the first layer gives up `take` units. */
  lemma {:induction false} FirstLayerQueues(first: Layer, others: seq<Layer>, scope: Scope, tail: Relief, take: nat)
    requires InScope(first, scope) && take <= first.qtyRemaining
    ensures var unit := Unit(first.id, first.unitCost);
            && Units([first] + others, scope) == Copies(unit, first.qtyRemaining) + Units(others, scope)
            && Units([first.(qtyRemaining := first.qtyRemaining - take)] + tail.layers, scope)
               == Copies(unit, first.qtyRemaining - take) + Units(tail.layers, scope)
            && UnitsTaken([Take(Some(first.id), take, first.unitCost)] + tail.takes)
               == Copies(unit, take) + UnitsTaken(tail.takes)
  {
    UnitsOfCons(first, others, scope);
    UnitsOfCons(first.(qtyRemaining := first.qtyRemaining - take), tail.layers, scope);
    UnitsTakenOfCons(Take(Some(first.id), take, first.unitCost), tail.takes);
  }

  function UnitCosts(units: seq<Unit>): int {
    if units == [] then 0 else units[0].cost + UnitCosts(units[1..])
  }

  lemma {:induction false} PopCostIsFrontPlusFallback(queue: seq<Unit>, qty: nat, fallback: int)
    ensures var popped := Min(qty, |queue|);
            PopCost(queue, qty, fallback) == UnitCosts(queue[..popped]) + (qty - popped) * fallback
    decreases qty
  {
    if qty > 0 {
      if queue == [] {
        PopCostIsFrontPlusFallback([], qty - 1, fallback);
        assert qty * fallback == fallback + (qty - 1) * fallback;
      } else {
        PopCostIsFrontPlusFallback(queue[1..], qty - 1, fallback);
        var popped := Min(qty, |queue|);
        assert queue[..popped][1..] == queue[1..][..popped - 1];
      }
    }
  }

  lemma {:induction false} CopiesCost(unit: Unit, n: nat, rest: seq<Unit>)
    ensures UnitCosts(Copies(unit, n) + rest) == n * unit.cost + UnitCosts(rest)
  {
    if n == 0 {
      assert Copies(unit, 0) + rest == rest;
    } else {
      assert (Copies(unit, n) + rest)[1..] == Copies(unit, n - 1) + rest;
      CopiesCost(unit, n - 1, rest);
      assert n * unit.cost == unit.cost + (n - 1) * unit.cost;
    }
  }

  lemma {:induction false} RelieveTakesAreReal(layers: seq<Layer>, scope: Scope, qty: int)
    ensures var takes := Relieve(layers, scope, qty).takes;
            TakenCost(takes) == UnitCosts(UnitsTaken(takes))
    ensures forall take :: take in Relieve(layers, scope, qty).takes ==> take.layer.Some? && take.qty > 0
  {
    if layers != [] {
      if qty > 0 && InScope(layers[0], scope) && layers[0].qtyRemaining > 0 {
        var take := Min(qty, layers[0].qtyRemaining);
        var rest := Relieve(layers[1..], scope, qty - take);
        RelieveTakesAreReal(layers[1..], scope, qty - take);
        CopiesCost(Unit(layers[0].id, layers[0].unitCost), take, UnitsTaken(rest.takes));
        assert Relieve(layers, scope, qty).takes[1..] == rest.takes;
      } else {
        RelieveTakesAreReal(layers[1..], scope, qty);
      }
    }
  }

  /** Every take names a layer that was there. */
  lemma {:induction false} RelieveTakesFromLayers(layers: seq<Layer>, scope: Scope, qty: int)
    ensures forall take :: take in Relieve(layers, scope, qty).takes ==>
      take.layer.Some? && exists l :: l in layers && l.id == take.layer.value
  {
    if layers != [] {
      var here := qty > 0 && InScope(layers[0], scope) && layers[0].qtyRemaining > 0;
      RelieveTakesFromLayers(layers[1..], scope, if here then qty - Min(qty, layers[0].qtyRemaining) else qty);
      assert layers[0] in layers && forall l :: l in layers[1..] ==> l in layers;
    }
  }

  /** The cost of the walk, shortfall included, is the cost of popping the units one at a time. */
  lemma {:induction false} RelieveCostsThePoppedUnits(layers: seq<Layer>, scope: Scope, qty: nat, fallback: int)
    requires NoneNegative(layers)
    ensures TakenCost(AllTakes(Relieve(layers, scope, qty), fallback))
         == PopCost(Units(layers, scope), qty, fallback)
  {
    var r, queue := Relieve(layers, scope, qty), Units(layers, scope);
    var popped := Min(qty, |queue|);
    RelieveTakesAreReal(layers, scope, qty);
    RelievePopsFromFront(layers, scope, qty);
    assert TakenCost(r.takes) == UnitCosts(queue[..popped]);
    AllTakesCost(r, fallback);
    PopCostIsFrontPlusFallback(queue, qty, fallback);
  }

  lemma {:induction false} AllTakesCost(r: Relief, fallback: int)
    ensures TakenQty(AllTakes(r, fallback)) == TakenQty(r.takes) + Max(0, r.uncovered)
    ensures TakenCost(AllTakes(r, fallback)) == TakenCost(r.takes) + Max(0, r.uncovered) * fallback
  {
    TakenOfConcat(r.takes, if r.uncovered > 0 then [Take(None, r.uncovered, fallback)] else []);
  }
}
