/** FIFO lots over arbitrary runs, tagged and untagged movements mixed: what a lot's layers hold is what the lot
    has on hand plus its shortfall, less what issues that named no lot drew from those layers. */
module LotTrail {
  import opened Rounding
  import opened Records
  import opened Tables
  import opened Fifo
  import opened Ledger
  import opened Runs
  import opened FifoCosting

  /** Layer `id` was received under the lot. */
  predicate InLot(layers: seq<Layer>, id: nat, key: LotKey) {
    exists l :: l in layers && l.id == id && InScope(l, OneLot(key.place, key.tag))
  }

  /** What the takes took from the lot's layers. */
  function TakenFromLot(takes: seq<Take>, layers: seq<Layer>, key: LotKey): int {
    if takes == [] then 0
    else (if takes[0].layer.Some? && InLot(layers, takes[0].layer.value, key) then takes[0].qty else 0)
         + TakenFromLot(takes[1..], layers, key)
  }

  predicate DrawsFromLot(row: IssueCost, layers: seq<Layer>, key: LotKey) {
    !IsTagged(row.tag) && row.take.layer.Some? && InLot(layers, row.take.layer.value, key)
  }

  /** What issues that named no lot drew from the lot's layers, as the trail tells. */
  function Drawn(rows: seq<IssueCost>, layers: seq<Layer>, key: LotKey): int {
    if rows == [] then 0
    else (if DrawsFromLot(rows[0], layers, key) then rows[0].take.qty else 0) + Drawn(rows[1..], layers, key)
  }

  function LotShortfall(inv: Inventory, key: LotKey): int {
    ShortQty(inv.issueCosts, inv.movements, OneLot(key.place, key.tag))
  }

  function LotDrawn(inv: Inventory, key: LotKey): int {
    Drawn(inv.issueCosts, inv.layers, key)
  }

  function LotLayers(inv: Inventory, key: LotKey): int {
    Quantity(inv.layers, OneLot(key.place, key.tag))
  }

  predicate FifoLot(t: Tenant, key: LotKey) {
    IsFifo(t, key.place) && IsTagged(key.tag)
  }

  /** Rows of the trail are of positive quantities and name layers that exist. */
  ghost predicate RowsReal(inv: Inventory) {
    forall row :: row in inv.issueCosts ==>
      0 < row.take.qty && (row.take.layer.Some? ==> row.take.layer.value < |inv.layers|)
  }

  ghost predicate LotsTraced(t: Tenant, inv: Inventory) {
    forall key: LotKey :: FifoLot(t, key) ==>
      LotLayers(inv, key) == OnHand(inv.lots, key) + LotShortfall(inv, key) - LotDrawn(inv, key)
  }

  ghost predicate TrailSound(t: Tenant, inv: Inventory) {
    FifoSound(t, inv) && RowsReal(inv) && LotsTraced(t, inv)
  }

  // ---- One issue that names no lot ----

  /** Every lot's layers lose exactly what was taken from them. */
  lemma {:induction false} RelieveDrawsFromLots(layers: seq<Layer>, place: Place, qty: int, all: seq<Layer>,
      key: LotKey)
    requires forall i :: 0 <= i < |layers| ==>
      (InLot(all, layers[i].id, key) <==> InScope(layers[i], OneLot(key.place, key.tag)))
    ensures var r := Relieve(layers, Everything(place), qty);
            Quantity(r.layers, OneLot(key.place, key.tag))
            == Quantity(layers, OneLot(key.place, key.tag)) - TakenFromLot(r.takes, all, key)
  {
    if layers != [] {
      var here := qty > 0 && InScope(layers[0], Everything(place)) && layers[0].qtyRemaining > 0;
      RelieveDrawsFromLots(layers[1..], place, if here then qty - Min(qty, layers[0].qtyRemaining) else qty, all, key);
    }
  }

  lemma {:induction false} ShortfallIsOfNoLot(takes: seq<Take>, uncovered: int, fallback: int, layers: seq<Layer>,
      key: LotKey)
    ensures var tail := if uncovered > 0 then [Take(None, uncovered, fallback)] else [];
            TakenFromLot(takes + tail, layers, key) == TakenFromLot(takes, layers, key)
  {
    var tail := if uncovered > 0 then [Take(None, uncovered, fallback)] else [];
    if takes == [] {
      assert takes + tail == tail;
    } else {
      assert (takes + tail)[1..] == takes[1..] + tail;
      ShortfallIsOfNoLot(takes[1..], uncovered, fallback, layers, key);
    }
  }

  lemma {:induction false} UntaggedIssueDrawsFromLots(t: Tenant, inv: Inventory, m: Request, key: LotKey)
    requires IsFifo(t, m.place) && m.qty <= 0 && !IsTagged(m.tag) && LayersSound(inv.layers)
    ensures var c := CostingOf(t, inv, m);
            Quantity(c.layers, OneLot(key.place, key.tag))
            == LotLayers(inv, key) - TakenFromLot(c.takes, inv.layers, key)
  {
    FifoIssueIsItsRelief(t, inv, m);
    var r := IssueRelief(inv, m);
    forall i | 0 <= i < |inv.layers|
      ensures InLot(inv.layers, inv.layers[i].id, key) <==> InScope(inv.layers[i], OneLot(key.place, key.tag))
    {
    }
    RelieveDrawsFromLots(inv.layers, m.place, -m.qty, inv.layers, key);
    ShortfallIsOfNoLot(r.takes, r.uncovered, Average(inv, m.place.product), inv.layers, key);
  }

  // ---- What one movement adds to the trail ----

  lemma {:induction false} RelievedLayersKeepTheirLot(layers: seq<Layer>, scope: Scope, qty: int, id: nat, key: LotKey)
    requires NoneNegative(layers)
    ensures InLot(Relieve(layers, scope, qty).layers, id, key) <==> InLot(layers, id, key)
  {
    var after := Relieve(layers, scope, qty).layers;
    RelieveTouchesOnlyScope(layers, scope, qty);
    if InLot(layers, id, key) {
      var i :| 0 <= i < |layers| && layers[i].id == id && InScope(layers[i], OneLot(key.place, key.tag));
      assert after[i] in after;
    }
    if InLot(after, id, key) {
      var i :| 0 <= i < |after| && after[i].id == id && InScope(after[i], OneLot(key.place, key.tag));
      assert layers[i] in layers;
    }
  }

  /** A movement leaves every layer in the lot it was received under. */
  lemma {:induction false} LayersKeepTheirLot(t: Tenant, inv: Inventory, m: Request, id: nat, key: LotKey)
    requires m.place.product in t.products && LayersSound(inv.layers) && id < |inv.layers|
    ensures InLot(CostingOf(t, inv, m).layers, id, key) <==> InLot(inv.layers, id, key)
  {
    var c := CostingOf(t, inv, m);
    if IsFifo(t, m.place) {
      if m.qty > 0 {
        assert forall i :: 0 <= i < |inv.layers| ==> inv.layers[i] in inv.layers;
        InsertKeepsIdsDistinct(inv.layers, NewLayer(inv.layers, m, c.unitCost));
      } else {
        RelievedLayersKeepTheirLot(inv.layers, ScopeOf(m.place, m.tag), -m.qty, id, key);
      }
    }
  }

  lemma {:induction false} OldRowsDrawAlike(rows: seq<IssueCost>, a: seq<Layer>, b: seq<Layer>, key: LotKey)
    requires forall row :: row in rows && row.take.layer.Some? ==>
      (InLot(a, row.take.layer.value, key) <==> InLot(b, row.take.layer.value, key))
    ensures Drawn(rows, a, key) == Drawn(rows, b, key)
  {
    if rows != [] {
      assert rows[0] in rows;
      OldRowsDrawAlike(rows[1..], a, b, key);
    }
  }

  lemma {:induction false} TakesDrawAlike(takes: seq<Take>, a: seq<Layer>, b: seq<Layer>, key: LotKey)
    requires forall take :: take in takes && take.layer.Some? ==>
      (InLot(a, take.layer.value, key) <==> InLot(b, take.layer.value, key))
    ensures TakenFromLot(takes, a, key) == TakenFromLot(takes, b, key)
  {
    if takes != [] {
      assert takes[0] in takes;
      TakesDrawAlike(takes[1..], a, b, key);
    }
  }

  lemma {:induction false} DrawnOfNewRows(rows: seq<IssueCost>, movement: nat, tag: Tag, takes: seq<Take>,
      layers: seq<Layer>, key: LotKey)
    ensures Drawn(rows + IssueRows(movement, tag, takes), layers, key)
         == Drawn(rows, layers, key) + (if IsTagged(tag) then 0 else TakenFromLot(takes, layers, key))
  {
    var added := IssueRows(movement, tag, takes);
    if rows != [] {
      assert (rows + added)[1..] == rows[1..] + added;
      DrawnOfNewRows(rows[1..], movement, tag, takes, layers, key);
    } else if takes != [] {
      assert rows + added == added && added[1..] == [] + IssueRows(movement, tag, takes[1..]);
      DrawnOfNewRows([], movement, tag, takes[1..], layers, key);
    }
  }

  /** The takes of a costing are of positive quantities, from layers that exist. */
  lemma {:induction false} TakesReal(t: Tenant, inv: Inventory, m: Request)
    requires m.place.product in t.products && LayersSound(inv.layers)
    ensures forall take :: take in CostingOf(t, inv, m).takes ==>
      0 < take.qty && (take.layer.Some? ==> take.layer.value < |inv.layers|)
    ensures |inv.layers| <= |CostingOf(t, inv, m).layers|
  {
    if IsFifo(t, m.place) {
      if m.qty > 0 {
        InsertAddsOneLayer(inv.layers, NewLayer(inv.layers, m, CostingOf(t, inv, m).unitCost), Everything(m.place));
      } else {
        FifoIssueIsItsRelief(t, inv, m);
        RelieveTakesAreReal(inv.layers, ScopeOf(m.place, m.tag), -m.qty);
        RelieveTakesFromLayers(inv.layers, ScopeOf(m.place, m.tag), -m.qty);
        RelieveTouchesOnlyScope(inv.layers, ScopeOf(m.place, m.tag), -m.qty);
      }
    }
  }

  lemma {:induction false} RowsOfTakes(movement: nat, tag: Tag, takes: seq<Take>)
    ensures forall row :: row in IssueRows(movement, tag, takes) ==> row.take in takes && row.tag == tag
  {
    if takes != [] {
      RowsOfTakes(movement, tag, takes[1..]);
      assert takes[0] in takes && forall take :: take in takes[1..] ==> take in takes;
    }
  }

  lemma {:induction false} BookKeepsRowsReal(t: Tenant, inv: Inventory, m: Request)
    requires m.place.product in t.products && LayersSound(inv.layers) && RowsReal(inv)
    ensures RowsReal(Book(inv, m, CostingOf(t, inv, m)))
  {
    TakesReal(t, inv, m);
    RowsOfTakes(|inv.movements|, m.tag, CostingOf(t, inv, m).takes);
  }

  /** A movement adds to what is drawn from a lot what it took from the lot's layers, if it named no lot. */
  lemma {:induction false} BookDraws(t: Tenant, inv: Inventory, m: Request, key: LotKey)
    requires m.place.product in t.products && LayersSound(inv.layers) && RowsReal(inv)
    ensures var c := CostingOf(t, inv, m);
            LotDrawn(Book(inv, m, c), key)
            == LotDrawn(inv, key) + (if IsTagged(m.tag) then 0 else TakenFromLot(c.takes, inv.layers, key))
  {
    var c := CostingOf(t, inv, m);
    TakesReal(t, inv, m);
    forall id: nat | id < |inv.layers| ensures InLot(c.layers, id, key) <==> InLot(inv.layers, id, key) {
      LayersKeepTheirLot(t, inv, m, id, key);
    }
    OldRowsDrawAlike(inv.issueCosts, inv.layers, c.layers, key);
    TakesDrawAlike(c.takes, inv.layers, c.layers, key);
    DrawnOfNewRows(inv.issueCosts, |inv.movements|, m.tag, c.takes, c.layers, key);
  }

  /** What one movement does to a lot's layers. */
  lemma {:induction false} MovementAndLotLayers(t: Tenant, inv: Inventory, m: Request, key: LotKey)
    requires m.place.product in t.products && LayersSound(inv.layers) && FifoLot(t, key)
    ensures var c := CostingOf(t, inv, m);
            Quantity(c.layers, OneLot(key.place, key.tag))
            == LotLayers(inv, key)
               + (if LotKey(m.place, m.tag) == key then m.qty + UncoveredQty(c.takes) else 0)
               - (if IsTagged(m.tag) then 0 else TakenFromLot(c.takes, inv.layers, key))
  {
    if IsFifo(t, m.place) {
      if m.qty > 0 {
        ReceiptAddsLayer(t, inv, m, OneLot(key.place, key.tag));
      } else if IsTagged(m.tag) {
        IssueRelievesScope(t, inv, m, OneLot(key.place, key.tag));
      } else {
        UntaggedIssueDrawsFromLots(t, inv, m, key);
      }
    }
  }

  lemma {:induction false} BookKeepsLotsTraced(t: Tenant, inv: Inventory, m: Request)
    requires m.place.product in t.products && TrailSound(t, inv)
    ensures LotsTraced(t, Book(inv, m, CostingOf(t, inv, m)))
  {
    var c := CostingOf(t, inv, m);
    var after := Book(inv, m, c);
    forall key: LotKey | FifoLot(t, key)
      ensures LotLayers(after, key) == OnHand(after.lots, key) + LotShortfall(after, key) - LotDrawn(after, key)
    {
      BookShortfall(inv, m, c, OneLot(key.place, key.tag));
      BookDraws(t, inv, m, key);
      MovementAndLotLayers(t, inv, m, key);
      PostChangesOneKey(inv.lots, LotKey(m.place, m.tag), m.qty, 0, key);
    }
  }

  // ---- Whole runs ----

  lemma {:induction false} StepKeepsTrailSound(t: Tenant, inv: Inventory, op: Op)
    requires TrailSound(t, inv)
    ensures TrailSound(t, Step(t, inv, op))
  {
    StepKeepsFifoSound(t, inv, op);
    OnlyMovementsMoveStock(t, inv, op);
    if Accepted(t, inv, op) {
      BookKeepsRowsReal(t, inv, op.m);
      BookKeepsLotsTraced(t, inv, op.m);
    }
  }

  /** In every reachable state, lot by lot: layers == on hand + shortfall - what untagged issues drew. */
  lemma {:induction false} LotLayersAreTraced(t: Tenant, ops: seq<Op>)
    ensures TrailSound(t, Run(t, Empty, ops))
  {
    if ops != [] {
      LotLayersAreTraced(t, ops[..|ops| - 1]);
      StepKeepsTrailSound(t, Run(t, Empty, ops[..|ops| - 1]), ops[|ops| - 1]);
    }
  }

  lemma {:induction false} TakenFromLotIsNat(takes: seq<Take>, layers: seq<Layer>, key: LotKey)
    requires forall take :: take in takes ==> 0 < take.qty
    ensures 0 <= TakenFromLot(takes, layers, key)
  {
    if takes != [] {
      assert takes[0] in takes;
      TakenFromLotIsNat(takes[1..], layers, key);
    }
  }

  /** An issue falls short by what it takes beyond the stock of the lot (or, naming none, of the location), less
      what issues without a lot drew from the lot's layers and shortfall has not made up. */
  lemma {:induction false} ShortfallFromTrail(t: Tenant, inv: Inventory, m: Request)
    requires TrailSound(t, inv) && IsFifo(t, m.place) && m.qty <= 0
    ensures var key, everything := LotKey(m.place, m.tag), Everything(m.place);
            UncoveredQty(CostingOf(t, inv, m).takes)
            == if IsTagged(m.tag)
               then Max(0, -m.qty - (OnHand(inv.lots, key) + LotShortfall(inv, key) - LotDrawn(inv, key)))
               else Max(0, -m.qty - (OnHand(inv.balances, m.place)
                                     + ShortQty(inv.issueCosts, inv.movements, everything)))
  {
    FifoIssueCosting(t, inv, m);
    assert IsTagged(m.tag) ==> FifoLot(t, LotKey(m.place, m.tag));
  }

  /** In strict mode a lot's shortfall never exceeds what issues without a lot drew from its layers. */
  ghost predicate ShortfallWithinDraws(t: Tenant, inv: Inventory) {
    forall key: LotKey :: FifoLot(t, key) ==> LotShortfall(inv, key) <= LotDrawn(inv, key)
  }

  lemma {:induction false} StrictBookKeepsWithinDraws(t: Tenant, inv: Inventory, m: Request)
    requires t.blockNegative && TrailSound(t, inv) && ShortfallWithinDraws(t, inv)
    requires MovementProblem(t, inv, m).None?
    ensures m.place.product in t.products && ShortfallWithinDraws(t, Book(inv, m, CostingOf(t, inv, m)))
  {
    var c := CostingOf(t, inv, m);
    var after := Book(inv, m, c);
    TakesReal(t, inv, m);
    UncoveredIsNat(t, inv, m);
    forall key: LotKey | FifoLot(t, key) ensures LotShortfall(after, key) <= LotDrawn(after, key) {
      BookShortfall(inv, m, c, OneLot(key.place, key.tag));
      BookDraws(t, inv, m, key);
      TakenFromLotIsNat(c.takes, inv.layers, key);
      if LotKey(m.place, m.tag) == key && m.qty <= 0 {
        ShortfallFromTrail(t, inv, m);
      }
    }
  }

  lemma {:induction false} StrictShortfallWithinDraws(t: Tenant, ops: seq<Op>)
    requires t.blockNegative
    ensures ShortfallWithinDraws(t, Run(t, Empty, ops))
  {
    if ops != [] {
      var before, op := Run(t, Empty, ops[..|ops| - 1]), ops[|ops| - 1];
      StrictShortfallWithinDraws(t, ops[..|ops| - 1]);
      LotLayersAreTraced(t, ops[..|ops| - 1]);
      OnlyMovementsMoveStock(t, before, op);
      if Accepted(t, before, op) {
        StrictBookKeepsWithinDraws(t, before, op.m);
      }
    }
  }

  // ---- When a run never falls short ----

  ghost predicate NoShortfall(t: Tenant, inv: Inventory) {
    forall place :: IsFifo(t, place) ==> ShortQty(inv.issueCosts, inv.movements, Everything(place)) == 0
  }

  /** An issue is covered when its lot's stock, less what issues without a lot drew from the lot's layers, is
      enough for it; naming no lot, when the location's stock is. */
  predicate Covered(t: Tenant, inv: Inventory, m: Request) {
    IsFifo(t, m.place) && m.qty < 0 ==>
      if IsTagged(m.tag) then -m.qty <= OnHand(inv.lots, LotKey(m.place, m.tag)) - LotDrawn(inv, LotKey(m.place, m.tag))
      else -m.qty <= OnHand(inv.balances, m.place)
  }

  /** Every movement the run accepted was covered when it came. */
  predicate AllCovered(t: Tenant, inv: Inventory, ops: seq<Op>) {
    ops == [] ||
    (var before, op := Run(t, inv, ops[..|ops| - 1]), ops[|ops| - 1];
     AllCovered(t, inv, ops[..|ops| - 1]) && (Accepted(t, before, op) ==> Covered(t, before, op.m)))
  }

  lemma {:induction false} LotShortfallWithinLocation(rows: seq<IssueCost>, ms: seq<Movement>, key: LotKey)
    requires forall row :: row in rows ==> 0 < row.take.qty
    ensures 0 <= ShortQty(rows, ms, OneLot(key.place, key.tag)) <= ShortQty(rows, ms, Everything(key.place))
  {
    if rows != [] {
      assert rows[0] in rows;
      LotShortfallWithinLocation(rows[1..], ms, key);
    }
  }

  lemma {:induction false} UncoveredIsNat(t: Tenant, inv: Inventory, m: Request)
    requires m.place.product in t.products && NoneNegative(inv.layers)
    ensures 0 <= UncoveredQty(CostingOf(t, inv, m).takes)
    ensures UncoveredQty(CostingOf(t, inv, m).takes) > 0 ==> IsFifo(t, m.place) && m.qty < 0
  {
    if IsFifo(t, m.place) && m.qty <= 0 {
      FifoIssueCosting(t, inv, m);
      RelieveSplitsQuantity(inv.layers, ScopeOf(m.place, m.tag), -m.qty);
    }
  }

  lemma {:induction false} CoveredIff(t: Tenant, inv: Inventory, m: Request)
    requires TrailSound(t, inv) && NoShortfall(t, inv) && m.place.product in t.products
    ensures Covered(t, inv, m) <==> UncoveredQty(CostingOf(t, inv, m).takes) == 0
  {
    UncoveredIsNat(t, inv, m);
    if IsFifo(t, m.place) && m.qty < 0 {
      ShortfallFromTrail(t, inv, m);
      LotShortfallWithinLocation(inv.issueCosts, inv.movements, LotKey(m.place, m.tag));
    }
  }

  lemma {:induction false} BookNoShortfallIff(t: Tenant, inv: Inventory, m: Request)
    requires TrailSound(t, inv) && m.place.product in t.products
    ensures NoShortfall(t, Book(inv, m, CostingOf(t, inv, m)))
            <==> NoShortfall(t, inv) && UncoveredQty(CostingOf(t, inv, m).takes) == 0
  {
    var c := CostingOf(t, inv, m);
    var after := Book(inv, m, c);
    UncoveredIsNat(t, inv, m);
    forall place | IsFifo(t, place)
      ensures 0 <= ShortQty(inv.issueCosts, inv.movements, Everything(place))
      ensures ShortQty(after.issueCosts, after.movements, Everything(place))
           == ShortQty(inv.issueCosts, inv.movements, Everything(place))
              + (if m.place == place then UncoveredQty(c.takes) else 0)
    {
      BookShortfall(inv, m, c, Everything(place));
      LotShortfallWithinLocation(inv.issueCosts, inv.movements, LotKey(place, Untagged));
    }
  }

  /** A run records no shortfall exactly when every issue it accepted was covered: a condition on the tables as
      each call finds them. */
  lemma {:induction false} NeverShortIff(t: Tenant, ops: seq<Op>)
    ensures NoShortfall(t, Run(t, Empty, ops)) <==> AllCovered(t, Empty, ops)
  {
    if ops != [] {
      var before, op := Run(t, Empty, ops[..|ops| - 1]), ops[|ops| - 1];
      NeverShortIff(t, ops[..|ops| - 1]);
      LotLayersAreTraced(t, ops[..|ops| - 1]);
      OnlyMovementsMoveStock(t, before, op);
      if Accepted(t, before, op) {
        BookNoShortfallIff(t, before, op.m);
        if NoShortfall(t, before) {
          CoveredIff(t, before, op.m);
        }
      }
    }
  }

  /** In strict mode an issue that names no lot is always covered. */
  lemma {:induction false} StrictUntaggedIsCovered(t: Tenant, inv: Inventory, m: Request)
    requires t.blockNegative && MovementProblem(t, inv, m).None? && !IsTagged(m.tag)
    ensures Covered(t, inv, m)
  {
  }
}
