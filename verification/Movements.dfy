/** What one movement does, told from the tables before and after it: when it is accepted, what row it adds to the
    ledger, what it comes in or goes out at, and what it does to layers, average and trail. */
module Movements {
  import opened Rounding
  import opened Records
  import opened Tables
  import opened Fifo
  import opened Ledger
  import opened FifoCosting
  import opened Plans

  // ---- When it is accepted ----

  /** A tracked product's movement names a serial: one coming in is not there, under any lot, and one going out is
      in the very row it is taken from. */
  predicate SerialFree(lots: seq<Row<LotKey>>, m: Request) {
    && Given(m.tag.serial)
    && (m.qty > 0 ==> SumOnHand(lots, SerialAt, SerialKey(m.place, m.tag.serial)) + m.qty <= 100)
    && (m.qty < 0 ==> OnHand(lots, LotKey(m.place, m.tag)) + m.qty >= 0)
  }

  /** Every balance the movement names has what it takes. */
  predicate InStock(inv: Inventory, m: Request) {
    && OnHand(inv.balances, m.place) + m.qty >= 0
    && (IsTagged(m.tag) ==> OnHand(inv.lots, LotKey(m.place, m.tag)) + m.qty >= 0)
    && (m.bin.Some? ==> OnHand(inv.bins, BinKey(m.place, m.bin.value)) + m.qty >= 0)
  }

  /** A movement is accepted exactly when its product exists, its serial, if tracked, allows it, and, in strict mode
      alone, what it takes out is there. */
  lemma {:induction false} AcceptedIff(t: Tenant, inv: Inventory, m: Request)
    ensures Apply(t, inv, m).Ok? <==>
      && m.place.product in t.products
      && (t.products[m.place.product].trackSerial && m.qty != 0 ==> SerialFree(inv.lots, m))
      && (t.blockNegative && m.qty < 0 ==> InStock(inv, m))
    ensures Apply(t, inv, m).Err? && !t.blockNegative ==>
      Apply(t, inv, m).error in {NoSuchProduct, SerialRequired, SerialInStock, SerialNotAvailable}
  {
  }

  /** The reason given is the first that applies: the product, the serial, then the location, the lot and the bin. */
  lemma {:induction false} RefusedFor(t: Tenant, inv: Inventory, m: Request)
    requires Apply(t, inv, m).Err?
    ensures match Apply(t, inv, m).error
            case NoSuchProduct => m.place.product !in t.products
            case SerialRequired => !Given(m.tag.serial)
            case SerialInStock =>
              m.qty > 0 && SumOnHand(inv.lots, SerialAt, SerialKey(m.place, m.tag.serial)) + m.qty > 100
            case SerialNotAvailable => m.qty < 0 && OnHand(inv.lots, LotKey(m.place, m.tag)) + m.qty < 0
            case StockShort => t.blockNegative && OnHand(inv.balances, m.place) + m.qty < 0
            case LotShort =>
              && t.blockNegative && IsTagged(m.tag) && OnHand(inv.lots, LotKey(m.place, m.tag)) + m.qty < 0
              && OnHand(inv.balances, m.place) + m.qty >= 0
            case BinShort =>
              && t.blockNegative && m.bin.Some? && OnHand(inv.bins, BinKey(m.place, m.bin.value)) + m.qty < 0
              && OnHand(inv.balances, m.place) + m.qty >= 0
            case NotAvailableToPromise => false
  {
  }

  // ---- The row it adds, and what it leaves alone ----

  /** One ledger row, at this unit cost, its value the quantity times it to the nearest cent. */
  ghost predicate AddsRow(inv: Inventory, after: Inventory, m: Request, unitCost: int, value: int) {
    after.movements == inv.movements
      + [Movement(m.kind, m.place, m.bin, m.tag, m.qty, Some(unitCost), value, m.ref, m.at)]
  }

  /** Balances move by the quantity; reservations and other products' averages stay. */
  ghost predicate MovesOnlyIts(inv: Inventory, after: Inventory, m: Request) {
    && (forall p :: StockMoved(inv, after, m, p))
    && after.reservations == inv.reservations
    && (forall p :: p != m.place.product ==> Average(after, p) == Average(inv, p))
  }

  lemma {:induction false} MovementMovesOnlyIts(t: Tenant, inv: Inventory, m: Request)
    requires Apply(t, inv, m).Ok?
    ensures MovesOnlyIts(inv, Apply(t, inv, m).value, m)
  {
    forall p ensures StockMoved(inv, Apply(t, inv, m).value, m, p) {
      MovementMovesStock(inv, m, p);
    }
  }

  lemma {:induction false} InsertAddsTheLayer(layers: seq<Layer>, layer: Layer)
    ensures multiset(Insert(layers, layer)) == multiset(layers) + multiset{layer}
  {
    if layers == [] || Before(layer, layers[0]) {
    } else {
      InsertAddsTheLayer(layers[1..], layer);
      assert layers == [layers[0]] + layers[1..];
    }
  }

  lemma {:induction false} CentsAreNearest(millionths: int)
    ensures IsNearest(millionths, 10000, Cents(millionths))
  {
    CentsAreRoundedHalfUp(millionths);
    RoundsToNearest(millionths, 10000);
  }

  // ---- Receipts ----

  /** What a receipt of a product not kept at standard cost comes in at: the cost it states, else the average. */
  function ComesInAt(inv: Inventory, m: Request): int {
    match m.unitCost
    case Some(stated) => stated
    case None => Average(inv, m.place.product)
  }

  /** The average a receipt leaves: where it states its cost and stock ends above zero, the mean of old stock at the
      old average and the receipt at its cost, to the nearest step; else the old one. */
  ghost predicate LeavesAverage(inv: Inventory, after: Inventory, m: Request) {
    var p := m.place.product;
    var stock := TotalOnHand(inv, p) + m.qty;
    if m.unitCost.Some? && stock > 0 then
      IsNearest(TotalOnHand(inv, p) * Average(inv, p) + m.qty * m.unitCost.value, stock, Average(after, p))
    else Average(after, p) == Average(inv, p)
  }

  /** The layer a receipt at this cost lays in. */
  function ItsLayer(inv: Inventory, m: Request, cost: int): Layer {
    Layer(|inv.layers|, m.place, m.tag, m.at, m.qty, m.qty, cost, m.ref)
  }

  /** A receipt of a FIFO or AVERAGE product: its row and, for FIFO, its one layer are at the stated cost, or at the
      average where none is stated. */
  lemma {:induction false} ReceiptComesInAt(t: Tenant, inv: Inventory, m: Request)
    requires Apply(t, inv, m).Ok? && m.qty > 0
    requires m.place.product in t.products && t.products[m.place.product].costMethod != STANDARD
    ensures var after, cost := Apply(t, inv, m).value, ComesInAt(inv, m);
            && |after.movements| == |inv.movements| + 1
            && AddsRow(inv, after, m, cost, after.movements[|inv.movements|].value)
            && IsNearest(m.qty * cost, 10000, after.movements[|inv.movements|].value)
            && (if t.products[m.place.product].costMethod == FIFO
                then multiset(after.layers) == multiset(inv.layers) + multiset{ItsLayer(inv, m, cost)}
                else after.layers == inv.layers)
            && LeavesAverage(inv, after, m)
            && MovesOnlyIts(inv, after, m) && after.issueCosts == inv.issueCosts
  {
    var cost, p := ComesInAt(inv, m), m.place.product;
    CentsAreNearest(m.qty * cost);
    InsertAddsTheLayer(inv.layers, ItsLayer(inv, m, cost));
    MovementMovesOnlyIts(t, inv, m);
    if m.unitCost.Some? && TotalOnHand(inv, p) + m.qty > 0 {
      RoundsToNearest(TotalOnHand(inv, p) * Average(inv, p) + m.qty * cost, TotalOnHand(inv, p) + m.qty);
    }
  }

  /** A receipt of a STANDARD product comes in at the standard, whatever it states, which the average then shows. */
  lemma {:induction false} StandardReceiptComesInAt(t: Tenant, inv: Inventory, m: Request)
    requires Apply(t, inv, m).Ok? && m.qty > 0
    requires m.place.product in t.products && t.products[m.place.product].costMethod == STANDARD
    ensures var after, standard := Apply(t, inv, m).value, t.products[m.place.product].standardCost;
            && |after.movements| == |inv.movements| + 1
            && AddsRow(inv, after, m, standard, after.movements[|inv.movements|].value)
            && IsNearest(m.qty * standard, 10000, after.movements[|inv.movements|].value)
            && Average(after, m.place.product) == standard && after.layers == inv.layers
            && MovesOnlyIts(inv, after, m) && after.issueCosts == inv.issueCosts
  {
    CentsAreNearest(m.qty * t.products[m.place.product].standardCost);
    MovementMovesOnlyIts(t, inv, m);
  }

  // ---- Issues ----

  /** An issue of a product not costed by layers goes out at the average, or at the standard where it has one. */
  function GoesOutAt(t: Tenant, inv: Inventory, m: Request): int
    requires m.place.product in t.products
  {
    var spec := t.products[m.place.product];
    if spec.costMethod == STANDARD && spec.standardCost != 0 then spec.standardCost else Average(inv, m.place.product)
  }

  lemma {:induction false} IssueGoesOutAt(t: Tenant, inv: Inventory, m: Request)
    requires Apply(t, inv, m).Ok? && m.qty <= 0
    requires m.place.product in t.products && t.products[m.place.product].costMethod != FIFO
    ensures var after, cost := Apply(t, inv, m).value, GoesOutAt(t, inv, m);
            && |after.movements| == |inv.movements| + 1
            && AddsRow(inv, after, m, cost, after.movements[|inv.movements|].value)
            && IsNearest(m.qty * cost, 10000, after.movements[|inv.movements|].value)
            && Average(after, m.place.product) == Average(inv, m.place.product) && after.layers == inv.layers
            && MovesOnlyIts(inv, after, m) && after.issueCosts == inv.issueCosts
  {
    CentsAreNearest(m.qty * GoesOutAt(t, inv, m));
    MovementMovesOnlyIts(t, inv, m);
  }

  /** The takes of trail rows. */
  function TakesOf(rows: seq<IssueCost>): seq<Take> {
    if rows == [] then [] else [rows[0].take] + TakesOf(rows[1..])
  }

  lemma {:induction false} RowsOfTakes(movement: nat, tag: Tag, takes: seq<Take>)
    ensures var rows := IssueRows(movement, tag, takes);
            && TakesOf(rows) == takes
            && forall row :: row in rows ==>
                 && row.movement == movement && row.tag == tag
                 && IsNearest(row.take.qty * row.take.unitCost, 10000, row.totalCost)
  {
    if takes != [] {
      RowsOfTakes(movement, tag, takes[1..]);
      CentsAreNearest(takes[0].qty * takes[0].unitCost);
      assert IssueRows(movement, tag, takes)[1..] == IssueRows(movement, tag, takes[1..]);
    }
  }

  lemma {:induction false} UnitsOfAllTakes(r: Relief, fallback: int)
    requires forall take :: take in r.takes ==> take.layer.Some?
    ensures UnitsTaken(AllTakes(r, fallback)) == UnitsTaken(r.takes)
    ensures UncoveredQty(AllTakes(r, fallback)) == Max(0, r.uncovered)
    ensures UncoveredCost(AllTakes(r, fallback)) == Max(0, r.uncovered) * fallback
    decreases |r.takes|
  {
    var tail := if r.uncovered > 0 then [Take(None, r.uncovered, fallback)] else [];
    if r.takes == [] {
      assert r.takes + tail == tail && (tail != [] ==> tail[1..] == []);
    } else {
      assert r.takes[0] in r.takes;
      assert AllTakes(r, fallback)[1..] == AllTakes(Relief(r.layers, r.takes[1..], r.uncovered), fallback);
      UnitsOfAllTakes(Relief(r.layers, r.takes[1..], r.uncovered), fallback);
    }
  }

  /** The layers an issue draws on: its lot's where it names one, else all of the place. */
  predicate DrawsOn(m: Request, layer: Layer) {
    layer.place == m.place && (IsTagged(m.tag) ==> layer.tag == m.tag)
  }

  /** What trail rows say was taken: these units of the queue, and a shortfall at the average. */
  ghost predicate TrailOf(rows: seq<IssueCost>, inv: Inventory, m: Request, taken: seq<Unit>, short: nat) {
    && (forall row :: row in rows ==>
          && row.movement == |inv.movements| && row.tag == m.tag
          && IsNearest(row.take.qty * row.take.unitCost, 10000, row.totalCost))
    && UnitsTaken(TakesOf(rows)) == taken
    && UncoveredQty(TakesOf(rows)) == short
    && UncoveredCost(TakesOf(rows)) == short * Average(inv, m.place.product)
  }

  lemma {:induction false} TrailOfTakes(inv: Inventory, m: Request, takes: seq<Take>, short: nat)
    requires UncoveredQty(takes) == short && UncoveredCost(takes) == short * Average(inv, m.place.product)
    ensures TrailOf(IssueRows(|inv.movements|, m.tag, takes), inv, m, UnitsTaken(takes), short)
  {
    RowsOfTakes(|inv.movements|, m.tag, takes);
  }

  /** What relieving a queue of layers takes from it, and what it leaves. */
  lemma {:induction false} ReliefTakes(layers: seq<Layer>, scope: Scope, qty: nat, fallback: int, takes: seq<Take>,
      after: seq<Layer>)
    requires NoneNegative(layers) && after == Relieve(layers, scope, qty).layers
    requires takes == AllTakes(Relieve(layers, scope, qty), fallback)
    ensures var queue := Units(layers, scope);
            var popped := Min(qty, |queue|);
            && UnitsTaken(takes) == queue[..popped] && UncoveredQty(takes) == qty - popped
            && UncoveredCost(takes) == (qty - popped) * fallback
            && TakenCost(takes) == PopCost(queue, qty, fallback) && Units(after, scope) == queue[popped..]
  {
    RelievePopsFromFront(layers, scope, qty);
    RelieveTakesAreReal(layers, scope, qty);
    RelieveCostsThePoppedUnits(layers, scope, qty, fallback);
    UnitsOfAllTakes(Relieve(layers, scope, qty), fallback);
  }

  lemma {:induction false} FifoIssueTakes(t: Tenant, inv: Inventory, m: Request)
    requires IsFifo(t, m.place) && m.qty <= 0 && NoneNegative(inv.layers)
    ensures var c, queue := CostingOf(t, inv, m), Units(inv.layers, ScopeOf(m.place, m.tag));
            var average, popped := Average(inv, m.place.product), Min(-m.qty, |queue|);
            && UnitsTaken(c.takes) == queue[..popped] && UncoveredQty(c.takes) == -m.qty - popped
            && UncoveredCost(c.takes) == (-m.qty - popped) * average
            && TakenCost(c.takes) == PopCost(queue, -m.qty, average)
            && Units(c.layers, ScopeOf(m.place, m.tag)) == queue[popped..] && c.average == average
  {
    var c := CostingOf(t, inv, m);
    FifoIssueIsItsRelief(t, inv, m);
    ReliefTakes(inv.layers, ScopeOf(m.place, m.tag), -m.qty, Average(inv, m.place.product), c.takes, c.layers);
  }

  lemma {:induction false} BooksItsCosting(t: Tenant, inv: Inventory, m: Request)
    requires Apply(t, inv, m).Ok? && m.place.product in t.products
    ensures var after, c := Apply(t, inv, m).value, CostingOf(t, inv, m);
            && AddsRow(inv, after, m, c.unitCost, c.value)
            && after.layers == c.layers && Average(after, m.place.product) == c.average
            && after.issueCosts == inv.issueCosts + IssueRows(|inv.movements|, m.tag, c.takes)
  {
  }

  /** Each trail row of a FIFO issue is of that movement and worth its quantity at its cost; together they name the
      front units of the queue, in order, and what was short. */
  lemma {:induction false} FifoIssueTrail(t: Tenant, inv: Inventory, m: Request)
    requires IsFifo(t, m.place) && m.qty <= 0 && NoneNegative(inv.layers) && Apply(t, inv, m).Ok?
    ensures var after, queue := Apply(t, inv, m).value, Units(inv.layers, ScopeOf(m.place, m.tag));
            var popped := Min(-m.qty, |queue|);
            && inv.issueCosts <= after.issueCosts
            && TrailOf(after.issueCosts[|inv.issueCosts|..], inv, m, queue[..popped], -m.qty - popped)
  {
    var queue := Units(inv.layers, ScopeOf(m.place, m.tag));
    var takes := CostingOf(t, inv, m).takes;
    BooksItsCosting(t, inv, m);
    FifoIssueTakes(t, inv, m);
    TrailOfTakes(inv, m, takes, -m.qty - Min(-m.qty, |queue|));
    assert Apply(t, inv, m).value.issueCosts[|inv.issueCosts|..] == IssueRows(|inv.movements|, m.tag, takes);
  }

  lemma {:induction false} ScopeIsWhatItDrawsOn(m: Request, layer: Layer)
    ensures InScope(layer, ScopeOf(m.place, m.tag)) <==> DrawsOn(m, layer)
  {
  }

  /** A value and a unit cost are what a quantity that costs `cost` goes out at. */
  ghost predicate CostsAre(cost: int, qty: nat, average: int, unitCost: int, value: int) {
    && IsNearest(-cost, 10000, value)
    && (if qty == 0 then unitCost == average else IsNearest(cost, qty, unitCost))
  }

  lemma {:induction false} RoundedCostsAre(cost: int, qty: nat, average: int)
    ensures CostsAre(cost, qty, average, if qty == 0 then average else RoundHalfUp(cost, qty), Cents(-cost))
  {
    CentsAreNearest(-cost);
    if qty != 0 {
      RoundsToNearest(cost, qty);
    }
  }

  lemma {:induction false} FifoIssueCosts(t: Tenant, inv: Inventory, m: Request)
    requires IsFifo(t, m.place) && m.qty <= 0
    ensures var c, average := CostingOf(t, inv, m), Average(inv, m.place.product);
            CostsAre(TakenCost(c.takes), -m.qty, average, c.unitCost, c.value)
  {
    RoundedCostsAre(TakenCost(CostingOf(t, inv, m).takes), -m.qty, Average(inv, m.place.product));
  }

  /** A FIFO issue takes the front units of its queue, those it lacks at the average: its value is what they cost, to
      the nearest cent, and its unit cost their mean. */
  lemma {:induction false} FifoIssueGoesOutAt(t: Tenant, inv: Inventory, m: Request)
    requires IsFifo(t, m.place) && m.qty <= 0 && NoneNegative(inv.layers) && Apply(t, inv, m).Ok?
    ensures forall layer :: InScope(layer, ScopeOf(m.place, m.tag)) <==> DrawsOn(m, layer)
    ensures var after, average := Apply(t, inv, m).value, Average(inv, m.place.product);
            var queue := Units(inv.layers, ScopeOf(m.place, m.tag));
            var cost := PopCost(queue, -m.qty, average);
            && |after.movements| == |inv.movements| + 1
            && after.movements[|inv.movements|].unitCost.Some?
            && (var row := after.movements[|inv.movements|];
                && AddsRow(inv, after, m, row.unitCost.value, row.value)
                && CostsAre(cost, -m.qty, average, row.unitCost.value, row.value))
            && Units(after.layers, ScopeOf(m.place, m.tag)) == queue[Min(-m.qty, |queue|)..]
            && Average(after, m.place.product) == average && MovesOnlyIts(inv, after, m)
  {
    FifoIssueTakes(t, inv, m);
    FifoIssueCosts(t, inv, m);
    BooksItsCosting(t, inv, m);
    MovementMovesOnlyIts(t, inv, m);
    forall layer ensures InScope(layer, ScopeOf(m.place, m.tag)) <==> DrawsOn(m, layer) {
      ScopeIsWhatItDrawsOn(m, layer);
    }
  }
}
