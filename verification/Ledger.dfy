/** One inventory movement, as a transition over the tenant's tables.
    A movement is all-or-nothing: it runs inside its caller's transaction, so a refusal raised after
    the first balance was saved still leaves every table as it was. */
module Ledger {
  import opened Rounding
  import opened Records
  import opened Tables
  import opened Fifo

  datatype Inventory = Inventory(
    balances: seq<Row<Place>>, lots: seq<Row<LotKey>>, bins: seq<Row<BinKey>>,
    layers: seq<Layer>, averages: map<ProductId, int>,
    movements: seq<Movement>, issueCosts: seq<IssueCost>, reservations: seq<Reservation>)

  const Empty := Inventory([], [], [], [], map[], [], [], [])

  datatype Request = Request(kind: MovementType, place: Place, bin: Option<BinId>, tag: Tag, qty: int,
                             unitCost: Option<int>, ref: Ref, at: int)

  datatype Problem = NoSuchProduct | SerialRequired | SerialInStock | SerialNotAvailable
                   | StockShort | LotShort | BinShort | NotAvailableToPromise

  /** One whole unit, in hundredths. */
  const ONE := 100

  function ProductOf(place: Place): ProductId {
    place.product
  }

  /** A serial at a place, whatever lot or expiry its rows name. */
  function SerialAt(key: LotKey): SerialKey {
    SerialKey(key.place, key.tag.serial)
  }

  /** Company-wide stock of a product. */
  function TotalOnHand(inv: Inventory, product: ProductId): int {
    SumOnHand(inv.balances, ProductOf, product)
  }

  function Average(inv: Inventory, product: ProductId): int {
    if product in inv.averages then inv.averages[product] else 0
  }

  /** Serial identity and 0/1 cardinality, enforced whatever the tenant's strict-mode flag. */
  function SerialProblem(spec: Product, lots: seq<Row<LotKey>>, m: Request): Option<Problem> {
    if !spec.trackSerial || m.qty == 0 then None
    else if !Given(m.tag.serial) then Some(SerialRequired)
    else if m.qty > 0 then
      if SumOnHand(lots, SerialAt, SerialKey(m.place, m.tag.serial)) + m.qty > ONE then Some(SerialInStock) else None
    else
      if OnHand(lots, LotKey(m.place, m.tag)) + m.qty < 0 then Some(SerialNotAvailable) else None
  }

  /** Strict mode refuses an issue that would drive the balance it draws on below zero. */
  predicate Refused(t: Tenant, qty: int, onHand: int) {
    t.blockNegative && qty < 0 && onHand + qty < 0
  }

  function StockProblem(t: Tenant, inv: Inventory, m: Request): Option<Problem> {
    if Refused(t, m.qty, OnHand(inv.balances, m.place)) then Some(StockShort)
    else if IsTagged(m.tag) && Refused(t, m.qty, OnHand(inv.lots, LotKey(m.place, m.tag))) then Some(LotShort)
    else if m.bin.Some? && Refused(t, m.qty, OnHand(inv.bins, BinKey(m.place, m.bin.value))) then Some(BinShort)
    else None
  }

  function MovementProblem(t: Tenant, inv: Inventory, m: Request): Option<Problem> {
    if m.place.product !in t.products then Some(NoSuchProduct)
    else
      var serial := SerialProblem(t.products[m.place.product], inv.lots, m);
      if serial.Some? then serial else StockProblem(t, inv, m)
  }

  /** What a movement is costed at, and what costing it does to the average and the layers. */
  datatype Costing = Costing(unitCost: int, value: int, average: int, layers: seq<Layer>, takes: seq<Take>)

  /** The moving average after a costed receipt; it is left alone unless stock ends above zero. */
  function NewAverage(prior: int, average: int, qty: int, unitCost: int): int {
    if prior + qty > 0 then RoundHalfUp(prior * average + qty * unitCost, prior + qty) else average
  }

  function NewLayer(layers: seq<Layer>, m: Request, unitCost: int): Layer {
    Layer(|layers|, m.place, m.tag, m.at, m.qty, m.qty, unitCost, m.ref)
  }

  function Inbound(spec: Product, prior: int, average: int, layers: seq<Layer>, m: Request): Costing
    requires m.qty > 0
  {
    if spec.costMethod == STANDARD then
      Costing(spec.standardCost, Cents(m.qty * spec.standardCost), spec.standardCost, layers, [])
    else
      var cost := if m.unitCost.Some? then m.unitCost.value else average;
      Costing(cost, Cents(m.qty * cost),
              if m.unitCost.Some? then NewAverage(prior, average, m.qty, cost) else average,
              if spec.costMethod == FIFO then Insert(layers, NewLayer(layers, m, cost)) else layers, [])
  }

  function Outbound(spec: Product, average: int, layers: seq<Layer>, m: Request): Costing
    requires m.qty <= 0
  {
    match spec.costMethod
    case STANDARD =>
      var cost := if spec.standardCost != 0 then spec.standardCost else average;
      Costing(cost, Cents(m.qty * cost), average, layers, [])
    case AVERAGE =>
      Costing(average, Cents(m.qty * average), average, layers, [])
    case FIFO =>
      var relief := Relieve(layers, ScopeOf(m.place, m.tag), -m.qty);
      var takes := AllTakes(relief, average);
      var cost := TakenCost(takes);
      Costing(if m.qty == 0 then average else RoundHalfUp(cost, -m.qty),
              Cents(-cost), average, relief.layers, takes)
  }

  function Cost(spec: Product, prior: int, average: int, layers: seq<Layer>, m: Request): Costing {
    if m.qty > 0 then Inbound(spec, prior, average, layers, m) else Outbound(spec, average, layers, m)
  }

  function IssueRow(movement: nat, tag: Tag, take: Take): IssueCost {
    IssueCost(movement, tag, take, Cents(take.qty * take.unitCost))
  }

  function IssueRows(movement: nat, tag: Tag, takes: seq<Take>): seq<IssueCost> {
    if takes == [] then [] else [IssueRow(movement, tag, takes[0])] + IssueRows(movement, tag, takes[1..])
  }

  function Entry(m: Request, c: Costing): Movement {
    Movement(m.kind, m.place, m.bin, m.tag, m.qty, Some(c.unitCost), c.value, m.ref, m.at)
  }

  /** The balances a request names, moved by its quantity. */
  function WithStockMoved(inv: Inventory, m: Request): Inventory {
    inv.(balances := Post(inv.balances, m.place, m.qty, 0),
         lots := if IsTagged(m.tag) then Post(inv.lots, LotKey(m.place, m.tag), m.qty, 0) else inv.lots,
         bins := if m.bin.Some? then Post(inv.bins, BinKey(m.place, m.bin.value), m.qty, 0) else inv.bins)
  }

  function Book(inv: Inventory, m: Request, c: Costing): Inventory {
    WithStockMoved(inv, m).(
         layers := c.layers,
         averages := inv.averages[m.place.product := c.average],
         movements := inv.movements + [Entry(m, c)],
         issueCosts := inv.issueCosts + IssueRows(|inv.movements|, m.tag, c.takes))
  }

  /** The movement, valued with the company-wide stock and average the caller read under the product lock. */
  function ApplyWith(t: Tenant, inv: Inventory, m: Request, prior: int, average: int): Result<Inventory, Problem> {
    var problem := MovementProblem(t, inv, m);
    if problem.Some? then Err(problem.value)
    else Ok(Book(inv, m, Cost(t.products[m.place.product], prior, average, inv.layers, m)))
  }

  function Apply(t: Tenant, inv: Inventory, m: Request): Result<Inventory, Problem> {
    ApplyWith(t, inv, m, TotalOnHand(inv, m.place.product), Average(inv, m.place.product))
  }

  /** The costing of an accepted movement. */
  function CostingOf(t: Tenant, inv: Inventory, m: Request): Costing
    requires m.place.product in t.products
  {
    Cost(t.products[m.place.product], TotalOnHand(inv, m.place.product), Average(inv, m.place.product),
         inv.layers, m)
  }
}
