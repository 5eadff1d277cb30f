/** Cancelling an invoice: what comes back, at what value, and only once. */
module Cancellation {
  import opened Rounding
  import opened Records
  import opened Fifo
  import opened Ledger
  import R = Runs
  import F = FifoCosting
  import J = Journals
  import opened Invoices
  import opened StockAndBooks

  // ---- The unit cost on a ledger row tells its value ----

  /** The recorded value is quantity times recorded unit cost, rounded; under FIFO the unit cost is itself a
      rounded quotient, so the two agree to within half a cent and half a cost step per unit. */
  predicate CostMatches(t: Tenant, m: Movement) {
    && m.place.product in t.products && m.unitCost.Some?
    && (var spec, cost := t.products[m.place.product], m.unitCost.value;
        match spec.costMethod
        case FIFO => 2 * Abs(Millionths(m.value) - m.qty * cost) <= CENT + Abs(m.qty)
        case AVERAGE => m.value == Cents(m.qty * cost)
        case STANDARD => m.value == Cents(m.qty * cost) && cost == spec.standardCost)
  }

  /** A product at standard cost whose standard was never set: its column is zero. */
  predicate Unset(t: Tenant, product: ProductId) {
    && product in t.products
    && t.products[product].costMethod == STANDARD && t.products[product].standardCost == 0
  }

  /** Every ledger row's value matches its unit cost, and where an issue falls back from an unset standard to
      the average, the average is zero too. */
  ghost predicate CostsMatch(t: Tenant, stock: Inventory) {
    && (forall m :: m in stock.movements ==> CostMatches(t, m))
    && (forall p :: Unset(t, p) ==> Average(stock, p) == 0)
  }

  lemma {:induction false} QuotientTimesQuantity(cost: int, qty: int)
    requires qty < 0
    ensures var unit := RoundHalfUp(cost, -qty);
            2 * Abs(Millionths(Cents(-cost)) - qty * unit) <= CENT + Abs(qty)
  {
    RoundsToNearest(cost, -qty);
    assert -qty * RoundHalfUp(cost, -qty) == -(qty * RoundHalfUp(cost, -qty));
  }

  lemma {:induction false} NoQuantityNoCost(t: Tenant, stock: Inventory, m: Request)
    requires F.IsFifo(t, m.place) && m.qty == 0
    ensures CostingOf(t, stock, m).value == 0
  {
    RelieveNothing(stock.layers, ScopeOf(m.place, m.tag), 0);
  }

  lemma {:induction false} MovementCostMatches(t: Tenant, stock: Inventory, m: Request)
    requires m.place.product in t.products
    requires Unset(t, m.place.product) ==> Average(stock, m.place.product) == 0
    ensures CostMatches(t, Entry(m, CostingOf(t, stock, m)))
    ensures Unset(t, m.place.product) ==> CostingOf(t, stock, m).average == 0
  {
    if F.IsFifo(t, m.place) && m.qty <= 0 {
      if m.qty == 0 {
        NoQuantityNoCost(t, stock, m);
      } else {
        QuotientTimesQuantity(TakenCost(CostingOf(t, stock, m).takes), m.qty);
      }
    }
  }

  lemma {:induction false} BookKeepsCostsMatched(t: Tenant, stock: Inventory, m: Request)
    requires CostsMatch(t, stock) && m.place.product in t.products
    ensures CostsMatch(t, Book(stock, m, CostingOf(t, stock, m)))
  {
    var c := CostingOf(t, stock, m);
    MovementCostMatches(t, stock, m);
    forall p | Unset(t, p) ensures Average(Book(stock, m, c), p) == 0 {
      assert Average(stock, p) == 0;
    }
  }

  /** In every reachable state each ledger row's value matches its unit cost. */
  lemma {:induction false} CostsAlwaysMatch(t: Tenant, ops: seq<R.Op>)
    ensures CostsMatch(t, R.Run(t, Empty, ops))
  {
    if ops != [] {
      var before, op := R.Run(t, Empty, ops[..|ops| - 1]), ops[|ops| - 1];
      CostsAlwaysMatch(t, ops[..|ops| - 1]);
      R.OnlyMovementsMoveStock(t, before, op);
      if R.Accepted(t, before, op) {
        BookKeepsCostsMatched(t, before, op.m);
      }
    }
  }

  // ---- One return ----

  /** How far apart, in two-millionths, a return's value and the sale's may lie. */
  function ReturnSlack(t: Tenant, m: Movement): int {
    if F.IsFifo(t, m.place) then 20000 + Abs(m.qty) else 0
  }

  lemma {:induction false} AverageReturn(qty: int, cost: int)
    ensures Cents(-qty * cost) == -Cents(qty * cost)
  {
    assert -qty * cost == -(qty * cost);
  }

  /** Returning a sale restores its value, whatever has moved since: exactly for AVERAGE and STANDARD, and for
      FIFO to within a cent and half a cost step per unit. */
  lemma {:induction false} ReturnRestoresValue(t: Tenant, stock: Inventory, m: Movement, number: string, now: int)
    requires CostMatches(t, m) && m.qty <= 0
    ensures TwoMillionths(CostingOf(t, stock, ReturnRequest(m, number, now)).value + m.value) <= ReturnSlack(t, m)
  {
    var r := ReturnRequest(m, number, now);
    var cost := m.unitCost.value;
    AverageReturn(m.qty, cost);
    if F.IsFifo(t, m.place) && m.qty == 0 {
      NoQuantityNoCost(t, stock, r);
    }
  }

  /** So it is for every row that ever took stock out, in every reachable state. */
  lemma {:induction false} ReachableReturnsRestoreValue(t: Tenant, ops: seq<R.Op>, m: Movement, stock: Inventory,
      number: string, now: int)
    requires m in R.Run(t, Empty, ops).movements && m.qty <= 0
    ensures m.place.product in t.products
    ensures TwoMillionths(CostingOf(t, stock, ReturnRequest(m, number, now)).value + m.value) <= ReturnSlack(t, m)
  {
    CostsAlwaysMatch(t, ops);
    ReturnRestoresValue(t, stock, m, number, now);
  }

  // ---- All the returns of an invoice ----

  function TotalValue(sales: seq<Movement>): int {
    if sales == [] then 0 else sales[0].value + TotalValue(sales[1..])
  }

  function TotalPosted(sales: seq<Movement>, a: R.Account): int {
    if sales == [] then 0
    else
      (if R.PostsTo(sales[0].place, sales[0].tag, None, a) then sales[0].qty else 0) + TotalPosted(sales[1..], a)
  }

  function TotalSlack(t: Tenant, sales: seq<Movement>): int {
    if sales == [] then 0 else ReturnSlack(t, sales[0]) + TotalSlack(t, sales[1..])
  }

  /** The sales a cancellation brings back at their value: quantities out, costs on file. */
  predicate ReturnableSale(t: Tenant, m: Movement) {
    m.qty <= 0 && CostMatches(t, m)
  }

  ghost predicate Returnable(t: Tenant, sales: seq<Movement>) {
    forall m :: m in sales ==> ReturnableSale(t, m)
  }

  /** Two gaps add up to at most the sum of their bounds. */
  lemma {:induction false} AddGaps(x: int, xMax: int, y: int, yMax: int)
    requires TwoMillionths(x) <= xMax && TwoMillionths(y) <= yMax
    ensures TwoMillionths(x + y) <= xMax + yMax
  {
  }

  /** Restoring puts back on every location and lot what the sales took from it. */
  lemma {:induction false} RestoreReturnsQuantities(t: Tenant, stock: Inventory, sales: seq<Movement>, number: string,
      now: int, a: R.Account)
    requires Restore(t, stock, sales, number, now).Ok? && R.Kept(a)
    ensures R.Balance(Restore(t, stock, sales, number, now).value, a) == R.Balance(stock, a) - TotalPosted(sales, a)
    decreases |sales|
  {
    if sales != [] {
      var m := ReturnRequest(sales[0], number, now);
      var row := AppliedMovement(t, stock, m);
      R.BookMovesBalances(stock, m, CostingOf(t, stock, m), a);
      RestoreReturnsQuantities(t, Apply(t, stock, m).value, sales[1..], number, now, a);
    }
  }

  /** Restoring starts by bringing the first sale back, at its value within the slack. */
  lemma {:induction false} FirstReturn(t: Tenant, stock: Inventory, sales: seq<Movement>, number: string, now: int)
    returns (moved: Inventory, value: int)
    requires sales != [] && Restore(t, stock, sales, number, now).Ok? && ReturnableSale(t, sales[0])
    ensures Restore(t, moved, sales[1..], number, now) == Restore(t, stock, sales, number, now)
    ensures InvoiceValue(moved.movements) == InvoiceValue(stock.movements) + value
    ensures TwoMillionths(value + sales[0].value) <= ReturnSlack(t, sales[0])
  {
    var m := ReturnRequest(sales[0], number, now);
    var row := AppliedMovement(t, stock, m);
    moved, value := Apply(t, stock, m).value, row.value;
    ReturnRestoresValue(t, stock, sales[0], number, now);
    LedgerOfRow(stock.movements, row);
  }

  /** The invoices' ledger value went from `before` to `after` as the sales were returned. */
  predicate ClosedBy(t: Tenant, before: int, after: int, sales: seq<Movement>) {
    TwoMillionths(after - before + TotalValue(sales)) <= TotalSlack(t, sales)
  }

  /** Restoring brings the sales' value back, to within the slack FIFO leaves. */
  lemma {:induction false} RestoreReturnsValue(t: Tenant, stock: Inventory, sales: seq<Movement>, number: string,
      now: int)
    requires Restore(t, stock, sales, number, now).Ok? && Returnable(t, sales)
    ensures ClosedBy(t, InvoiceValue(stock.movements),
                     InvoiceValue(Restore(t, stock, sales, number, now).value.movements), sales)
    decreases |sales|
  {
    if sales != [] {
      var moved, value := FirstReturn(t, stock, sales, number, now);
      RestoreReturnsValue(t, moved, sales[1..], number, now);
    }
  }

  /** The rows a cancellation adds are returns under its own reference. */
  lemma {:induction false} RestoreAddsReturns(t: Tenant, stock: Inventory, sales: seq<Movement>, number: string,
      now: int)
    requires Restore(t, stock, sales, number, now).Ok?
    ensures var after := Restore(t, stock, sales, number, now).value;
            && (forall n :: SaleMoves(after.movements, n) == SaleMoves(stock.movements, n))
            && (forall n :: SaleValue(after.movements, n) == SaleValue(stock.movements, n))
            && (forall ref :: AnyWithRef(after.movements, ref)
                         <==> AnyWithRef(stock.movements, ref) || (sales != [] && ref == CancelRef(number)))
            && (CostsMatch(t, stock) ==> CostsMatch(t, after))
    decreases |sales|
  {
    if sales != [] {
      var m := ReturnRequest(sales[0], number, now);
      var row := AppliedMovement(t, stock, m);
      LedgerOfRow(stock.movements, row);
      if CostsMatch(t, stock) {
        BookKeepsCostsMatched(t, stock, m);
      }
      RestoreAddsReturns(t, Apply(t, stock, m).value, sales[1..], number, now);
    }
  }

  lemma {:induction false} TotalsOfOneMore(sales: seq<Movement>, m: Movement, a: R.Account)
    ensures TotalValue(sales + [m]) == TotalValue(sales) + m.value
    ensures TotalPosted(sales + [m], a)
         == TotalPosted(sales, a) + (if R.PostsTo(m.place, m.tag, None, a) then m.qty else 0)
  {
    if sales == [] {
      assert [] + [m] == [m] && [m][1..] == [];
    } else {
      assert (sales + [m])[1..] == sales[1..] + [m];
      TotalsOfOneMore(sales[1..], m, a);
    }
  }

  lemma {:induction false} SalesOfLedger(ms: seq<Movement>, number: string, a: R.Account)
    ensures TotalValue(SaleMoves(ms, number)) == SaleValue(ms, number)
    ensures !a.InBin? ==> TotalPosted(SaleMoves(ms, number), a) == SaleQty(ms, number, a)
  {
    if ms != [] {
      var front, last := ms[..|ms| - 1], ms[|ms| - 1];
      SalesOfLedger(front, number, a);
      if IsSaleOf(last, number) {
        TotalsOfOneMore(SaleMoves(front, number), last, a);
      } else {
        assert SaleMoves(ms, number) == SaleMoves(front, number);
      }
    }
  }

  // ---- Cancelling ----

  /** A cancellation that restores stock puts back on every company, location and lot balance exactly what the
      invoice's sales took. */
  lemma {:induction false} CancelRestoresStock(t: Tenant, sys: System, number: string, today: int, now: int,
      a: R.Account)
    requires Cancel(t, sys, number, today, now).Ok? && R.Kept(a) && !a.InBin?
    requires !AnyWithRef(sys.stock.movements, CancelRef(number))
    ensures R.Balance(Cancel(t, sys, number, today, now).value.stock, a)
         == R.Balance(sys.stock, a) - SaleQty(sys.stock.movements, number, a)
  {
    var sales := SaleMoves(sys.stock.movements, number);
    SalesOfLedger(sys.stock.movements, number, a);
    RestoreReturnsQuantities(t, sys.stock, sales, number, now, a);
  }

  lemma {:induction false} SalesRestoredAtValue(t: Tenant, stock: Inventory, number: string, now: int, after: Inventory)
    requires Returnable(t, SaleMoves(stock.movements, number))
    requires Restore(t, stock, SaleMoves(stock.movements, number), number, now) == Ok(after)
    ensures TwoMillionths(InvoiceValue(after.movements) - InvoiceValue(stock.movements)
                          + SaleValue(stock.movements, number)) <= TotalSlack(t, SaleMoves(stock.movements, number))
  {
    SalesOfLedger(stock.movements, number, R.Company(0));
    RestoreReturnsValue(t, stock, SaleMoves(stock.movements, number), number, now);
  }

  /** And it brings back their value, to within the slack FIFO leaves. */
  lemma {:induction false} CancelRestoresValue(t: Tenant, sys: System, number: string, today: int, now: int)
    requires Cancel(t, sys, number, today, now).Ok? && !AnyWithRef(sys.stock.movements, CancelRef(number))
    requires Returnable(t, SaleMoves(sys.stock.movements, number))
    ensures var after, sales := Cancel(t, sys, number, today, now).value.stock, SaleMoves(sys.stock.movements, number);
            TwoMillionths(InvoiceValue(after.movements) - InvoiceValue(sys.stock.movements)
                          + SaleValue(sys.stock.movements, number)) <= TotalSlack(t, sales)
  {
    SalesRestoredAtValue(t, sys.stock, number, now, Cancel(t, sys, number, today, now).value.stock);
  }

  /** Cancelling reverses the COGS entry account by account, the first time and never again. */
  lemma {:induction false} CancelReversesBooks(t: Tenant, sys: System, number: string, today: int, now: int,
      account: J.Account)
    requires Cancel(t, sys, number, today, now).Ok?
    ensures var cogs := J.Find(sys.books, CogsRef(number));
            var after := Cancel(t, sys, number, today, now).value;
            J.LedgerNet(after.books, account) == J.LedgerNet(sys.books, account)
              - (if cogs.Some? && !J.Exists(sys.books, CogsCancelRef(number)) then J.Net(cogs.value.lines, account)
                 else 0)
  {
    var cogs := J.Find(sys.books, CogsRef(number));
    if cogs.Some? && !J.Exists(sys.books, CogsCancelRef(number)) {
      J.ReversalUndoes(cogs.value.lines, account);
      J.LedgerOfAppend(sys.books, J.Entry(CogsCancelRef(number), today, J.Reversed(cogs.value.lines)));
    }
  }

  /** A second cancellation changes nothing. */
  lemma {:induction false} CancelTwiceIsCancelOnce(t: Tenant, sys: System, number: string, today: int, now: int,
      later: int, at: int)
    requires Cancel(t, sys, number, today, now).Ok?
    ensures var once := Cancel(t, sys, number, today, now).value; Cancel(t, once, number, later, at) == Ok(once)
  {
    var once := Cancel(t, sys, number, today, now).value;
    var cogs := J.Find(sys.books, CogsRef(number));
    if cogs.Some? && !J.Exists(sys.books, CogsCancelRef(number)) {
      J.LedgerOfAppend(sys.books, J.Entry(CogsCancelRef(number), today, J.Reversed(cogs.value.lines)));
    }
    assert ReverseCogs(once.books, number, later) == once.books;
    if !AnyWithRef(sys.stock.movements, CancelRef(number)) {
      RestoreAddsReturns(t, sys.stock, SaleMoves(sys.stock.movements, number), number, now);
    }
  }
}
