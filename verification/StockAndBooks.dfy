/** Issue and cancel keep stock and general ledger together. */
module StockAndBooks {
  import opened Rounding
  import opened Records
  import opened Tables
  import opened Fifo
  import opened Ledger
  import R = Runs
  import F = FifoCosting
  import J = Journals
  import P = Posters
  import opened Invoices

  // ---- What the ledger says of an invoice ----

  /** Total value of the sale movements of an invoice. */
  function SaleValue(ms: seq<Movement>, number: string): int {
    if ms == [] then 0
    else SaleValue(ms[..|ms| - 1], number) + (if IsSaleOf(ms[|ms| - 1], number) then ms[|ms| - 1].value else 0)
  }

  /** Total quantity its sale movements posted to a balance. */
  function SaleQty(ms: seq<Movement>, number: string, a: R.Account): int {
    if ms == [] then 0
    else
      var m := ms[|ms| - 1];
      SaleQty(ms[..|ms| - 1], number, a)
      + (if IsSaleOf(m, number) && R.PostsTo(m.place, m.tag, m.bin, a) then m.qty else 0)
  }

  /** Total value of all movements invoices made, by issue or by cancellation. */
  predicate OfInvoice(m: Movement) {
    m.ref.kind == AR_INVOICE || m.ref.kind == AR_INVOICE_CANCEL
  }

  function InvoiceValue(ms: seq<Movement>): int {
    if ms == [] then 0
    else InvoiceValue(ms[..|ms| - 1]) + (if OfInvoice(ms[|ms| - 1]) then ms[|ms| - 1].value else 0)
  }

  /** One accepted movement, as a step: the new state, its ledger row and its effect on balances. */
  lemma {:induction false} AppliedMovement(t: Tenant, stock: Inventory, m: Request) returns (row: Movement)
    requires Apply(t, stock, m).Ok?
    ensures var after := Apply(t, stock, m).value;
            && m.place.product in t.products
            && after == Book(stock, m, CostingOf(t, stock, m))
            && after.movements == stock.movements + [row] && row == Entry(m, CostingOf(t, stock, m))
            && row.kind == m.kind && row.place == m.place && row.bin == m.bin && row.tag == m.tag
            && row.qty == m.qty && row.ref == m.ref
            && LastValue(after) == row.value
  {
    row := Entry(m, CostingOf(t, stock, m));
  }

  lemma {:induction false} LedgerOfRow(ms: seq<Movement>, row: Movement)
    ensures InvoiceValue(ms + [row]) == InvoiceValue(ms) + (if OfInvoice(row) then row.value else 0)
    ensures forall n :: SaleValue(ms + [row], n) == SaleValue(ms, n) + (if IsSaleOf(row, n) then row.value else 0)
    ensures forall n :: SaleMoves(ms + [row], n) == SaleMoves(ms, n) + (if IsSaleOf(row, n) then [row] else [])
    ensures forall ref :: AnyWithRef(ms + [row], ref) <==> AnyWithRef(ms, ref) || row.ref == ref
  {
    assert (ms + [row])[..|ms|] == ms;
    forall ref ensures AnyWithRef(ms + [row], ref) <==> AnyWithRef(ms, ref) || row.ref == ref {
      assert (ms + [row])[|ms|] == row;
      if AnyWithRef(ms, ref) {
        var i :| 0 <= i < |ms| && ms[i].ref == ref;
        assert (ms + [row])[i].ref == ref;
      }
    }
  }

  // ---- Issuing ----

  /** What a shipment adds to the ledger: only sales of this invoice, whose values total minus the COGS. */
  ghost predicate ShippedOnly(before: Inventory, after: Inventory, number: string, cogs: int) {
    && SaleValue(after.movements, number) == SaleValue(before.movements, number) - cogs
    && InvoiceValue(after.movements) == InvoiceValue(before.movements) - cogs
    && (forall n :: n != number ==> SaleValue(after.movements, n) == SaleValue(before.movements, n))
    && (forall n :: n != number ==> SaleMoves(after.movements, n) == SaleMoves(before.movements, n))
    && (forall ref :: ref != InvoiceRef(number) ==>
          (AnyWithRef(after.movements, ref) <==> AnyWithRef(before.movements, ref)))
  }

  lemma {:induction false} ShipTotalsItsSales(t: Tenant, stock: Inventory, lines: seq<InvoiceLine>,
      location: LocationId, number: string, now: int)
    requires Ship(t, stock, lines, location, number, now).Ok?
    ensures var s := Ship(t, stock, lines, location, number, now).value;
            ShippedOnly(stock, s.stock, number, s.cogs)
    decreases |lines|
  {
    if lines != [] {
      if lines[0].product.None? {
        ShipTotalsItsSales(t, stock, lines[1..], location, number, now);
      } else {
        var m := SaleRequest(lines[0], location, number, now);
        var row := AppliedMovement(t, stock, m);
        LedgerOfRow(stock.movements, row);
        ShipTotalsItsSales(t, Apply(t, stock, m).value, lines[1..], location, number, now);
      }
    }
  }

  /** A shipment moves every balance by exactly its sale movements. */
  lemma {:induction false} ShipMovesBalances(t: Tenant, stock: Inventory, lines: seq<InvoiceLine>,
      location: LocationId, number: string, now: int, a: R.Account)
    requires Ship(t, stock, lines, location, number, now).Ok? && R.Kept(a)
    ensures var after := Ship(t, stock, lines, location, number, now).value.stock;
            R.Balance(after, a) - R.Balance(stock, a)
            == SaleQty(after.movements, number, a) - SaleQty(stock.movements, number, a)
    decreases |lines|
  {
    if lines != [] {
      if lines[0].product.None? {
        ShipMovesBalances(t, stock, lines[1..], location, number, now, a);
      } else {
        var m := SaleRequest(lines[0], location, number, now);
        var row := AppliedMovement(t, stock, m);
        R.BookMovesBalances(stock, m, CostingOf(t, stock, m), a);
        ShipMovesBalances(t, Apply(t, stock, m).value, lines[1..], location, number, now, a);
      }
    }
  }

  /** The cost of a movement out can only be negative if some cost on file is. */
  ghost predicate CostsNotNegative(t: Tenant, inv: Inventory) {
    && (forall p :: p in t.products ==> 0 <= t.products[p].standardCost)
    && (forall p :: 0 <= Average(inv, p))
    && (forall l :: l in inv.layers ==> 0 <= l.unitCost)
    && NoneNegative(inv.layers)
  }

  lemma {:induction false} TakesOfCostlyLayers(layers: seq<Layer>, scope: Scope, qty: int)
    requires NoneNegative(layers) && forall l :: l in layers ==> 0 <= l.unitCost
    ensures 0 <= TakenCost(Relieve(layers, scope, qty).takes)
  {
    if layers != [] {
      var first, rest := layers[0], layers[1..];
      assert first in layers && forall l :: l in rest ==> l in layers;
      if qty > 0 && InScope(first, scope) && first.qtyRemaining > 0 {
        var take := Min(qty, first.qtyRemaining);
        TakesOfCostlyLayers(rest, scope, qty - take);
        MulMonotone(0, take, first.unitCost);
        assert Relieve(layers, scope, qty).takes[1..] == Relieve(rest, scope, qty - take).takes;
      } else {
        TakesOfCostlyLayers(rest, scope, qty);
      }
    }
  }

  lemma {:induction false} TakesCostNotNegative(layers: seq<Layer>, scope: Scope, qty: int, fallback: int)
    requires NoneNegative(layers) && (forall l :: l in layers ==> 0 <= l.unitCost) && 0 <= fallback
    ensures 0 <= TakenCost(AllTakes(Relieve(layers, scope, qty), fallback))
  {
    var r := Relieve(layers, scope, qty);
    TakesOfCostlyLayers(layers, scope, qty);
    AllTakesCost(r, fallback);
    MulMonotone(0, Max(0, r.uncovered), fallback);
  }

  lemma {:induction false} FifoIssueKeepsCosts(t: Tenant, inv: Inventory, m: Request)
    requires CostsNotNegative(t, inv) && F.IsFifo(t, m.place) && m.qty <= 0
    ensures var c := CostingOf(t, inv, m);
            c.value <= 0 && NoneNegative(c.layers) && forall l :: l in c.layers ==> 0 <= l.unitCost
  {
    var scope := ScopeOf(m.place, m.tag);
    F.FifoIssueIsItsRelief(t, inv, m);
    assert 0 <= Average(inv, m.place.product);
    TakesCostNotNegative(inv.layers, scope, -m.qty, Average(inv, m.place.product));
    RelieveTouchesOnlyScope(inv.layers, scope, -m.qty);
  }

  lemma {:induction false} IssueKeepsCosts(t: Tenant, inv: Inventory, m: Request)
    requires CostsNotNegative(t, inv) && m.place.product in t.products && m.qty <= 0
    ensures CostingOf(t, inv, m).value <= 0
    ensures CostsNotNegative(t, Book(inv, m, CostingOf(t, inv, m)))
  {
    if F.IsFifo(t, m.place) {
      FifoIssueKeepsCosts(t, inv, m);
    }
    var c := CostingOf(t, inv, m);
    forall p ensures 0 <= Average(Book(inv, m, c), p) {
      assert 0 <= Average(inv, p);
    }
  }

  lemma {:induction false} ShipCostsNotNegative(t: Tenant, stock: Inventory, lines: seq<InvoiceLine>,
      location: LocationId, number: string, now: int)
    requires CostsNotNegative(t, stock) && Ship(t, stock, lines, location, number, now).Ok?
    requires forall l :: l in lines ==> 0 <= l.baseQty
    ensures 0 <= Ship(t, stock, lines, location, number, now).value.cogs
    decreases |lines|
  {
    if lines != [] {
      if lines[0].product.None? {
        ShipCostsNotNegative(t, stock, lines[1..], location, number, now);
      } else {
        var m := SaleRequest(lines[0], location, number, now);
        var row := AppliedMovement(t, stock, m);
        assert lines[0] in lines;
        IssueKeepsCosts(t, stock, m);
        ShipCostsNotNegative(t, Apply(t, stock, m).value, lines[1..], location, number, now);
      }
    }
  }

  lemma {:induction false} CogsEntryNets(number: string, date: int, cogs: int, account: J.Account)
    ensures J.Net(CogsEntry(number, date, cogs).lines, account)
         == if account == J.Inventory then -cogs else if account == J.Cogs then cogs else 0
  {
    var lines := CogsEntry(number, date, cogs).lines;
    var credit := J.Line(J.Inventory, 0, cogs);
    assert lines[1..] == [credit] && [credit][1..] == [];
    assert J.Net([credit], account) == (if account == J.Inventory then -cogs else 0) + J.Net([], account);
  }

  lemma {:induction false} CogsPosted(books: seq<J.Entry>, number: string, date: int, cogs: int)
    ensures J.LedgerNet(if cogs > 0 then books + [CogsEntry(number, date, cogs)] else books, J.Inventory)
         == J.LedgerNet(books, J.Inventory) - Max(0, cogs)
  {
    CogsEntryNets(number, date, cogs, J.Inventory);
    J.LedgerOfAppend(books, CogsEntry(number, date, cogs));
  }

  /** What posting an invoice's COGS does to Inventory in the general ledger, against what it does to stock:
      they move together exactly when the cost of the goods is not negative, and always when no quantity and
      no cost on file is. */
  lemma {:induction false} IssueMovesLedgerWithStock(t: Tenant, sites: seq<Site>, sys: System, inv: Invoice, now: int)
    requires PostInvoiceCogs(t, sites, sys, inv, now).Ok?
    ensures var after := PostInvoiceCogs(t, sites, sys, inv, now).value;
            var gl := J.LedgerNet(after.books, J.Inventory) - J.LedgerNet(sys.books, J.Inventory);
            var stock := SaleValue(after.stock.movements, inv.number) - SaleValue(sys.stock.movements, inv.number);
            && gl == Min(stock, 0)
            && (gl == stock <==> stock <= 0)
            && (CostsNotNegative(t, sys.stock) && (forall l :: l in inv.lines ==> 0 <= l.baseQty) ==> gl == stock)
  {
    var location := StockLocation(inv.location, sites);
    if HasProductLine(inv.lines) && location.Some? && !J.Exists(sys.books, CogsRef(inv.number)) {
      var s := Ship(t, sys.stock, inv.lines, location.value, inv.number, now).value;
      ShipTotalsItsSales(t, sys.stock, inv.lines, location.value, inv.number, now);
      assert SaleValue(s.stock.movements, inv.number) == SaleValue(sys.stock.movements, inv.number) - s.cogs;
      CogsPosted(sys.books, inv.number, inv.date, s.cogs);
      if CostsNotNegative(t, sys.stock) && forall l :: l in inv.lines ==> 0 <= l.baseQty {
        ShipCostsNotNegative(t, sys.stock, inv.lines, location.value, inv.number, now);
      }
    }
  }

  // ---- Posting the COGS a second time ----

  lemma {:induction false} ShipAppendsRows(t: Tenant, stock: Inventory, lines: seq<InvoiceLine>, location: LocationId,
      number: string, now: int)
    requires Ship(t, stock, lines, location, number, now).Ok?
    ensures var after := Ship(t, stock, lines, location, number, now).value.stock;
            && |stock.movements| <= |after.movements|
            && (HasProductLine(lines) ==> |stock.movements| < |after.movements|)
    decreases |lines|
  {
    if lines != [] {
      assert HasProductLine(lines) && lines[0].product.None? ==> HasProductLine(lines[1..]) by {
        assert forall i :: 1 <= i < |lines| ==> lines[i] == lines[1..][i - 1];
      }
      if lines[0].product.None? {
        ShipAppendsRows(t, stock, lines[1..], location, number, now);
      } else {
        var m := SaleRequest(lines[0], location, number, now);
        var row := AppliedMovement(t, stock, m);
        ShipAppendsRows(t, Apply(t, stock, m).value, lines[1..], location, number, now);
      }
    }
  }

  /** The guard against posting an invoice's COGS twice is the COGS entry itself, and goods that cost nothing
      post none: a second call leaves everything alone exactly when the first found or posted an entry, or had
      no stock to relieve. */
  lemma {:induction false} SecondCogsIsNoopIff(t: Tenant, sites: seq<Site>, sys: System, inv: Invoice, now: int,
      later: int)
    requires PostInvoiceCogs(t, sites, sys, inv, now).Ok?
    ensures var once := PostInvoiceCogs(t, sites, sys, inv, now).value;
            var location := StockLocation(inv.location, sites);
            var relieves := HasProductLine(inv.lines) && location.Some?;
            && (PostInvoiceCogs(t, sites, once, inv, later) == Ok(once)
                <==> !relieves || J.Exists(once.books, CogsRef(inv.number)))
            && (relieves && !J.Exists(sys.books, CogsRef(inv.number)) ==>
                  (J.Exists(once.books, CogsRef(inv.number))
                   <==> 0 < Ship(t, sys.stock, inv.lines, location.value, inv.number, now).value.cogs))
  {
    var once := PostInvoiceCogs(t, sites, sys, inv, now).value;
    var location := StockLocation(inv.location, sites);
    if HasProductLine(inv.lines) && location.Some? {
      if !J.Exists(sys.books, CogsRef(inv.number)) {
        var s := Ship(t, sys.stock, inv.lines, location.value, inv.number, now).value;
        J.LedgerOfAppend(sys.books, CogsEntry(inv.number, inv.date, s.cogs));
      }
      if !J.Exists(once.books, CogsRef(inv.number)) && PostInvoiceCogs(t, sites, once, inv, later).Ok? {
        ShipAppendsRows(t, once.stock, inv.lines, location.value, inv.number, later);
      }
    }
  }

  /** Through its only caller the guard is never put to the test: once an invoice is issued, issuing that number
      again, under whatever status, with whatever lines, changes nothing or is refused. */
  lemma {:induction false} ReissueNeverDoubleCounts(t: Tenant, sites: seq<Site>, storage: J.Storage, sys: System,
      status: InvoiceStatus, inv: Invoice, now: int, again: InvoiceStatus, later: Invoice, at: int)
    requires Issue(t, sites, storage, sys, status, inv, now).Ok?
    requires later.number == inv.number && inv.number != ""
    ensures var once := Issue(t, sites, storage, sys, status, inv, now).value;
            var twice := Issue(t, sites, storage, once, again, later, at);
            if again == Issued || again == Paid then twice == Ok(once)
            else twice == Err(PostingRefused(J.DuplicateRef))
  {
    IssuedIsIssued(t, sites, storage, Issue(t, sites, storage, sys, status, inv, now).value, again, later, at);
  }

  lemma {:induction false} IssuedIsIssued(t: Tenant, sites: seq<Site>, storage: J.Storage, sys: System,
      status: InvoiceStatus, inv: Invoice, now: int)
    requires J.Exists(sys.books, InvoiceRef(inv.number)) && inv.number != ""
    ensures var twice := Issue(t, sites, storage, sys, status, inv, now);
            if status == Issued || status == Paid then twice == Ok(sys)
            else twice == Err(PostingRefused(J.DuplicateRef))
  {
  }

  /** One unit of a product that has cost nothing yet, its COGS posted twice in a row: each call relieves it. */
  lemma {:induction false} ZeroCostCogsRelievesTwice()
    ensures var t := Tenant(map[1 := Product(AVERAGE, false, 0)], false);
            var line := InvoiceLine(Some(1), ONE, Untagged, P.SalesLine(0, 0, 0, 0));
            var inv := Invoice("INV-1", 0, Some(1), [line]);
            var once := PostInvoiceCogs(t, [], System(Empty, []), inv, 0);
            && once.Ok? && OnHand(once.value.stock.balances, Place(1, 1)) == -ONE
            && (var twice := PostInvoiceCogs(t, [], once.value, inv, 1);
                twice.Ok? && OnHand(twice.value.stock.balances, Place(1, 1)) == -2 * ONE)
  {
    var t := Tenant(map[1 := Product(AVERAGE, false, 0)], false);
    var line := InvoiceLine(Some(1), ONE, Untagged, P.SalesLine(0, 0, 0, 0));
    var inv := Invoice("INV-1", 0, Some(1), [line]);
    FreeGoodsShip(t, System(Empty, []), line, inv, 0);
    FreeGoodsShip(t, PostInvoiceCogs(t, [], System(Empty, []), inv, 0).value, line, inv, 1);
  }

  /** A unit of a product whose average is zero goes out at no value. */
  lemma {:induction false} FreeGoodsMove(t: Tenant, stock: Inventory, m: Request)
    requires t == Tenant(map[1 := Product(AVERAGE, false, 0)], false)
    requires m.place == Place(1, 1) && m.qty == -ONE && m.tag == Untagged && m.bin.None? && Average(stock, 1) == 0
    ensures var r := Apply(t, stock, m);
            && r.Ok? && LastValue(r.value) == 0 && Average(r.value, 1) == 0
            && OnHand(r.value.balances, Place(1, 1)) == OnHand(stock.balances, Place(1, 1)) - ONE
  {
    assert MovementProblem(t, stock, m).None?;
    var row := AppliedMovement(t, stock, m);
    PostChangesOneKey(stock.balances, Place(1, 1), -ONE, 0, Place(1, 1));
  }

  lemma {:induction false} FreeGoodsShip(t: Tenant, sys: System, line: InvoiceLine, inv: Invoice, now: int)
    requires t == Tenant(map[1 := Product(AVERAGE, false, 0)], false)
    requires line.product == Some(1) && line.baseQty == ONE && line.tag == Untagged
    requires inv.lines == [line] && inv.location == Some(1)
    requires sys.books == [] && Average(sys.stock, 1) == 0
    ensures var r := PostInvoiceCogs(t, [], sys, inv, now);
            && r.Ok? && r.value.books == [] && Average(r.value.stock, 1) == 0
            && OnHand(r.value.stock.balances, Place(1, 1)) == OnHand(sys.stock.balances, Place(1, 1)) - ONE
  {
    var moved := Apply(t, sys.stock, SaleRequest(line, 1, inv.number, now));
    FreeGoodsMove(t, sys.stock, SaleRequest(line, 1, inv.number, now));
    assert HasProductLine(inv.lines) by { assert inv.lines[0] == line; }
    assert inv.lines[1..] == [] && Ship(t, moved.value, [], 1, inv.number, now) == Ok(Shipment(moved.value, 0));
  }
}
