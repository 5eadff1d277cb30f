/** The rows and entries that issuing and cancelling an invoice add, told from the invoice. */
module InvoiceRows {
  import opened Records
  import opened Ledger
  import J = Journals
  import P = Posters
  import opened Invoices
  import opened StockAndBooks
  import opened Movements

  // ---- Where an invoice ships from ----

  /** The location to ship from is the invoice's own, else that of the first warehouse, else the first there is. */
  lemma {:induction false} ShipsFrom(own: Option<LocationId>, sites: seq<Site>)
    ensures match own
            case Some(location) => StockLocation(own, sites) == own
            case None =>
              || (sites == [] && StockLocation(own, sites) == None)
              || (sites != [] && (forall i :: 0 <= i < |sites| ==> !sites[i].isWarehouse)
                  && StockLocation(own, sites) == Some(sites[0].id))
              || (exists i :: 0 <= i < |sites| && FirstWarehouseAt(sites, i)
                           && StockLocation(own, sites) == Some(sites[i].id))
  {
    if own.None? {
      FirstWarehouseIs(sites);
    }
  }

  ghost predicate FirstWarehouseAt(sites: seq<Site>, i: nat)
    requires i < |sites|
  {
    sites[i].isWarehouse && forall j :: 0 <= j < i ==> !sites[j].isWarehouse
  }

  lemma {:induction false} FirstWarehouseIs(sites: seq<Site>)
    ensures FirstWarehouse(sites).None? ==> forall i :: 0 <= i < |sites| ==> !sites[i].isWarehouse
    ensures FirstWarehouse(sites).Some? ==>
      exists i :: 0 <= i < |sites| && FirstWarehouseAt(sites, i) && FirstWarehouse(sites) == Some(sites[i].id)
  {
    if sites != [] {
      if sites[0].isWarehouse {
        assert FirstWarehouseAt(sites, 0);
      } else {
        FirstWarehouseIs(sites[1..]);
        if FirstWarehouse(sites[1..]).Some? {
          var i :| 0 <= i < |sites[1..]| && FirstWarehouseAt(sites[1..], i)
                && FirstWarehouse(sites[1..]) == Some(sites[1..][i].id);
          assert forall j :: 1 <= j < |sites| ==> sites[j] == sites[1..][j - 1];
          assert FirstWarehouseAt(sites, i + 1) && sites[i + 1] == sites[1..][i];
        } else {
          assert forall j :: 1 <= j < |sites| ==> sites[j] == sites[1..][j - 1];
        }
      }
    }
  }

  // ---- What a shipment adds to the ledger ----

  /** The lines that name a product, in order. */
  function ProductLines(lines: seq<InvoiceLine>): seq<InvoiceLine> {
    if lines == [] then []
    else (if lines[0].product.Some? then [lines[0]] else []) + ProductLines(lines[1..])
  }

  /** A sale of this line's product, lot and serial, of its quantity, from this location under this number. */
  predicate Sells(row: Movement, l: InvoiceLine, location: LocationId, number: string, now: int) {
    && row.kind == Sale && l.product == Some(row.place.product) && row.place.location == location
    && row.tag == l.tag && row.bin.None? && row.qty == 0 - l.baseQty
    && row.ref.kind == AR_INVOICE && row.ref.id == number && row.at == now
  }

  /** These rows sell those lines, one each, in order. */
  ghost predicate AllSold(rows: seq<Movement>, lines: seq<InvoiceLine>, location: LocationId, number: string,
      now: int)
  {
    |rows| == |lines| && forall i :: 0 <= i < |lines| ==> Sells(rows[i], lines[i], location, number, now)
  }

  lemma {:induction false} SoldRow(t: Tenant, stock: Inventory, l: InvoiceLine, location: LocationId,
      number: string, now: int) returns (row: Movement)
    requires l.product.Some? && Apply(t, stock, SaleRequest(l, location, number, now)).Ok?
    ensures Apply(t, stock, SaleRequest(l, location, number, now)).value.movements == stock.movements + [row]
    ensures Sells(row, l, location, number, now)
  {
    row := AppliedMovement(t, stock, SaleRequest(l, location, number, now));
  }

  lemma {:induction false} OneMoreSold(before: seq<Movement>, row: Movement, rest: seq<Movement>,
      lines: seq<InvoiceLine>, location: LocationId, number: string, now: int)
    requires lines != [] && lines[0].product.Some? && Sells(row, lines[0], location, number, now)
    requires AllSold(rest, ProductLines(lines[1..]), location, number, now)
    ensures AllSold([row] + rest, ProductLines(lines), location, number, now)
    ensures before + [row] + rest == before + ([row] + rest)
  {
    assert ProductLines(lines) == [lines[0]] + ProductLines(lines[1..]);
  }

  /** A shipment adds one sale per product line, in line order, and nothing else. */
  lemma {:induction false} ShipSellsLines(t: Tenant, stock: Inventory, lines: seq<InvoiceLine>, location: LocationId,
      number: string, now: int) returns (rows: seq<Movement>)
    requires Ship(t, stock, lines, location, number, now).Ok?
    ensures Ship(t, stock, lines, location, number, now).value.stock.movements == stock.movements + rows
    ensures AllSold(rows, ProductLines(lines), location, number, now)
    decreases |lines|
  {
    if lines == [] {
      rows := [];
    } else if lines[0].product.None? {
      rows := ShipSellsLines(t, stock, lines[1..], location, number, now);
    } else {
      var next := Apply(t, stock, SaleRequest(lines[0], location, number, now)).value;
      var row := SoldRow(t, stock, lines[0], location, number, now);
      var rest := ShipSellsLines(t, next, lines[1..], location, number, now);
      rows := [row] + rest;
      OneMoreSold(stock.movements, row, rest, lines, location, number, now);
    }
  }

  /** Posting an invoice's COGS for the first time: when what was sold cost anything, one entry under its number and on
      its date moves that from Inventory to COGS. */
  lemma {:induction false} CogsOfSold(t: Tenant, sites: seq<Site>, sys: System, inv: Invoice, now: int,
      account: J.Account)
    requires PostInvoiceCogs(t, sites, sys, inv, now).Ok? && J.Find(sys.books, Ref(COGS, inv.number)).None?
    ensures var after := PostInvoiceCogs(t, sites, sys, inv, now).value;
            var cost := SaleValue(sys.stock.movements, inv.number) - SaleValue(after.stock.movements, inv.number);
            var entry := J.Find(after.books, Ref(COGS, inv.number));
            && (cost <= 0 ==> after.books == sys.books)
            && (cost > 0 ==>
                  && |after.books| == |sys.books| + 1 && after.books[..|sys.books|] == sys.books
                  && entry == Some(after.books[|sys.books|]) && entry.value.date == inv.date
                  && J.Net(entry.value.lines, account)
                     == match account case Cogs => cost case Inventory => 0 - cost case _ => 0)
  {
    var location := StockLocation(inv.location, sites);
    if HasProductLine(inv.lines) && location.Some? {
      var s := Ship(t, sys.stock, inv.lines, location.value, inv.number, now).value;
      ShipTotalsItsSales(t, sys.stock, inv.lines, location.value, inv.number, now);
      assert SaleValue(s.stock.movements, inv.number) == SaleValue(sys.stock.movements, inv.number) - s.cogs;
      CogsEntryNets(inv.number, inv.date, s.cogs, account);
      J.LedgerOfAppend(sys.books, CogsEntry(inv.number, inv.date, s.cogs));
    }
  }

  /** Whether an invoice ships: a line of it names a product, there is somewhere to ship from, and its COGS was not
      posted before. */
  predicate Ships(sites: seq<Site>, books: seq<J.Entry>, inv: Invoice) {
    && (exists l :: l in inv.lines && l.product.Some?)
    && StockLocation(inv.location, sites).Some? && J.Find(books, Ref(COGS, inv.number)).None?
  }

  lemma {:induction false} ReceivableHidesNoCogs(storage: J.Storage, books: seq<J.Entry>, inv: Invoice)
    ensures J.Find(books + [InvoiceEntry(storage, inv)], Ref(COGS, inv.number)) == J.Find(books, Ref(COGS, inv.number))
  {
    J.LedgerOfAppend(books, InvoiceEntry(storage, inv));
  }

  lemma {:induction false} CogsShipsLines(t: Tenant, sites: seq<Site>, sys: System, inv: Invoice, now: int)
    returns (rows: seq<Movement>)
    requires PostInvoiceCogs(t, sites, sys, inv, now).Ok?
    ensures var after := PostInvoiceCogs(t, sites, sys, inv, now).value;
            && after.stock.movements == sys.stock.movements + rows
            && (if Ships(sites, sys.books, inv)
                then AllSold(rows, ProductLines(inv.lines), StockLocation(inv.location, sites).value, inv.number, now)
                else rows == [] && after == sys)
  {
    if Ships(sites, sys.books, inv) {
      rows := ShipSellsLines(t, sys.stock, inv.lines, StockLocation(inv.location, sites).value, inv.number, now);
    } else {
      rows := [];
      assert sys.stock.movements + [] == sys.stock.movements;
    }
  }

  /** Issuing a new invoice that ships sells its product lines, one sale each, in line order; one that does not ship
      leaves stock alone. */
  lemma {:induction false} IssueSellsLines(t: Tenant, sites: seq<Site>, storage: J.Storage, sys: System,
      status: InvoiceStatus, inv: Invoice, now: int) returns (rows: seq<Movement>)
    requires Issue(t, sites, storage, sys, status, inv, now).Ok?
    requires J.Find(sys.books, Ref(AR_INVOICE, inv.number)).None?
    ensures var after := Issue(t, sites, storage, sys, status, inv, now).value;
            && after.stock.movements == sys.stock.movements + rows
            && (if Ships(sites, sys.books, inv)
                then AllSold(rows, ProductLines(inv.lines), StockLocation(inv.location, sites).value, inv.number, now)
                else rows == [] && after.stock == sys.stock)
  {
    ReceivableHidesNoCogs(storage, sys.books, inv);
    rows := CogsShipsLines(t, sites, sys.(books := sys.books + [InvoiceEntry(storage, inv)]), inv, now);
  }

  /** A new invoice is refused only when its entry is out of balance once stored, or a sale it ships is refused. */
  lemma {:induction false} IssueAcceptedIff(t: Tenant, sites: seq<Site>, storage: J.Storage, sys: System,
      status: InvoiceStatus, inv: Invoice, now: int)
    requires J.Find(sys.books, Ref(AR_INVOICE, inv.number)).None?
    ensures Issue(t, sites, storage, sys, status, inv, now).Ok? <==>
      && J.Balanced(J.Stored(storage, P.CustomerInvoiceLines(SalesLines(inv.lines))))
      && (Ships(sites, sys.books, inv) ==>
            Ship(t, sys.stock, inv.lines, StockLocation(inv.location, sites).value, inv.number, now).Ok?)
  {
    ReceivableHidesNoCogs(storage, sys.books, inv);
  }

  // ---- What a cancellation adds ----

  /** A return of what this sale took, to where it took it from, under the cancelled invoice's number. */
  predicate Returns(row: Movement, sale: Movement, number: string, now: int) {
    && row.kind == Return && row.place == sale.place && row.tag == sale.tag && row.bin.None?
    && row.qty == 0 - sale.qty && row.ref.kind == AR_INVOICE_CANCEL && row.ref.id == number && row.at == now
  }

  /** It comes in at the unit cost the sale went out at, unless its product is kept at standard cost. */
  predicate AtItsCost(t: Tenant, row: Movement, sale: Movement) {
    (&& sale.qty < 0 && sale.unitCost.Some? && sale.place.product in t.products
     && t.products[sale.place.product].costMethod != STANDARD)
    ==> row.unitCost == sale.unitCost
  }

  lemma {:induction false} ReturnedRow(t: Tenant, stock: Inventory, sale: Movement, number: string, now: int)
    returns (row: Movement)
    requires Apply(t, stock, ReturnRequest(sale, number, now)).Ok?
    ensures Apply(t, stock, ReturnRequest(sale, number, now)).value.movements == stock.movements + [row]
    ensures Returns(row, sale, number, now) && AtItsCost(t, row, sale)
  {
    var m := ReturnRequest(sale, number, now);
    row := AppliedMovement(t, stock, m);
    if m.qty > 0 && t.products[m.place.product].costMethod != STANDARD {
      ReceiptComesInAt(t, stock, m);
    }
  }

  /** These rows return those sales, one each, in order, at their costs. */
  ghost predicate AllReturned(t: Tenant, rows: seq<Movement>, sales: seq<Movement>, number: string, now: int) {
    |rows| == |sales| && forall i :: 0 <= i < |sales| ==>
      Returns(rows[i], sales[i], number, now) && AtItsCost(t, rows[i], sales[i])
  }

  lemma {:induction false} OneMoreReturned(t: Tenant, before: seq<Movement>, row: Movement, rest: seq<Movement>,
      sales: seq<Movement>, number: string, now: int)
    requires sales != [] && Returns(row, sales[0], number, now) && AtItsCost(t, row, sales[0])
    requires AllReturned(t, rest, sales[1..], number, now)
    ensures AllReturned(t, [row] + rest, sales, number, now)
    ensures before + [row] + rest == before + ([row] + rest)
  {
    forall i | 0 <= i < |sales|
      ensures Returns(([row] + rest)[i], sales[i], number, now) && AtItsCost(t, ([row] + rest)[i], sales[i])
    {
      if i > 0 {
        assert sales[i] == sales[1..][i - 1] && ([row] + rest)[i] == rest[i - 1];
      }
    }
  }

  /** Restoring sales adds one return per sale, in order, each at the cost of its sale, and nothing else. */
  lemma {:induction false} RestoreReturnsSales(t: Tenant, stock: Inventory, sales: seq<Movement>, number: string,
      now: int) returns (rows: seq<Movement>)
    requires Restore(t, stock, sales, number, now).Ok?
    ensures Restore(t, stock, sales, number, now).value.movements == stock.movements + rows
    ensures AllReturned(t, rows, sales, number, now)
    decreases |sales|
  {
    if sales == [] {
      rows := [];
    } else {
      var row := ReturnedRow(t, stock, sales[0], number, now);
      var next := Apply(t, stock, ReturnRequest(sales[0], number, now)).value;
      var rest := RestoreReturnsSales(t, next, sales[1..], number, now);
      rows := [row] + rest;
      OneMoreReturned(t, stock.movements, row, rest, sales, number, now);
    }
  }

  /** Cancelling posts at most one entry, the COGS entry with its sides swapped, on the day it is cancelled. */
  lemma {:induction false} CancelPosts(t: Tenant, sys: System, number: string, today: int, now: int,
      account: J.Account)
    requires Cancel(t, sys, number, today, now).Ok?
    ensures var after := Cancel(t, sys, number, today, now).value;
            var cogs := J.Find(sys.books, Ref(COGS, number));
            if cogs.None? || J.Find(sys.books, Ref(COGS_CANCEL, number)).Some? then after.books == sys.books
            else
              && |after.books| == |sys.books| + 1 && after.books[..|sys.books|] == sys.books
              && (var e := after.books[|sys.books|];
                  && e.ref == Ref(COGS_CANCEL, number) && e.date == today
                  && J.Net(e.lines, account) == -J.Net(cogs.value.lines, account))
  {
    var cogs := J.Find(sys.books, Ref(COGS, number));
    if cogs.Some? {
      J.ReversalUndoes(cogs.value.lines, account);
    }
  }
}
