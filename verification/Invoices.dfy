/** Issuing a customer invoice and cancelling it: stock and general ledger move together.
    Both run in one transaction, so a refusal anywhere leaves stock and ledger as they were. */
module Invoices {
  import opened Records
  import opened Ledger
  import J = Journals
  import P = Posters

  /** A line's stock side (its quantity already in the product's base unit) and its sales side. */
  datatype InvoiceLine = InvoiceLine(product: Option<ProductId>, baseQty: int, tag: Tag, sales: P.SalesLine)

  datatype Invoice = Invoice(number: string, date: int, location: Option<LocationId>, lines: seq<InvoiceLine>)

  /** A tenant's location, in id order. */
  datatype Site = Site(id: LocationId, isWarehouse: bool)

  datatype System = System(stock: Inventory, books: seq<J.Entry>)

  datatype Failure = StockRefused(problem: Problem) | PostingRefused(refusal: J.Refusal)

  function InvoiceRef(number: string): Ref { Ref(AR_INVOICE, number) }
  function CancelRef(number: string): Ref { Ref(AR_INVOICE_CANCEL, number) }
  function CogsRef(number: string): Ref { Ref(COGS, number) }
  function CogsCancelRef(number: string): Ref { Ref(COGS_CANCEL, number) }

  function FirstWarehouse(sites: seq<Site>): Option<LocationId> {
    if sites == [] then None
    else if sites[0].isWarehouse then Some(sites[0].id) else FirstWarehouse(sites[1..])
  }

  /** The invoice's own location, else the first warehouse, else the first location there is. */
  function StockLocation(own: Option<LocationId>, sites: seq<Site>): Option<LocationId> {
    if own.Some? then own
    else if FirstWarehouse(sites).Some? then FirstWarehouse(sites)
    else if sites != [] then Some(sites[0].id) else None
  }

  predicate HasProductLine(lines: seq<InvoiceLine>) {
    exists i :: 0 <= i < |lines| && lines[i].product.Some?
  }

  function SaleRequest(l: InvoiceLine, location: LocationId, number: string, now: int): Request
    requires l.product.Some?
  {
    Request(Sale, Place(l.product.value, location), None, l.tag, -l.baseQty, None, InvoiceRef(number), now)
  }

  /** The value of the latest ledger row. */
  function LastValue(inv: Inventory): int {
    if inv.movements == [] then 0 else inv.movements[|inv.movements| - 1].value
  }

  datatype Shipment = Shipment(stock: Inventory, cogs: int)

  /** Relieve stock line by line, totalling the cost of goods sold. */
  function Ship(t: Tenant, stock: Inventory, lines: seq<InvoiceLine>, location: LocationId, number: string, now: int)
    : Result<Shipment, Problem>
    decreases |lines|
  {
    if lines == [] then Ok(Shipment(stock, 0))
    else if lines[0].product.None? then Ship(t, stock, lines[1..], location, number, now)
    else
      var moved := Apply(t, stock, SaleRequest(lines[0], location, number, now));
      if moved.Err? then Err(moved.error)
      else
        var rest := Ship(t, moved.value, lines[1..], location, number, now);
        if rest.Err? then rest
        else Ok(rest.value.(cogs := rest.value.cogs - LastValue(moved.value)))
  }

  function CogsEntry(number: string, date: int, cogs: int): J.Entry {
    J.Entry(CogsRef(number), date, P.CogsLines(cogs))
  }

  function PostInvoiceCogs(t: Tenant, sites: seq<Site>, sys: System, inv: Invoice, now: int)
    : Result<System, Failure>
  {
    var location := StockLocation(inv.location, sites);
    if !HasProductLine(inv.lines) || location.None? || J.Exists(sys.books, CogsRef(inv.number)) then Ok(sys)
    else
      var shipped := Ship(t, sys.stock, inv.lines, location.value, inv.number, now);
      if shipped.Err? then Err(StockRefused(shipped.error))
      else
        Ok(System(shipped.value.stock,
                  if shipped.value.cogs > 0
                  then sys.books + [CogsEntry(inv.number, inv.date, shipped.value.cogs)] else sys.books))
  }

  function SalesLines(lines: seq<InvoiceLine>): seq<P.SalesLine> {
    if lines == [] then [] else [lines[0].sales] + SalesLines(lines[1..])
  }

  function InvoiceEntry(storage: J.Storage, inv: Invoice): J.Entry {
    J.Entry(InvoiceRef(inv.number), inv.date, J.Stored(storage, P.CustomerInvoiceLines(SalesLines(inv.lines))))
  }

  /** `post_customer_invoice`, through its gate. */
  function Issue(t: Tenant, sites: seq<Site>, storage: J.Storage, sys: System, status: InvoiceStatus, inv: Invoice,
      now: int): Result<System, Failure>
  {
    var entry := InvoiceEntry(storage, inv);
    if (status == Issued || status == Paid) && J.Exists(sys.books, entry.ref) then Ok(sys)
    else
      var created := J.Create(sys.books, entry);
      if created.Err? then Err(PostingRefused(created.error))
      else
        var shipped := PostInvoiceCogs(t, sites, sys.(books := created.value), inv, now);
        if shipped.Ok? && !J.Balanced(entry.lines) then Err(PostingRefused(J.Unbalanced)) else shipped
  }

  predicate IsSaleOf(m: Movement, number: string) {
    m.ref == InvoiceRef(number) && m.kind == Sale
  }

  function SaleMoves(ms: seq<Movement>, number: string): seq<Movement> {
    if ms == [] then []
    else SaleMoves(ms[..|ms| - 1], number) + (if IsSaleOf(ms[|ms| - 1], number) then [ms[|ms| - 1]] else [])
  }

  predicate AnyWithRef(ms: seq<Movement>, ref: Ref) {
    exists i :: 0 <= i < |ms| && ms[i].ref == ref
  }

  function ReturnRequest(m: Movement, number: string, now: int): Request {
    Request(Return, m.place, None, m.tag, -m.qty, m.unitCost, CancelRef(number), now)
  }

  /** Bring back each sale, at the unit cost it was relieved at and to the place it left. */
  function Restore(t: Tenant, stock: Inventory, sales: seq<Movement>, number: string, now: int)
    : Result<Inventory, Problem>
    decreases |sales|
  {
    if sales == [] then Ok(stock)
    else
      var moved := Apply(t, stock, ReturnRequest(sales[0], number, now));
      if moved.Err? then moved else Restore(t, moved.value, sales[1..], number, now)
  }

  /** The books after the COGS entry is reversed, once. */
  function ReverseCogs(books: seq<J.Entry>, number: string, today: int): seq<J.Entry> {
    var cogs := J.Find(books, CogsRef(number));
    if cogs.Some? && !J.Exists(books, CogsCancelRef(number))
    then books + [J.Entry(CogsCancelRef(number), today, J.Reversed(cogs.value.lines))] else books
  }

  /** `reverse_invoice_cogs`, through its gate. */
  function Cancel(t: Tenant, sys: System, number: string, today: int, now: int): Result<System, Failure> {
    var books := ReverseCogs(sys.books, number, today);
    var restored := if AnyWithRef(sys.stock.movements, CancelRef(number)) then Ok(sys.stock)
                    else Restore(t, sys.stock, SaleMoves(sys.stock.movements, number), number, now);
    if restored.Err? then Err(StockRefused(restored.error))
    else if |books| > |sys.books| && !J.Balanced(books[|sys.books|].lines) then Err(PostingRefused(J.Unbalanced))
    else Ok(System(restored.value, books))
  }
}
