/** Issuing and cancelling invoices as they run: line by line against the stock tables and the ledger, in one
    transaction over both. */
module InvoiceDesk {
  import opened Records
  import opened Ledger
  import J = Journals
  import opened Invoices
  import GL = GeneralLedger
  import Stockroom

  class Desk {
    const sites: seq<Site>
    const stock: Stockroom.Service
    const books: GL.Books

    constructor (sites: seq<Site>, stock: Stockroom.Service, books: GL.Books)
      ensures this.sites == sites && this.stock == stock && this.books == books
    {
      this.sites, this.stock, this.books := sites, stock, books;
    }

    function State(): System
      reads this, stock, books
    {
      System(stock.Stored(), books.entries)
    }

    method RollBack(saved: System)
      modifies stock, books`entries
      ensures State() == saved
    {
      stock.RollBack(saved.stock);
      books.entries := saved.books;
    }

    /** The loop of `_post_invoice_cogs`. */
    method ShipLines(lines: seq<InvoiceLine>, location: LocationId, number: string, now: int)
      returns (problem: Option<Problem>, cogs: int)
      modifies stock
      ensures match Ship(stock.tenant, old(stock.Stored()), lines, location, number, now)
              case Ok(s) => problem.None? && stock.Stored() == s.stock && cogs == s.cogs
              case Err(e) => problem == Some(e)
    {
      cogs := 0;
      var i := 0;
      ghost var whole := Ship(stock.tenant, stock.Stored(), lines, location, number, now);
      while i < |lines|
        invariant 0 <= i <= |lines|
        invariant whole == Adding(Ship(stock.tenant, stock.Stored(), lines[i..], location, number, now), cogs)
      {
        assert lines[i..][0] == lines[i] && lines[i..][1..] == lines[i + 1..];
        if lines[i].product.Some? {
          var r := stock.ApplyMovement(SaleRequest(lines[i], location, number, now));
          if r.Err? {
            return Some(r.error), cogs;
          }
          cogs := cogs - r.value.value;
        }
        i := i + 1;
      }
      assert lines[i..] == [];
      problem := None;
    }

    /** `_post_invoice_cogs`. */
    method PostInvoiceCogs(inv: Invoice, now: int) returns (failure: Option<Failure>)
      modifies stock, books`entries
      ensures match Invoices.PostInvoiceCogs(stock.tenant, sites, old(State()), inv, now)
              case Ok(after) => failure.None? && State() == after
              case Err(e) => failure == Some(e)
    {
      var location := StockLocation(inv.location, sites);
      if !HasProductLine(inv.lines) || location.None? || J.Exists(books.entries, CogsRef(inv.number)) {
        return None;
      }
      var problem, cogs := ShipLines(inv.lines, location.value, inv.number, now);
      if problem.Some? {
        return Some(StockRefused(problem.value));
      }
      if cogs > 0 {
        var posted := books.PostCogs(inv.number, inv.date, cogs);
      }
      failure := None;
    }

    /** `post_customer_invoice`. */
    method IssueInvoice(status: InvoiceStatus, inv: Invoice, now: int) returns (failure: Option<Failure>)
      modifies stock, books`entries
      ensures match Issue(stock.tenant, sites, books.storage, old(State()), status, inv, now)
              case Ok(after) => failure.None? && State() == after
              case Err(e) => failure == Some(e) && State() == old(State())
    {
      var entry := InvoiceEntry(books.storage, inv);
      if (status == Issued || status == Paid) && J.Exists(books.entries, entry.ref) {
        return None;
      }
      if J.KeepsUnique(entry.ref) && J.Exists(books.entries, entry.ref) {
        return Some(PostingRefused(J.DuplicateRef));
      }
      var saved := State();
      books.entries := books.entries + [entry];
      failure := PostInvoiceCogs(inv, now);
      if failure.None? && !J.Balanced(entry.lines) {
        failure := Some(PostingRefused(J.Unbalanced));
      }
      if failure.Some? {
        RollBack(saved);
      }
    }

    /** The loop of `reverse_invoice_cogs` that brings the goods back. */
    method RestoreSales(sales: seq<Movement>, number: string, now: int) returns (problem: Option<Problem>)
      modifies stock
      ensures match Restore(stock.tenant, old(stock.Stored()), sales, number, now)
              case Ok(after) => problem.None? && stock.Stored() == after
              case Err(e) => problem == Some(e)
    {
      var i := 0;
      ghost var whole := Restore(stock.tenant, stock.Stored(), sales, number, now);
      while i < |sales|
        invariant 0 <= i <= |sales|
        invariant whole == Restore(stock.tenant, stock.Stored(), sales[i..], number, now)
      {
        assert sales[i..][0] == sales[i] && sales[i..][1..] == sales[i + 1..];
        var r := stock.ApplyMovement(ReturnRequest(sales[i], number, now));
        if r.Err? {
          return Some(r.error);
        }
        i := i + 1;
      }
      assert sales[i..] == [];
      problem := None;
    }

    /** `reverse_invoice_cogs`. */
    method CancelInvoice(number: string, today: int, now: int) returns (failure: Option<Failure>)
      modifies stock, books`entries
      ensures match Cancel(stock.tenant, old(State()), number, today, now)
              case Ok(after) => failure.None? && State() == after
              case Err(e) => failure == Some(e) && State() == old(State())
    {
      var saved := State();
      failure := None;
      var cogs := J.Find(books.entries, CogsRef(number));
      if cogs.Some? && !J.Exists(books.entries, CogsCancelRef(number)) {
        books.entries := books.entries + [J.Entry(CogsCancelRef(number), today, J.Reversed(cogs.value.lines))];
      }
      if !AnyWithRef(stock.movements, CancelRef(number)) {
        var problem := RestoreSales(SaleMoves(stock.movements, number), number, now);
        if problem.Some? {
          failure := Some(StockRefused(problem.value));
        }
      }
      if failure.None? && |books.entries| > |saved.books| && !J.Balanced(books.entries[|saved.books|].lines) {
        failure := Some(PostingRefused(J.Unbalanced));
      }
      if failure.Some? {
        RollBack(saved);
      }
    }
  }

  /** A shipment with `cogs` already counted. */
  ghost function Adding(r: Result<Shipment, Problem>, cogs: int): Result<Shipment, Problem> {
    if r.Ok? then Ok(r.value.(cogs := r.value.cogs + cogs)) else r
  }
}
