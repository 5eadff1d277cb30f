/** The reference of a COGS entry is shared by all that sells: invoices, sales orders and synced channel orders. An
    invoice whose number is another sale's reference takes that sale's entry for its own. */
module SharedReferences {
  import opened Records
  import opened Ledger
  import J = Journals
  import P = Posters
  import GL = GeneralLedger
  import opened Invoices
  import opened Cancellation
  import opened ControlAccount

  /** Nothing was ever issued or cancelled under this number. */
  predicate Unused(sys: System, number: string) {
    && !J.Exists(sys.books, InvoiceRef(number)) && !J.Exists(sys.books, CogsCancelRef(number))
    && !AnyWithRef(sys.stock.movements, CancelRef(number)) && SaleMoves(sys.stock.movements, number) == []
  }

  lemma {:induction false} InvoiceLeavesInventory(storage: J.Storage, inv: Invoice)
    ensures J.Net(InvoiceEntry(storage, inv).lines, J.Inventory) == 0
  {
    J.NothingElsewhere(storage, P.CustomerInvoiceLines(SalesLines(inv.lines)), J.Inventory);
  }

  lemma {:induction false} IssueParts(t: Tenant, sites: seq<Site>, storage: J.Storage, sys: System,
      status: InvoiceStatus, inv: Invoice, now: int)
    requires !J.Exists(sys.books, InvoiceRef(inv.number)) && Issue(t, sites, storage, sys, status, inv, now).Ok?
    ensures Issue(t, sites, storage, sys, status, inv, now)
         == PostInvoiceCogs(t, sites, sys.(books := sys.books + [InvoiceEntry(storage, inv)]), inv, now)
  {
  }

  /** The receivable touches neither COGS entries nor Inventory. */
  lemma {:induction false} Billed(storage: J.Storage, books: seq<J.Entry>, inv: Invoice)
    ensures var after := books + [InvoiceEntry(storage, inv)];
            && J.Find(after, CogsRef(inv.number)) == J.Find(books, CogsRef(inv.number))
            && J.Find(after, CogsCancelRef(inv.number)) == J.Find(books, CogsCancelRef(inv.number))
            && J.LedgerNet(after, J.Inventory) == J.LedgerNet(books, J.Inventory)
  {
    J.LedgerOfAppend(books, InvoiceEntry(storage, inv));
    InvoiceLeavesInventory(storage, inv);
  }

  /** What posting the COGS does to the books: nothing over an entry, else its own entry or none. */
  lemma {:induction false} CogsParts(t: Tenant, sites: seq<Site>, sys: System, inv: Invoice, now: int)
    requires PostInvoiceCogs(t, sites, sys, inv, now).Ok?
    ensures var after, entry := PostInvoiceCogs(t, sites, sys, inv, now).value, J.Find(sys.books, CogsRef(inv.number));
            var posted := J.Find(after.books, CogsRef(inv.number));
            && J.Find(after.books, CogsCancelRef(inv.number)) == J.Find(sys.books, CogsCancelRef(inv.number))
            && (entry.Some? ==> after == sys)
            && (entry.None? ==>
                  J.LedgerNet(after.books, J.Inventory) == J.LedgerNet(sys.books, J.Inventory)
                    + (if posted.Some? then J.Net(posted.value.lines, J.Inventory) else 0))
  {
    var location := StockLocation(inv.location, sites);
    if HasProductLine(inv.lines) && location.Some? && !J.Exists(sys.books, CogsRef(inv.number)) {
      var s := Ship(t, sys.stock, inv.lines, location.value, inv.number, now).value;
      J.LedgerOfAppend(sys.books, CogsEntry(inv.number, inv.date, s.cogs));
    }
  }

  /** Cancelling what has shipped nothing moves no stock. */
  lemma {:induction false} NothingToRestore(t: Tenant, sys: System, number: string, today: int, at: int)
    requires SaleMoves(sys.stock.movements, number) == [] && Cancel(t, sys, number, today, at).Ok?
    ensures Cancel(t, sys, number, today, at).value.stock == sys.stock
  {
  }

  /** A new invoice issued and then cancelled leaves Inventory where it was exactly when no COGS entry of any value
      stood under its number before. Where one did, stock never moves and the other sale's entry is undone. */
  lemma {:induction false} IssueThenCancelIff(t: Tenant, sites: seq<Site>, storage: J.Storage, sys: System,
      status: InvoiceStatus, inv: Invoice, now: int, today: int, at: int)
    requires Unused(sys, inv.number) && Issue(t, sites, storage, sys, status, inv, now).Ok?
    requires Cancel(t, Issue(t, sites, storage, sys, status, inv, now).value, inv.number, today, at).Ok?
    ensures var issued := Issue(t, sites, storage, sys, status, inv, now).value;
            var after := Cancel(t, issued, inv.number, today, at).value;
            var entry := J.Find(sys.books, CogsRef(inv.number));
            && (J.LedgerNet(after.books, J.Inventory) == J.LedgerNet(sys.books, J.Inventory)
                <==> entry.None? || J.Net(entry.value.lines, J.Inventory) == 0)
            && (entry.Some? ==>
                  && issued.stock == after.stock == sys.stock
                  && J.LedgerNet(after.books, J.Inventory)
                     == J.LedgerNet(sys.books, J.Inventory) - J.Net(entry.value.lines, J.Inventory))
  {
    var billed := sys.(books := sys.books + [InvoiceEntry(storage, inv)]);
    var issued := PostInvoiceCogs(t, sites, billed, inv, now).value;
    IssueParts(t, sites, storage, sys, status, inv, now);
    Billed(storage, sys.books, inv);
    CogsParts(t, sites, billed, inv, now);
    CancelReversesBooks(t, issued, inv.number, today, at, J.Inventory);
    if J.Exists(sys.books, CogsRef(inv.number)) {
      NothingToRestore(t, issued, inv.number, today, at);
    }
  }

  // ---- A run in which an invoice takes an order's reference ----

  lemma {:induction false} CogsStored(storage: J.Storage, cents: int)
    ensures J.Stored(storage, P.CogsLines(J.Exact(cents))) == P.CogsLines(cents)
  {
    var lines := P.CogsLines(J.Exact(cents));
    assert lines[1..] == [lines[1]] && lines[1..][1..] == [];
    assert J.Stored(storage, [lines[1]]) == [J.Line(J.Inventory, 0, cents)];
  }

  lemma {:induction false} OrderPosts(c: Setting, ref: Ref)
    ensures var order := J.Entry(ref, 0, P.CogsLines(5000));
            Run(c, [PostEntry(P.Gated(ref, 0, P.CogsLines(J.Exact(5000))))]) == System(Empty, [order])
    ensures J.LedgerNet([J.Entry(ref, 0, P.CogsLines(5000))], J.Inventory) == -5000
  {
    var posting := PostEntry(P.Gated(ref, 0, P.CogsLines(J.Exact(5000))));
    var order := J.Entry(ref, 0, P.CogsLines(5000));
    CogsStored(c.storage, 5000);
    GL.CogsLinesNet(5000);
    RunOfAppend(c, [], posting);
    assert [] + [posting] == [posting] && [] + [order] == [order];
    J.LedgerOfAppend([], order);
  }

  lemma {:induction false} OnlyEntry(e: J.Entry)
    ensures forall ref :: J.Find([e], ref) == if e.ref == ref then Some(e) else None
  {
    J.LedgerOfAppend([], e);
    assert [] + [e] == [e];
  }

  lemma {:induction false} IssuedOverOrder(c: Setting, sys: System, inv: Invoice, order: J.Entry)
    requires sys == System(Empty, [order]) && order.ref == CogsRef(inv.number) && inv.number != ""
    requires J.Balanced(InvoiceEntry(c.storage, inv).lines)
    ensures Unused(sys, inv.number) && J.Find(sys.books, CogsRef(inv.number)) == Some(order)
    ensures Issue(c.t, c.sites, c.storage, sys, Issued, inv, 0)
         == Ok(sys.(books := sys.books + [InvoiceEntry(c.storage, inv)]))
  {
    OnlyEntry(order);
    J.LedgerOfAppend(sys.books, InvoiceEntry(c.storage, inv));
  }

  lemma {:induction false} IssueThenCancelSteps(c: Setting, sys: System, inv: Invoice, order: J.Entry)
    requires sys == System(Empty, [order]) && order.ref == CogsRef(inv.number) && inv.number != ""
    requires J.Balanced(order.lines) && J.Balanced(InvoiceEntry(c.storage, inv).lines)
    ensures var after := Step(c, Step(c, sys, IssueInvoice(Issued, inv, 0)), CancelInvoice(inv.number, 0, 0));
            && after.stock == sys.stock
            && J.LedgerNet(after.books, J.Inventory)
               == J.LedgerNet(sys.books, J.Inventory) - J.Net(order.lines, J.Inventory)
  {
    IssuedOverOrder(c, sys, inv, order);
    var issued := Issue(c.t, c.sites, c.storage, sys, Issued, inv, 0).value;
    J.LedgerOfAppend(sys.books, InvoiceEntry(c.storage, inv));
    J.ReversalUndoes(order.lines, J.Inventory);
    assert Cancel(c.t, issued, inv.number, 0, 0).Ok?;
    IssueThenCancelIff(c.t, c.sites, c.storage, sys, Issued, inv, 0, 0, 0);
  }

  /** A sales order has posted the COGS of 50.00 under the reference 1001. An invoice numbered 1001 for one unit is
      issued, and ships nothing; it is cancelled, and Inventory gains 50.00 while stock stays as it was. */
  lemma {:induction false} SharedReferenceParts(storage: J.Storage)
    ensures var c := Setting(A.LooseTenant, [], storage);
            var line := InvoiceLine(Some(1), ONE, Untagged, P.SalesLine(100, 5000, 0, 0));
            var order := PostEntry(P.Gated(CogsRef("1001"), 0, P.CogsLines(J.Exact(5000))));
            var before := Run(c, [order]);
            var after := Run(c, [order, IssueInvoice(Issued, Invoice("1001", 0, Some(1), [line]), 0),
                                 CancelInvoice("1001", 0, 0)]);
            && after.stock == before.stock
            && J.LedgerNet(before.books, J.Inventory) == -5000 && J.LedgerNet(after.books, J.Inventory) == 0
  {
    var c := Setting(A.LooseTenant, [], storage);
    var line := InvoiceLine(Some(1), ONE, Untagged, P.SalesLine(100, 5000, 0, 0));
    var inv := Invoice("1001", 0, Some(1), [line]);
    var order := PostEntry(P.Gated(CogsRef("1001"), 0, P.CogsLines(J.Exact(5000))));
    var issue, cancel := IssueInvoice(Issued, inv, 0), CancelInvoice("1001", 0, 0);
    OrderPosts(c, CogsRef("1001"));
    GL.CogsLinesNet(5000);
    RunOfAppend(c, [order], issue);
    RunOfAppend(c, [order, issue], cancel);
    assert [order] + [issue] == [order, issue] && [order, issue] + [cancel] == [order, issue, cancel];
    PlainInvoiceBalances(storage, line, inv);
    IssueThenCancelSteps(c, Run(c, [order]), inv, J.Entry(CogsRef("1001"), 0, P.CogsLines(5000)));
  }
}
