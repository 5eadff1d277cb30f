/** The inventory control account over whole runs: what the COGS journals posted to Inventory, with what invoices
    sold without posting any, is what the invoices' movements took from stock. */
module ControlAccount {
  import opened Rounding
  import opened Records
  import opened Ledger
  import A = AverageCosting
  import R = Runs
  import J = Journals
  import P = Posters
  import opened Invoices
  import opened StockAndBooks
  import opened Cancellation

  datatype SystemOp =
    | IssueInvoice(status: InvoiceStatus, invoice: Invoice, at: int)
    | CancelInvoice(number: string, today: int, at: int)
    | StockOp(op: R.Op)
    | PostEntry(posting: P.Posting)

  datatype Setting = Setting(t: Tenant, sites: seq<Site>, storage: J.Storage)

  function OrKeep(r: Result<System, Failure>, sys: System): System {
    if r.Ok? then r.value else sys
  }

  function Step(c: Setting, sys: System, op: SystemOp): System {
    match op
    case IssueInvoice(status, invoice, at) => OrKeep(Issue(c.t, c.sites, c.storage, sys, status, invoice, at), sys)
    case CancelInvoice(number, today, at) => OrKeep(Cancel(c.t, sys, number, today, at), sys)
    case StockOp(o) => sys.(stock := R.Step(c.t, sys.stock, o))
    case PostEntry(p) => sys.(books := P.PostOne(c.storage, sys.books, p))
  }

  const Start := System(Empty, [])

  function Run(c: Setting, ops: seq<SystemOp>): System {
    if ops == [] then Start else Step(c, Run(c, ops[..|ops| - 1]), ops[|ops| - 1])
  }

  /** The COGS entry, or its reversal, of one of these invoices. */
  predicate IsCogsOf(ours: set<string>, ref: Ref) {
    (ref.kind == COGS || ref.kind == COGS_CANCEL) && ref.id in ours
  }

  /** Invoices are issued and cancelled under the numbers `ours`, and are of non-negative quantities; whatever else
      posts cost of goods sold does so under other numbers, and only invoices make movements of invoices. */
  predicate Proper(ours: set<string>, op: SystemOp) {
    match op
    case IssueInvoice(_, inv, _) =>
      inv.number in ours && inv.number != "" && forall l :: l in inv.lines ==> 0 <= l.baseQty
    case CancelInvoice(number, _, _) => number in ours
    case StockOp(o) => o.Move? ==> o.m.ref.kind != AR_INVOICE && o.m.ref.kind != AR_INVOICE_CANCEL
    case PostEntry(p) => !IsCogsOf(ours, p.ref)
  }

  predicate AllProper(ours: set<string>, ops: seq<SystemOp>) {
    forall op :: op in ops ==> Proper(ours, op)
  }

  /** What the COGS journals of these invoices and their reversals posted to Inventory. */
  function CogsNet(ours: set<string>, books: seq<J.Entry>): int {
    if books == [] then 0
    else
      var e := books[|books| - 1];
      CogsNet(ours, books[..|books| - 1]) + (if IsCogsOf(ours, e.ref) then J.Net(e.lines, J.Inventory) else 0)
  }

  /** The slack the cancellations so far may have left. */
  function CancelSlack(t: Tenant, ms: seq<Movement>): int {
    if ms == [] then 0
    else
      var m := ms[|ms| - 1];
      CancelSlack(t, ms[..|ms| - 1]) + (if m.ref.kind == AR_INVOICE_CANCEL then ReturnSlack(t, m) else 0)
  }

  // ---- One invoice at a time ----

  predicate Reversed(sys: System, number: string) {
    J.Exists(sys.books, CogsCancelRef(number))
  }

  predicate Restored(sys: System, number: string) {
    AnyWithRef(sys.stock.movements, CancelRef(number))
  }

  /** An invoice whose sales have no COGS entry to carry their value and have not come back. */
  predicate Open(sys: System, number: string) {
    !J.Exists(sys.books, CogsRef(number)) && !Restored(sys, number)
  }

  /** The value of the open invoices' sales among `ms`. */
  function OpenValue(ours: set<string>, ms: seq<Movement>, sys: System): int {
    if ms == [] then 0
    else
      var m := ms[|ms| - 1];
      OpenValue(ours, ms[..|ms| - 1], sys)
      + (if IsSaleOf(m, m.ref.id) && m.ref.id in ours && Open(sys, m.ref.id) then m.value else 0)
  }

  /** What the ledger says was sold and the books say nothing of. */
  function Unbooked(ours: set<string>, sys: System): int {
    OpenValue(ours, sys.stock.movements, sys)
  }

  /** The books, with what was sold and never booked, less what the invoices' movements are worth. */
  function Gap(ours: set<string>, sys: System): int {
    CogsNet(ours, sys.books) + Unbooked(ours, sys) - InvoiceValue(sys.stock.movements)
  }

  ghost predicate InStep(ours: set<string>, t: Tenant, sys: System) {
    TwoMillionths(Gap(ours, sys)) <= CancelSlack(t, sys.stock.movements)
  }

  /** Nothing was sold unbooked, and no invoice is open with a value of its own. */
  ghost predicate Settled(ours: set<string>, sys: System) {
    Unbooked(ours, sys) == 0 && forall n :: n in ours && Open(sys, n) ==> SaleValue(sys.stock.movements, n) == 0
  }

  /** The goods an invoice would ship now do not cost less than nothing. */
  predicate ShipsAtCost(c: Setting, stock: Inventory, inv: Invoice, at: int) {
    var location := StockLocation(inv.location, c.sites);
    HasProductLine(inv.lines) && location.Some? ==>
      var shipped := Ship(c.t, stock, inv.lines, location.value, inv.number, at);
      shipped.Ok? ==> 0 <= shipped.value.cogs
  }

  predicate AtCost(c: Setting, sys: System, op: SystemOp) {
    op.IssueInvoice? ==> ShipsAtCost(c, sys.stock, op.invoice, op.at)
  }

  predicate AllAtCost(c: Setting, ops: seq<SystemOp>) {
    ops == [] ||
    (AllAtCost(c, ops[..|ops| - 1]) && AtCost(c, Run(c, ops[..|ops| - 1]), ops[|ops| - 1]))
  }

  /** The COGS entry of an invoice, where there is one, carries the value of its sales, and both sides are undone
      together; and nothing of an invoice exists before its receivable does. */
  ghost predicate InvoiceSound(t: Tenant, sys: System, n: string) {
    var cogs, sold := J.Find(sys.books, CogsRef(n)), SaleValue(sys.stock.movements, n);
    && Returnable(t, SaleMoves(sys.stock.movements, n))
    && (cogs.Some? ==> sold == J.Net(cogs.value.lines, J.Inventory))
    && (Reversed(sys, n) ==> cogs.Some? && (Restored(sys, n) || sold == 0))
    && (cogs.Some? && Restored(sys, n) ==> Reversed(sys, n) || sold == 0)
    && (cogs.Some? || Restored(sys, n) || SaleMoves(sys.stock.movements, n) != [] ==>
          J.Exists(sys.books, InvoiceRef(n)))
  }

  ghost predicate Sound(ours: set<string>, t: Tenant, sys: System) {
    && CostsMatch(t, sys.stock)
    && InStep(ours, t, sys)
    && forall n :: n in ours ==> InvoiceSound(t, sys, n)
  }

  // ---- The value of open invoices ----

  lemma {:induction false} OpenValueAlike(ours: set<string>, ms: seq<Movement>, a: System, b: System)
    requires forall n :: n in ours ==> (Open(a, n) <==> Open(b, n))
    ensures OpenValue(ours, ms, a) == OpenValue(ours, ms, b)
  {
    if ms != [] {
      OpenValueAlike(ours, ms[..|ms| - 1], a, b);
    }
  }

  /** Closing one invoice takes its sales out. */
  lemma {:induction false} OpenValueLessOne(ours: set<string>, ms: seq<Movement>, a: System, b: System, number: string)
    requires number in ours && Open(a, number) && !Open(b, number)
    requires forall n :: n in ours && n != number ==> (Open(a, n) <==> Open(b, n))
    ensures OpenValue(ours, ms, b) == OpenValue(ours, ms, a) - SaleValue(ms, number)
  {
    if ms != [] {
      OpenValueLessOne(ours, ms[..|ms| - 1], a, b, number);
    }
  }

  lemma {:induction false} OpenValueOfRow(ours: set<string>, ms: seq<Movement>, row: Movement, sys: System)
    ensures OpenValue(ours, ms + [row], sys)
         == OpenValue(ours, ms, sys)
            + (if IsSaleOf(row, row.ref.id) && row.ref.id in ours && Open(sys, row.ref.id) then row.value else 0)
  {
    assert (ms + [row])[..|ms|] == ms;
  }

  lemma {:induction false} ShipMovesOpenValue(ours: set<string>, t: Tenant, stock: Inventory, lines: seq<InvoiceLine>,
      location: LocationId, number: string, now: int, sys: System)
    requires Ship(t, stock, lines, location, number, now).Ok?
    ensures var s := Ship(t, stock, lines, location, number, now).value;
            OpenValue(ours, s.stock.movements, sys)
            == OpenValue(ours, stock.movements, sys) - (if number in ours && Open(sys, number) then s.cogs else 0)
    decreases |lines|
  {
    if lines != [] {
      if lines[0].product.None? {
        ShipMovesOpenValue(ours, t, stock, lines[1..], location, number, now, sys);
      } else {
        var m := SaleRequest(lines[0], location, number, now);
        var row := AppliedMovement(t, stock, m);
        OpenValueOfRow(ours, stock.movements, row, sys);
        ShipMovesOpenValue(ours, t, Apply(t, stock, m).value, lines[1..], location, number, now, sys);
      }
    }
  }

  lemma {:induction false} RestoreKeepsOpenValue(ours: set<string>, t: Tenant, stock: Inventory, sales: seq<Movement>,
      number: string, now: int, sys: System)
    requires Restore(t, stock, sales, number, now).Ok?
    ensures OpenValue(ours, Restore(t, stock, sales, number, now).value.movements, sys)
         == OpenValue(ours, stock.movements, sys)
    decreases |sales|
  {
    if sales != [] {
      var m := ReturnRequest(sales[0], number, now);
      var row := AppliedMovement(t, stock, m);
      OpenValueOfRow(ours, stock.movements, row, sys);
      RestoreKeepsOpenValue(ours, t, Apply(t, stock, m).value, sales[1..], number, now, sys);
    }
  }

  // ---- What leaves invoices alone ----

  /** The ledger says the same of every invoice in both states. */
  ghost predicate SameInvoices(t: Tenant, a: seq<Movement>, b: seq<Movement>) {
    && InvoiceValue(b) == InvoiceValue(a) && CancelSlack(t, b) == CancelSlack(t, a)
    && (forall n :: SaleValue(b, n) == SaleValue(a, n))
    && (forall n :: SaleMoves(b, n) == SaleMoves(a, n))
    && (forall n :: AnyWithRef(b, CancelRef(n)) <==> AnyWithRef(a, CancelRef(n)))
  }

  ghost predicate SameEntries(ours: set<string>, a: seq<J.Entry>, b: seq<J.Entry>) {
    && CogsNet(ours, b) == CogsNet(ours, a)
    && (forall n :: n in ours ==> J.Find(b, CogsRef(n)) == J.Find(a, CogsRef(n)))
    && (forall n :: n in ours ==> J.Find(b, CogsCancelRef(n)) == J.Find(a, CogsCancelRef(n)))
    && (forall n :: J.Exists(a, InvoiceRef(n)) ==> J.Exists(b, InvoiceRef(n)))
  }

  lemma {:induction false} SameKeepsSound(ours: set<string>, t: Tenant, a: System, b: System)
    requires Sound(ours, t, a) && CostsMatch(t, b.stock)
    requires SameInvoices(t, a.stock.movements, b.stock.movements) && SameEntries(ours, a.books, b.books)
    requires OpenValue(ours, b.stock.movements, a) == Unbooked(ours, a)
    ensures Sound(ours, t, b) && (Settled(ours, a) ==> Settled(ours, b))
  {
    OpenValueAlike(ours, b.stock.movements, a, b);
    forall n | n in ours ensures InvoiceSound(t, b, n) {
      assert InvoiceSound(t, a, n);
    }
  }

  lemma {:induction false} AppendedEntry(ours: set<string>, books: seq<J.Entry>, e: J.Entry)
    ensures CogsNet(ours, books + [e]) == CogsNet(ours, books)
      + (if IsCogsOf(ours, e.ref) then J.Net(e.lines, J.Inventory) else 0)
    ensures forall ref :: J.Find(books + [e], ref) == if e.ref == ref then Some(e) else J.Find(books, ref)
  {
    assert (books + [e])[..|books|] == books;
  }

  lemma {:induction false} OtherEntryKeepsEntries(ours: set<string>, books: seq<J.Entry>, e: J.Entry)
    requires !IsCogsOf(ours, e.ref)
    ensures SameEntries(ours, books, books + [e])
  {
    AppendedEntry(ours, books, e);
  }

  lemma {:induction false} PostOneKeepsEntries(ours: set<string>, storage: J.Storage, books: seq<J.Entry>, p: P.Posting)
    requires !IsCogsOf(ours, p.ref)
    ensures SameEntries(ours, books, P.PostOne(storage, books, p))
  {
    var e := P.PostOneAppends(storage, books, p);
    OtherEntryKeepsEntries(ours, books, e);
  }

  lemma {:induction false} PostingKeepsSound(ours: set<string>, c: Setting, sys: System, p: P.Posting)
    requires Sound(ours, c.t, sys) && !IsCogsOf(ours, p.ref)
    ensures Sound(ours, c.t, Step(c, sys, PostEntry(p)))
    ensures Settled(ours, sys) ==> Settled(ours, Step(c, sys, PostEntry(p)))
  {
    var after := Step(c, sys, PostEntry(p));
    PostOneKeepsEntries(ours, c.storage, sys.books, p);
    assert after.stock == sys.stock && after.books == P.PostOne(c.storage, sys.books, p);
    SameKeepsSound(ours, c.t, sys, after);
  }

  lemma {:induction false} SlackOfRow(t: Tenant, ms: seq<Movement>, row: Movement)
    ensures CancelSlack(t, ms + [row])
         == CancelSlack(t, ms) + (if row.ref.kind == AR_INVOICE_CANCEL then ReturnSlack(t, row) else 0)
  {
    assert (ms + [row])[..|ms|] == ms;
  }

  lemma {:induction false} OtherRowKeepsInvoices(t: Tenant, ms: seq<Movement>, row: Movement)
    requires row.ref.kind != AR_INVOICE && row.ref.kind != AR_INVOICE_CANCEL
    ensures SameInvoices(t, ms, ms + [row])
  {
    LedgerOfRow(ms, row);
    SlackOfRow(t, ms, row);
  }

  lemma {:induction false} StockOpKeepsInvoices(ours: set<string>, t: Tenant, stock: Inventory, o: R.Op, sys: System)
    requires CostsMatch(t, stock) && Proper(ours, StockOp(o))
    ensures var after := R.Step(t, stock, o);
            && CostsMatch(t, after) && SameInvoices(t, stock.movements, after.movements)
            && OpenValue(ours, after.movements, sys) == OpenValue(ours, stock.movements, sys)
  {
    R.OnlyMovementsMoveStock(t, stock, o);
    if R.Accepted(t, stock, o) {
      var row := AppliedMovement(t, stock, o.m);
      OtherRowKeepsInvoices(t, stock.movements, row);
      OpenValueOfRow(ours, stock.movements, row, sys);
      BookKeepsCostsMatched(t, stock, o.m);
    }
  }

  lemma {:induction false} StockOpKeepsSound(ours: set<string>, c: Setting, sys: System, o: R.Op)
    requires Sound(ours, c.t, sys) && Proper(ours, StockOp(o))
    ensures Sound(ours, c.t, Step(c, sys, StockOp(o)))
    ensures Settled(ours, sys) ==> Settled(ours, Step(c, sys, StockOp(o)))
  {
    StockOpKeepsInvoices(ours, c.t, sys.stock, o, sys);
    SameKeepsSound(ours, c.t, sys, Step(c, sys, StockOp(o)));
  }

  // ---- Issuing ----

  lemma {:induction false} ShipKeepsSlack(t: Tenant, stock: Inventory, lines: seq<InvoiceLine>, location: LocationId,
      number: string, now: int)
    requires Ship(t, stock, lines, location, number, now).Ok? && CostsMatch(t, stock)
    requires forall l :: l in lines ==> 0 <= l.baseQty
    requires Returnable(t, SaleMoves(stock.movements, number))
    ensures var after := Ship(t, stock, lines, location, number, now).value.stock;
            && CancelSlack(t, after.movements) == CancelSlack(t, stock.movements)
            && CostsMatch(t, after)
            && Returnable(t, SaleMoves(after.movements, number))
    decreases |lines|
  {
    if lines != [] {
      if lines[0].product.None? {
        ShipKeepsSlack(t, stock, lines[1..], location, number, now);
      } else {
        var m := SaleRequest(lines[0], location, number, now);
        var row := AppliedMovement(t, stock, m);
        assert lines[0] in lines;
        SlackOfRow(t, stock.movements, row);
        LedgerOfRow(stock.movements, row);
        MovementCostMatches(t, stock, m);
        BookKeepsCostsMatched(t, stock, m);
        ShipKeepsSlack(t, Apply(t, stock, m).value, lines[1..], location, number, now);
      }
    }
  }

  /** Before its receivable exists, an invoice has left no trace. */
  lemma {:induction false} NothingBeforeReceivable(ours: set<string>, t: Tenant, sys: System, n: string)
    requires Sound(ours, t, sys) && n in ours && !J.Exists(sys.books, InvoiceRef(n))
    ensures J.Find(sys.books, CogsRef(n)).None? && !Reversed(sys, n) && !Restored(sys, n)
    ensures SaleMoves(sys.stock.movements, n) == [] && SaleValue(sys.stock.movements, n) == 0
  {
    SalesOfLedger(sys.stock.movements, n, R.Company(0));
    assert InvoiceSound(t, sys, n);
  }

  /** The receivable alone leaves the control account and every invoice sound. */
  lemma {:induction false} ReceivableKeepsSound(ours: set<string>, t: Tenant, sys: System, e: J.Entry)
    requires Sound(ours, t, sys) && e.ref.kind == AR_INVOICE
    ensures var after := sys.(books := sys.books + [e]);
            Sound(ours, t, after) && (Settled(ours, sys) ==> Settled(ours, after))
  {
    OtherEntryKeepsEntries(ours, sys.books, e);
    SameKeepsSound(ours, t, sys, sys.(books := sys.books + [e]));
  }

  /** A shipment whose cost is posted closes its invoice; one that costs nothing leaves it open. */
  lemma {:induction false} ShippedUnbooked(ours: set<string>, sys: System, after: System, n: string, cogs: int)
    requires n in ours && Open(sys, n) && (Open(after, n) <==> cogs <= 0)
    requires forall k :: k in ours && k != n ==> (Open(after, k) <==> Open(sys, k))
    requires SaleValue(after.stock.movements, n) == -cogs
    requires OpenValue(ours, after.stock.movements, sys) == Unbooked(ours, sys) - cogs
    ensures Unbooked(ours, after) == Unbooked(ours, sys) - Min(cogs, 0)
  {
    if cogs > 0 {
      OpenValueLessOne(ours, after.stock.movements, sys, after, n);
    } else {
      OpenValueAlike(ours, after.stock.movements, sys, after);
    }
  }

  lemma {:induction false} ShippedKeepsSound(ours: set<string>, t: Tenant, sys: System, after: System, n: string,
      cogs: int, entry: J.Entry)
    requires Sound(ours, t, sys) && n in ours && J.Exists(sys.books, InvoiceRef(n))
    requires J.Find(sys.books, CogsRef(n)).None? && !Reversed(sys, n) && !Restored(sys, n)
    requires SaleValue(sys.stock.movements, n) == 0
    requires ShippedOnly(sys.stock, after.stock, n, cogs)
    requires OpenValue(ours, after.stock.movements, sys) == Unbooked(ours, sys) - cogs
    requires CancelSlack(t, after.stock.movements) == CancelSlack(t, sys.stock.movements)
    requires CostsMatch(t, after.stock) && Returnable(t, SaleMoves(after.stock.movements, n))
    requires entry.ref == CogsRef(n) && J.Net(entry.lines, J.Inventory) == -cogs
    requires after.books == if cogs > 0 then sys.books + [entry] else sys.books
    ensures Sound(ours, t, after) && (Settled(ours, sys) && 0 <= cogs ==> Settled(ours, after))
  {
    AppendedEntry(ours, sys.books, entry);
    ShippedUnbooked(ours, sys, after, n, cogs);
    forall k | k in ours ensures InvoiceSound(t, after, k) {
      assert InvoiceSound(t, sys, k);
    }
  }

  lemma {:induction false} CogsKeepsSound(ours: set<string>, c: Setting, sys: System, inv: Invoice, at: int)
    requires Sound(ours, c.t, sys) && inv.number in ours && J.Exists(sys.books, InvoiceRef(inv.number))
    requires J.Find(sys.books, CogsRef(inv.number)).None? && !Reversed(sys, inv.number) && !Restored(sys, inv.number)
    requires SaleValue(sys.stock.movements, inv.number) == 0
    requires forall l :: l in inv.lines ==> 0 <= l.baseQty
    requires PostInvoiceCogs(c.t, c.sites, sys, inv, at).Ok?
    ensures var after := PostInvoiceCogs(c.t, c.sites, sys, inv, at).value;
            && Sound(ours, c.t, after)
            && (Settled(ours, sys) && ShipsAtCost(c, sys.stock, inv, at) ==> Settled(ours, after))
  {
    var location := StockLocation(inv.location, c.sites);
    if HasProductLine(inv.lines) && location.Some? {
      var s := Ship(c.t, sys.stock, inv.lines, location.value, inv.number, at).value;
      assert InvoiceSound(c.t, sys, inv.number);
      ShipTotalsItsSales(c.t, sys.stock, inv.lines, location.value, inv.number, at);
      ShipMovesOpenValue(ours, c.t, sys.stock, inv.lines, location.value, inv.number, at, sys);
      ShipKeepsSlack(c.t, sys.stock, inv.lines, location.value, inv.number, at);
      CogsEntryNets(inv.number, inv.date, s.cogs, J.Inventory);
      ShippedKeepsSound(ours, c.t, sys, PostInvoiceCogs(c.t, c.sites, sys, inv, at).value, inv.number, s.cogs,
                        CogsEntry(inv.number, inv.date, s.cogs));
    }
  }

  lemma {:induction false} BilledKeepsSound(ours: set<string>, c: Setting, sys: System, inv: Invoice, at: int,
      entry: J.Entry)
    requires Sound(ours, c.t, sys) && inv.number in ours && entry.ref == InvoiceRef(inv.number)
    requires !J.Exists(sys.books, InvoiceRef(inv.number))
    requires forall l :: l in inv.lines ==> 0 <= l.baseQty
    ensures var shipped := PostInvoiceCogs(c.t, c.sites, sys.(books := sys.books + [entry]), inv, at);
            shipped.Ok? ==>
              && Sound(ours, c.t, shipped.value)
              && (Settled(ours, sys) && ShipsAtCost(c, sys.stock, inv, at) ==> Settled(ours, shipped.value))
  {
    var billed := sys.(books := sys.books + [entry]);
    NothingBeforeReceivable(ours, c.t, sys, inv.number);
    AppendedEntry(ours, sys.books, entry);
    ReceivableKeepsSound(ours, c.t, sys, entry);
    if PostInvoiceCogs(c.t, c.sites, billed, inv, at).Ok? {
      CogsKeepsSound(ours, c, billed, inv, at);
    }
  }

  lemma {:induction false} IssueKeepsSound(ours: set<string>, c: Setting, sys: System, op: SystemOp)
    requires op.IssueInvoice? && Sound(ours, c.t, sys) && Proper(ours, op)
    ensures Sound(ours, c.t, Step(c, sys, op))
    ensures Settled(ours, sys) && AtCost(c, sys, op) ==> Settled(ours, Step(c, sys, op))
  {
    var inv := op.invoice;
    if !J.Exists(sys.books, InvoiceRef(inv.number)) {
      BilledKeepsSound(ours, c, sys, inv, op.at, InvoiceEntry(c.storage, inv));
    }
  }

  // ---- Cancelling ----

  lemma {:induction false} RestoreSlack(t: Tenant, stock: Inventory, sales: seq<Movement>, number: string, now: int)
    requires Restore(t, stock, sales, number, now).Ok?
    ensures CancelSlack(t, Restore(t, stock, sales, number, now).value.movements)
         == CancelSlack(t, stock.movements) + TotalSlack(t, sales)
    decreases |sales|
  {
    if sales != [] {
      var m := ReturnRequest(sales[0], number, now);
      var row := AppliedMovement(t, stock, m);
      SlackOfRow(t, stock.movements, row);
      RestoreSlack(t, Apply(t, stock, m).value, sales[1..], number, now);
    }
  }

  lemma {:induction false} CancelMovesBooks(ours: set<string>, t: Tenant, sys: System, number: string, today: int)
    requires number in ours
    ensures var cogs := J.Find(sys.books, CogsRef(number));
            CogsNet(ours, ReverseCogs(sys.books, number, today)) == CogsNet(ours, sys.books)
              - (if cogs.Some? && !Reversed(sys, number) then J.Net(cogs.value.lines, J.Inventory) else 0)
  {
    var cogs := J.Find(sys.books, CogsRef(number));
    if cogs.Some? && !Reversed(sys, number) {
      J.ReversalUndoes(cogs.value.lines, J.Inventory);
      AppendedEntry(ours, sys.books, J.Entry(CogsCancelRef(number), today, J.Reversed(cogs.value.lines)));
    }
  }

  lemma {:induction false} SalesRestoredInStep(t: Tenant, stock: Inventory, number: string, at: int,
      after: Inventory)
    requires Returnable(t, SaleMoves(stock.movements, number))
    requires Restore(t, stock, SaleMoves(stock.movements, number), number, at) == Ok(after)
    ensures TakesBack(t, stock.movements, after.movements, SaleValue(stock.movements, number))
  {
    SalesRestoredAtValue(t, stock, number, at, after);
    RestoreSlack(t, stock, SaleMoves(stock.movements, number), number, at);
  }

  lemma {:induction false} CancelParts(t: Tenant, sys: System, number: string, today: int, at: int)
    requires Cancel(t, sys, number, today, at).Ok?
    ensures var after := Cancel(t, sys, number, today, at).value;
            var restored := Restore(t, sys.stock, SaleMoves(sys.stock.movements, number), number, at);
            && after.books == ReverseCogs(sys.books, number, today)
            && (if Restored(sys, number) then after.stock == sys.stock
                else restored.Ok? && after.stock == restored.value)
  {
  }

  /** What cancelling an invoice takes back: the value of its sales, unless they are restored already. */
  function Undone(sys: System, number: string): int {
    if Restored(sys, number) then 0 else SaleValue(sys.stock.movements, number)
  }

  /** On the books, booked or not, cancelling takes back just that. */
  lemma {:induction false} CancelTakesFromBooks(ours: set<string>, t: Tenant, sys: System, number: string, today: int,
      at: int, after: System)
    requires number in ours && InvoiceSound(t, sys, number) && Cancel(t, sys, number, today, at) == Ok(after)
    requires CancelTrace(sys, after, number)
    ensures CogsNet(ours, after.books) + Unbooked(ours, after)
         == CogsNet(ours, sys.books) + Unbooked(ours, sys) - Undone(sys, number)
    ensures Unbooked(ours, after)
         == Unbooked(ours, sys) - (if Open(sys, number) then SaleValue(sys.stock.movements, number) else 0)
  {
    CancelParts(t, sys, number, today, at);
    CancelMovesBooks(ours, t, sys, number, today);
    CancelMovesUnbooked(ours, t, sys, number, today, at, after);
  }

  lemma {:induction false} CancelMovesUnbooked(ours: set<string>, t: Tenant, sys: System, number: string, today: int,
      at: int, after: System)
    requires number in ours && Cancel(t, sys, number, today, at) == Ok(after) && CancelTrace(sys, after, number)
    ensures Unbooked(ours, after)
         == Unbooked(ours, sys) - (if Open(sys, number) then SaleValue(sys.stock.movements, number) else 0)
  {
    CancelParts(t, sys, number, today, at);
    SalesOfLedger(sys.stock.movements, number, R.Company(0));
    if !Restored(sys, number) {
      RestoreKeepsOpenValue(ours, t, sys.stock, SaleMoves(sys.stock.movements, number), number, at, sys);
    }
    if Open(sys, number) && !Open(after, number) {
      OpenValueLessOne(ours, after.stock.movements, sys, after, number);
      SameSaleValue(sys, after, number);
    } else {
      OpenValueAlike(ours, after.stock.movements, sys, after);
    }
  }

  lemma {:induction false} SameSaleValue(sys: System, after: System, number: string)
    requires CancelTrace(sys, after, number)
    ensures SaleValue(after.stock.movements, number) == SaleValue(sys.stock.movements, number)
  {
  }

  lemma {:induction false} CancelTakesFromStock(t: Tenant, sys: System, number: string, today: int, at: int,
      after: System)
    requires Returnable(t, SaleMoves(sys.stock.movements, number)) && Cancel(t, sys, number, today, at) == Ok(after)
    ensures TakesBack(t, sys.stock.movements, after.stock.movements, Undone(sys, number))
  {
    CancelParts(t, sys, number, today, at);
    if !Restored(sys, number) {
      SalesRestoredInStep(t, sys.stock, number, at, after.stock);
    }
  }

  /** The invoices' movements lose `undone` in value, to within the slack they add. */
  ghost predicate TakesBack(t: Tenant, before: seq<Movement>, after: seq<Movement>, undone: int) {
    TwoMillionths(InvoiceValue(after) - InvoiceValue(before) + undone) <= CancelSlack(t, after) - CancelSlack(t, before)
  }

  lemma {:induction false} CancelStaysInStep(ours: set<string>, t: Tenant, sys: System, number: string, today: int,
      at: int, after: System)
    requires InStep(ours, t, sys) && number in ours && InvoiceSound(t, sys, number)
    requires Cancel(t, sys, number, today, at) == Ok(after)
    requires CancelTrace(sys, after, number)
    ensures InStep(ours, t, after)
  {
    CancelTakesFromBooks(ours, t, sys, number, today, at, after);
    CancelTakesFromStock(t, sys, number, today, at, after);
    UndoneTogether(ours, t, sys, after, Undone(sys, number));
  }

  lemma {:induction false} UndoneTogether(ours: set<string>, t: Tenant, before: System, after: System, undone: int)
    requires InStep(ours, t, before)
    requires CogsNet(ours, after.books) + Unbooked(ours, after)
             == CogsNet(ours, before.books) + Unbooked(ours, before) - undone
    requires TakesBack(t, before.stock.movements, after.stock.movements, undone)
    ensures InStep(ours, t, after)
  {
    var change := InvoiceValue(after.stock.movements) - InvoiceValue(before.stock.movements) + undone;
    AddGaps(Gap(ours, before), CancelSlack(t, before.stock.movements), -change,
            CancelSlack(t, after.stock.movements) - CancelSlack(t, before.stock.movements));
  }

  /** What a cancellation adds: the reversal of the COGS entry, if there is one, and the returns of the
      sales, if there are any. */
  ghost predicate CancelTrace(sys: System, after: System, number: string) {
    && (forall n :: J.Find(after.books, CogsRef(n)) == J.Find(sys.books, CogsRef(n)))
    && (forall n :: J.Exists(sys.books, InvoiceRef(n)) ==> J.Exists(after.books, InvoiceRef(n)))
    && (forall n :: Reversed(after, n)
          <==> Reversed(sys, n) || (n == number && J.Find(sys.books, CogsRef(n)).Some?))
    && (forall n :: Restored(after, n)
          <==> Restored(sys, n) || (n == number && SaleMoves(sys.stock.movements, n) != []))
    && (forall n :: SaleMoves(after.stock.movements, n) == SaleMoves(sys.stock.movements, n))
    && (forall n :: SaleValue(after.stock.movements, n) == SaleValue(sys.stock.movements, n))
  }

  lemma {:induction false} ReversalTrace(books: seq<J.Entry>, number: string, today: int)
    ensures var after := ReverseCogs(books, number, today);
            && (forall n :: J.Find(after, CogsRef(n)) == J.Find(books, CogsRef(n)))
            && (forall n :: J.Exists(books, InvoiceRef(n)) ==> J.Exists(after, InvoiceRef(n)))
            && (forall n :: J.Exists(after, CogsCancelRef(n))
                  <==> J.Exists(books, CogsCancelRef(n)) || (n == number && J.Find(books, CogsRef(n)).Some?))
  {
    var cogs := J.Find(books, CogsRef(number));
    if cogs.Some? && !J.Exists(books, CogsCancelRef(number)) {
      J.LedgerOfAppend(books, J.Entry(CogsCancelRef(number), today, J.Reversed(cogs.value.lines)));
    }
  }

  lemma {:induction false} CancelLeavesTrace(t: Tenant, sys: System, number: string, today: int, at: int,
      after: System)
    requires Cancel(t, sys, number, today, at) == Ok(after) && CostsMatch(t, sys.stock)
    ensures CancelTrace(sys, after, number) && CostsMatch(t, after.stock)
  {
    CancelParts(t, sys, number, today, at);
    ReversalTrace(sys.books, number, today);
    if !Restored(sys, number) {
      RestoreAddsReturns(t, sys.stock, SaleMoves(sys.stock.movements, number), number, at);
    }
  }

  lemma {:induction false} TraceKeepsInvoices(t: Tenant, sys: System, after: System, number: string, n: string)
    requires InvoiceSound(t, sys, n) && CancelTrace(sys, after, number)
    ensures InvoiceSound(t, after, n)
  {
    SalesOfLedger(sys.stock.movements, n, R.Company(0));
  }

  lemma {:induction false} CancelKeepsSound(ours: set<string>, c: Setting, sys: System, op: SystemOp)
    requires op.CancelInvoice? && Sound(ours, c.t, sys) && Proper(ours, op)
    ensures Sound(ours, c.t, Step(c, sys, op))
    ensures Settled(ours, sys) ==> Settled(ours, Step(c, sys, op))
  {
    if Cancel(c.t, sys, op.number, op.today, op.at).Ok? {
      var after := Cancel(c.t, sys, op.number, op.today, op.at).value;
      assert InvoiceSound(c.t, sys, op.number);
      CancelLeavesTrace(c.t, sys, op.number, op.today, op.at, after);
      CancelStaysInStep(ours, c.t, sys, op.number, op.today, op.at, after);
      CancelMovesUnbooked(ours, c.t, sys, op.number, op.today, op.at, after);
      forall n | n in ours ensures InvoiceSound(c.t, after, n) {
        TraceKeepsInvoices(c.t, sys, after, op.number, n);
      }
    }
  }

  lemma {:induction false} StepKeepsSound(ours: set<string>, c: Setting, sys: System, op: SystemOp)
    requires Sound(ours, c.t, sys) && Proper(ours, op)
    ensures Sound(ours, c.t, Step(c, sys, op))
    ensures Settled(ours, sys) && AtCost(c, sys, op) ==> Settled(ours, Step(c, sys, op))
  {
    match op
    case IssueInvoice(_, _, _) => IssueKeepsSound(ours, c, sys, op);
    case CancelInvoice(_, _, _) => CancelKeepsSound(ours, c, sys, op);
    case StockOp(o) => StockOpKeepsSound(ours, c, sys, o);
    case PostEntry(p) => PostingKeepsSound(ours, c, sys, p);
  }

  /** Over any run of invoices issued and cancelled, stock operations and other postings, those of other sales'
      COGS included, at whatever costs: what the invoices' COGS journals posted to Inventory and what was sold
      unbooked together equal the value of the invoices' movements, to within the slack of the FIFO sales that were
      cancelled. */
  lemma {:induction false} ControlAccountFollowsStock(ours: set<string>, c: Setting, ops: seq<SystemOp>)
    requires AllProper(ours, ops)
    ensures Sound(ours, c.t, Run(c, ops))
  {
    if ops != [] {
      assert ops[|ops| - 1] in ops && forall op :: op in ops[..|ops| - 1] ==> op in ops;
      ControlAccountFollowsStock(ours, c, ops[..|ops| - 1]);
      StepKeepsSound(ours, c, Run(c, ops[..|ops| - 1]), ops[|ops| - 1]);
    }
  }

  /** While no invoice ships goods that cost less than nothing, nothing is ever sold unbooked: the control account
      alone follows stock. */
  lemma {:induction false} SoldAtCostIsBooked(ours: set<string>, c: Setting, ops: seq<SystemOp>)
    requires AllProper(ours, ops) && AllAtCost(c, ops)
    ensures Unbooked(ours, Run(c, ops)) == 0 && Settled(ours, Run(c, ops))
  {
    if ops != [] {
      assert ops[|ops| - 1] in ops && forall op :: op in ops[..|ops| - 1] ==> op in ops;
      SoldAtCostIsBooked(ours, c, ops[..|ops| - 1]);
      ControlAccountFollowsStock(ours, c, ops[..|ops| - 1]);
      StepKeepsSound(ours, c, Run(c, ops[..|ops| - 1]), ops[|ops| - 1]);
    }
  }

  lemma {:induction false} NoFifoNoSlack(t: Tenant, ms: seq<Movement>)
    requires forall p :: p in t.products ==> t.products[p].costMethod != FIFO
    ensures CancelSlack(t, ms) == 0
  {
    if ms != [] {
      NoFifoNoSlack(t, ms[..|ms| - 1]);
    }
  }

  lemma {:induction false} NoSlackNoGap(ours: set<string>, t: Tenant, sys: System)
    requires InStep(ours, t, sys) && CancelSlack(t, sys.stock.movements) == 0
    ensures CogsNet(ours, sys.books) + Unbooked(ours, sys) == InvoiceValue(sys.stock.movements)
  {
  }

  /** Without FIFO products that holds to the cent: the control account and stock agree exactly when nothing was
      sold unbooked. */
  lemma {:induction false} ControlAccountExactWithoutFifo(ours: set<string>, c: Setting, ops: seq<SystemOp>)
    requires AllProper(ours, ops)
    requires forall p :: p in c.t.products ==> c.t.products[p].costMethod != FIFO
    ensures var sys := Run(c, ops);
            && CogsNet(ours, sys.books) + Unbooked(ours, sys) == InvoiceValue(sys.stock.movements)
            && (CogsNet(ours, sys.books) == InvoiceValue(sys.stock.movements) <==> Unbooked(ours, sys) == 0)
  {
    ControlAccountFollowsStock(ours, c, ops);
    NoFifoNoSlack(c.t, Run(c, ops).stock.movements);
    NoSlackNoGap(ours, c.t, Run(c, ops));
  }

  // ---- A run on which control account and stock part ----

  lemma {:induction false} RunOfAppend(c: Setting, ops: seq<SystemOp>, op: SystemOp)
    ensures Run(c, ops + [op]) == Step(c, Run(c, ops), op)
  {
    assert (ops + [op])[..|ops|] == ops;
  }

  /** A run of stock operations alone has made nothing of any invoice's. */
  ghost predicate OnlyStock(c: Setting, ops: seq<SystemOp>, moves: seq<R.Op>) {
    var stock := R.Run(c.t, Empty, moves);
    Run(c, ops) == System(stock, []) && CostsMatch(c.t, stock) && InvoiceValue(stock.movements) == 0
  }

  lemma {:induction false} OnlyStockOp(ours: set<string>, c: Setting, ops: seq<SystemOp>, moves: seq<R.Op>, op: R.Op)
    requires OnlyStock(c, ops, moves) && Proper(ours, StockOp(op))
    ensures OnlyStock(c, ops + [StockOp(op)], moves + [op])
  {
    RunOfAppend(c, ops, StockOp(op));
    R.RunOfAppend(c.t, Empty, moves, op);
    StockOpKeepsInvoices(ours, c.t, R.Run(c.t, Empty, moves), op, Start);
  }

  function StockOps(moves: seq<R.Op>): seq<SystemOp> {
    if moves == [] then [] else StockOps(moves[..|moves| - 1]) + [StockOp(moves[|moves| - 1])]
  }

  lemma {:induction false} StockOpsRun(ours: set<string>, c: Setting, moves: seq<R.Op>)
    requires forall op :: op in moves ==> Proper(ours, StockOp(op))
    ensures OnlyStock(c, StockOps(moves), moves) && AllProper(ours, StockOps(moves))
  {
    if moves != [] {
      var front, last := moves[..|moves| - 1], moves[|moves| - 1];
      assert last in moves && front + [last] == moves;
      StockOpsRun(ours, c, front);
      OnlyStockOp(ours, c, StockOps(front), front, last);
    }
  }

  /** A unit of a product at -40.00 on average goes out at 40.00 to stock, and posts no COGS. */
  lemma {:induction false} NegativeGoodsShip(c: Setting, sys: System, line: InvoiceLine, inv: Invoice)
    requires c.t == A.LooseTenant && Average(sys.stock, 1) == -400000
    requires line.product == Some(1) && line.baseQty == ONE && line.tag == Untagged
    requires inv.lines == [line] && inv.location == Some(1) && !J.Exists(sys.books, CogsRef(inv.number))
    ensures var r := PostInvoiceCogs(c.t, c.sites, sys, inv, 0);
            && r.Ok? && r.value.books == sys.books
            && InvoiceValue(r.value.stock.movements) == InvoiceValue(sys.stock.movements) + 4000
  {
    var m := SaleRequest(line, 1, inv.number, 0);
    assert MovementProblem(c.t, sys.stock, m).None?;
    var row := AppliedMovement(c.t, sys.stock, m);
    var moved := Apply(c.t, sys.stock, m).value;
    assert row.value == 4000 by { RoundExact(4000, 10000); }
    LedgerOfRow(sys.stock.movements, row);
    assert HasProductLine(inv.lines) by { assert inv.lines[0] == line; }
    assert inv.lines[1..] == [] && Ship(c.t, moved, [], 1, inv.number, 0) == Ok(Shipment(moved, 0));
  }

  lemma {:induction false} TwoLinesBalance(storage: J.Storage, debited: J.Account, credited: J.Account, x: int)
    ensures J.Balanced(J.Stored(storage, [J.Line(debited, x, 0)] + [J.Line(credited, 0, x)]))
  {
    var one, two := J.Line(debited, x, 0), J.Line(credited, 0, x);
    assert ([one] + [two])[1..] == [two] && [two][1..] == [];
    assert J.Stored(storage, [two]) == [J.Line(credited, J.ToCents(storage, 0), J.ToCents(storage, x))];
    var a, b := J.Stored(storage, [one] + [two])[0], J.Stored(storage, [two])[0];
    assert J.Stored(storage, [one] + [two]) == [a] + [b];
    J.TotalsOfConcat([a], [b]);
    assert [a][1..] == [] && [b][1..] == [];
  }

  lemma {:induction false} PlainInvoiceBalances(storage: J.Storage, line: InvoiceLine, inv: Invoice)
    requires inv.lines == [line] && line.sales == P.SalesLine(100, 5000, 0, 0)
    ensures J.Balanced(InvoiceEntry(storage, inv).lines)
  {
    var sales := [line.sales];
    assert inv.lines[1..] == [] && sales[1..] == [] && SalesLines(inv.lines) == sales;
    assert P.TaxTotal(sales) == 0;
    TwoLinesBalance(storage, J.Receivable, J.Sales, P.Subtotal(sales));
    assert P.CustomerInvoiceLines(sales)
        == [J.Line(J.Receivable, P.Subtotal(sales), 0)] + [J.Line(J.Sales, 0, P.Subtotal(sales))];
  }

  lemma {:induction false} NegativeGoodsIssue(ours: set<string>, c: Setting, stock: Inventory, line: InvoiceLine,
      inv: Invoice)
    requires c.t == A.LooseTenant && Average(stock, 1) == -400000
    requires line == InvoiceLine(Some(1), ONE, Untagged, P.SalesLine(100, 5000, 0, 0))
    requires inv.lines == [line] && inv.location == Some(1)
    ensures var after := Step(c, System(stock, []), IssueInvoice(Issued, inv, 0));
            && CogsNet(ours, after.books) == 0
            && InvoiceValue(after.stock.movements) == InvoiceValue(stock.movements) + 4000
  {
    var entry := InvoiceEntry(c.storage, inv);
    PlainInvoiceBalances(c.storage, line, inv);
    AppendedEntry(ours, [], entry);
    assert [] + [entry] == [entry];
    NegativeGoodsShip(c, System(stock, [entry]), line, inv);
  }

  lemma {:induction false} NegativeGoodsPart(ours: set<string>, c: Setting, moves: seq<R.Op>, line: InvoiceLine,
      inv: Invoice)
    requires c.t == A.LooseTenant && Average(R.Run(c.t, Empty, moves), 1) == -400000
    requires forall op :: op in moves ==> Proper(ours, StockOp(op))
    requires line == InvoiceLine(Some(1), ONE, Untagged, P.SalesLine(100, 5000, 0, 0))
    requires inv.lines == [line] && inv.location == Some(1) && inv.number in ours && inv.number != ""
    ensures var sys := Run(c, StockOps(moves) + [IssueInvoice(Issued, inv, 0)]);
            CogsNet(ours, sys.books) == 0 && InvoiceValue(sys.stock.movements) == Unbooked(ours, sys) == 4000
  {
    var issue := IssueInvoice(Issued, inv, 0);
    StockOpsRun(ours, c, moves);
    NegativeGoodsIssue(ours, c, R.Run(c.t, Empty, moves), line, inv);
    RunOfAppend(c, StockOps(moves), issue);
    ControlAccountExactWithoutFifo(ours, c, StockOps(moves) + [issue]);
  }

  const Shortfall: seq<R.Op> := [A.Adjust(100, Some(100000)), A.Adjust(-1000, None), A.Adjust(1000, Some(50000))]

  /** One received at 10.00, ten issued, ten received at 5.00, and an invoice for the one unit left, which is on
      hand at -40.00: its sale adds 40.00 to stock, and the COGS journals say nothing of it. */
  lemma {:induction false} NegativeCostsPart(storage: J.Storage)
    ensures var c, ours := Setting(A.LooseTenant, [], storage), {"INV-1"};
            var line := InvoiceLine(Some(1), ONE, Untagged, P.SalesLine(100, 5000, 0, 0));
            var sys := Run(c, StockOps(Shortfall) + [IssueInvoice(Issued, Invoice("INV-1", 0, Some(1), [line]), 0)]);
            CogsNet(ours, sys.books) == 0 && InvoiceValue(sys.stock.movements) == Unbooked(ours, sys) == 4000
  {
    var c := Setting(A.LooseTenant, [], storage);
    var line := InvoiceLine(Some(1), ONE, Untagged, P.SalesLine(100, 5000, 0, 0));
    A.ShortfallDrivesAverageNegative();
    NegativeGoodsPart({"INV-1"}, c, Shortfall, line, Invoice("INV-1", 0, Some(1), [line]));
  }
}
