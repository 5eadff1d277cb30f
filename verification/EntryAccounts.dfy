/** What each poster's entry comes to on every account, counted from the document's lines. */
module EntryAccounts {
  import opened Rounding
  import opened Records
  import opened Journals
  import opened Posters
  import opened Invoices

  /** An entry comes to this amount on an account: exactly as built, and to within half a cent as stored. */
  ghost predicate ComesTo(storage: Storage, lines: seq<Line>, account: Account, amount: int) {
    Net(lines, account) == amount && StoredAs(Stored(storage, lines), account, amount)
  }

  /** Lines in cents come to this amount to within half a cent. */
  ghost predicate StoredAs(lines: seq<Line>, account: Account, amount: int) {
    2 * Abs(Exact(Net(lines, account)) - amount) <= Exact(1)
  }

  /** At most one line, of this amount, on this account. */
  predicate OneLine(part: seq<Line>, account: Account, amount: int) {
    |part| <= 1 && (part == [] ==> amount == 0)
    && (part != [] ==> part[0] == Line(account, amount, 0) || part[0] == Line(account, 0, -amount))
  }

  lemma {:induction false} NetOfOne(storage: Storage, l: Line, account: Account)
    ensures Net([l], account) == if account == l.account then l.debit - l.credit else 0
    ensures Net(Stored(storage, [l]), account)
         == if account == l.account then ToCents(storage, l.debit) - ToCents(storage, l.credit) else 0
  {
    var stored := Line(l.account, ToCents(storage, l.debit), ToCents(storage, l.credit));
    assert [l][1..] == [] && Stored(storage, [l]) == [stored] && [stored][1..] == [];
  }

  lemma {:induction false} CentsOfOne(storage: Storage, debit: int, credit: int)
    requires debit == 0 || credit == 0
    ensures 2 * Abs(Exact(ToCents(storage, debit) - ToCents(storage, credit)) - (debit - credit)) <= Exact(1)
  {
    assert ToCents(storage, 0) == 0;
  }

  /** A part of an entry: at most one line, what account it is on, and what it comes to there. */
  datatype Part = Part(lines: seq<Line>, account: Account, amount: int)

  predicate IsPart(p: Part) {
    OneLine(p.lines, p.account, p.amount)
  }

  function PartOf(p: Part, account: Account): int {
    if p.account == account then p.amount else 0
  }

  /** What is nothing as built and as stored is stored as nothing. */
  lemma {:induction false} NothingComesToNothing(storage: Storage, lines: seq<Line>, account: Account)
    requires Net(lines, account) == 0 && Net(Stored(storage, lines), account) == 0
    ensures ComesTo(storage, lines, account, 0)
  {
  }

  lemma {:induction false} LineComesTo(storage: Storage, l: Line)
    requires l.debit == 0 || l.credit == 0
    ensures ComesTo(storage, [l], l.account, l.debit - l.credit)
  {
    NetOfOne(storage, l, l.account);
    CentsOfOne(storage, l.debit, l.credit);
  }

  lemma {:induction false} PartComesTo(storage: Storage, p: Part, account: Account)
    requires IsPart(p)
    ensures ComesTo(storage, p.lines, account, PartOf(p, account))
    ensures p.account != account ==> Net(Stored(storage, p.lines), account) == 0
  {
    if p.lines == [] {
      NothingComesToNothing(storage, p.lines, account);
    } else {
      var l := p.lines[0];
      assert p.lines == [l];
      if account == p.account {
        LineComesTo(storage, l);
      } else {
        NetOfOne(storage, l, account);
        NothingComesToNothing(storage, p.lines, account);
      }
    }
  }

  lemma {:induction false} NetOfTwo(storage: Storage, a: seq<Line>, b: seq<Line>, account: Account)
    ensures Net(a + b, account) == Net(a, account) + Net(b, account)
    ensures Net(Stored(storage, a + b), account)
         == Net(Stored(storage, a), account) + Net(Stored(storage, b), account)
  {
    StoredOfConcat(storage, a, b);
    NetOfConcat(a, b, account);
    NetOfConcat(Stored(storage, a), Stored(storage, b), account);
  }

  lemma {:induction false} NetOfFive(storage: Storage, a: seq<Line>, b: seq<Line>, c: seq<Line>, d: seq<Line>,
      e: seq<Line>, account: Account)
    ensures Net(a + b + c + d + e, account)
         == Net(a, account) + Net(b, account) + Net(c, account) + Net(d, account) + Net(e, account)
    ensures Net(Stored(storage, a + b + c + d + e), account)
         == Net(Stored(storage, a), account) + Net(Stored(storage, b), account) + Net(Stored(storage, c), account)
            + Net(Stored(storage, d), account) + Net(Stored(storage, e), account)
  {
    NetOfTwo(storage, a + b + c + d, e, account);
    NetOfTwo(storage, a + b + c, d, account);
    NetOfTwo(storage, a + b, c, account);
    NetOfTwo(storage, a, b, account);
  }

  /** An entry of five parts on different accounts comes on each to its part's amount, elsewhere to nothing. */
  lemma {:induction false} FiveParts(storage: Storage, a: Part, b: Part, c: Part, d: Part, e: Part, account: Account)
    requires IsPart(a) && IsPart(b) && IsPart(c) && IsPart(d) && IsPart(e)
    requires a.account !in {b.account, c.account, d.account, e.account}
    requires b.account !in {c.account, d.account, e.account} && c.account !in {d.account, e.account}
    requires d.account != e.account
    ensures ComesTo(storage, a.lines + b.lines + c.lines + d.lines + e.lines, account,
                    PartOf(a, account) + PartOf(b, account) + PartOf(c, account) + PartOf(d, account)
                    + PartOf(e, account))
  {
    NetOfFive(storage, a.lines, b.lines, c.lines, d.lines, e.lines, account);
    PartComesTo(storage, a, account);
    PartComesTo(storage, b, account);
    PartComesTo(storage, c, account);
    PartComesTo(storage, d, account);
    PartComesTo(storage, e, account);
  }

  // ---- The parts entries are made of ----

  function Debited(account: Account, x: int): (p: Part)
    ensures IsPart(p) && p.account == account && p.amount == x
  {
    Part([Line(account, x, 0)], account, x)
  }

  function Credited(account: Account, x: int): (p: Part)
    ensures IsPart(p) && p.account == account && p.amount == -x
  {
    Part([Line(account, 0, x)], account, -x)
  }

  function Without(account: Account): (p: Part)
    ensures IsPart(p) && p.account == account && p.amount == 0
  {
    Part([], account, 0)
  }

  /** The part, left out when it is nothing. */
  function Unless0(p: Part): (q: Part)
    requires IsPart(p)
    ensures IsPart(q) && q.account == p.account && q.amount == p.amount
  {
    if p.amount == 0 then Without(p.account) else p
  }

  function DebitedIf(account: Account, x: int): (p: Part)
    ensures IsPart(p) && p.account == account && p.amount == Max(0, x)
  {
    if x > 0 then Debited(account, x) else Without(account)
  }

  function CreditedIf(account: Account, x: int): (p: Part)
    ensures IsPart(p) && p.account == account && p.amount == -Max(0, x)
  {
    if x > 0 then Credited(account, x) else Without(account)
  }

  function Variance(x: int): (p: Part)
    ensures IsPart(p) && p.account == PriceVariance && p.amount == x
  {
    if x > 0 then Debited(PriceVariance, x) else if x < 0 then Credited(PriceVariance, -x) else Without(PriceVariance)
  }

  // ---- Customer invoices ----

  /** `cents` is `amount`, in 1/10^8, to the nearest cent, ties to the even one. */
  predicate NearestEven(amount: int, cents: int) {
    && 2 * Abs(Exact(cents) - amount) <= Exact(1)
    && (2 * Abs(Exact(cents) - amount) == Exact(1) ==> cents % 2 == 0)
  }

  /** A line's net, in ten-thousandths: quantity times price less the discount, which is that percentage of it to the
      nearest cent. */
  ghost predicate NetOfLine(l: SalesLine, net: int) {
    exists discount :: NearestEven(l.qty * l.unitPrice * l.discountPct, discount)
                    && net == l.qty * l.unitPrice - 100 * discount
  }

  lemma {:induction false} LineNet(l: SalesLine)
    ensures NetOfLine(l, SalesLineTotal(l))
  {
    assert NearestEven(l.qty * l.unitPrice * l.discountPct, DiscountAmount(l));
  }

  lemma {:induction false} NearestEvenIsUnique(amount: int, a: int, b: int)
    requires NearestEven(amount, a) && NearestEven(amount, b)
    ensures a == b
  {
  }

  /** There is one such net; without a discount it is quantity times price, and for a percentage from 0 to 100 of a
      line that costs something it is at most that. */
  lemma {:induction false} LineNetIs(l: SalesLine, net: int)
    requires NetOfLine(l, net)
    ensures net == SalesLineTotal(l)
    ensures l.discountPct == 0 ==> net == l.qty * l.unitPrice
    ensures 0 <= l.discountPct && 0 <= l.qty * l.unitPrice ==> net <= l.qty * l.unitPrice
    ensures l.discountPct <= 10000 && 0 <= l.qty * l.unitPrice ==> -50 <= net
  {
    var discount :| NearestEven(l.qty * l.unitPrice * l.discountPct, discount)
                 && net == l.qty * l.unitPrice - 100 * discount;
    LineNet(l);
    NearestEvenIsUnique(l.qty * l.unitPrice * l.discountPct, discount, DiscountAmount(l));
    DiscountWithin(l.qty * l.unitPrice, l.discountPct, discount);
  }

  lemma {:induction false} DiscountWithin(gross: int, percentage: int, discount: int)
    requires NearestEven(gross * percentage, discount)
    ensures percentage == 0 ==> discount == 0
    ensures 0 <= percentage && 0 <= gross ==> 0 <= discount
    ensures percentage <= 10000 && 0 <= gross ==> 100 * discount <= gross + 50
  {
    if 0 <= gross && 0 <= percentage {
      MulMonotone(0, percentage, gross);
    }
    if 0 <= gross && percentage <= 10000 {
      MulMonotone(percentage, 10000, gross);
    }
  }

  /** Lines and their nets. */
  ghost predicate NetsOf(lines: seq<SalesLine>, nets: seq<int>) {
    |nets| == |lines| && forall i :: 0 <= i < |lines| ==> NetOfLine(lines[i], nets[i])
  }

  /** The tax on each line: its net at its rate. */
  function Taxes(lines: seq<SalesLine>, nets: seq<int>): seq<int>
    requires |nets| == |lines|
  {
    seq(|lines|, i requires 0 <= i < |lines| => nets[i] * lines[i].taxRate)
  }

  lemma {:induction false} InvoiceTotals(lines: seq<SalesLine>, nets: seq<int>)
    requires NetsOf(lines, nets)
    ensures Subtotal(lines) == 10000 * Sum(nets)
    ensures TaxTotal(lines) == Sum(Taxes(lines, nets))
  {
    if lines != [] {
      assert NetOfLine(lines[0], nets[0]);
      LineNetIs(lines[0], nets[0]);
      InvoiceTotals(lines[1..], nets[1..]);
      SumOfTail(Taxes(lines, nets), Taxes(lines[1..], nets[1..]));
    }
  }

  function InvoiceAmount(net: int, tax: int, account: Account): int {
    match account
    case Receivable => net + tax
    case Sales => -net
    case VatOutput => -tax
    case _ => 0
  }

  lemma {:induction false} InvoiceComesTo(storage: Storage, net: int, tax: int, account: Account)
    ensures var lines := [Line(Receivable, net + tax, 0), Line(Sales, 0, net)]
                         + (if tax != 0 then [Line(VatOutput, 0, tax)] else []);
            ComesTo(storage, lines, account, InvoiceAmount(net, tax, account))
  {
    var due, sold, vat := Debited(Receivable, net + tax), Credited(Sales, net), Unless0(Credited(VatOutput, tax));
    FiveParts(storage, due, sold, vat, Without(Grni), Without(Accruals), account);
    assert due.lines + sold.lines + vat.lines + [] + [] == [Line(Receivable, net + tax, 0), Line(Sales, 0, net)]
        + (if tax != 0 then [Line(VatOutput, 0, tax)] else []);
  }

  /** An invoice's entry debits Receivable with nets and taxes, and credits Sales with the nets and VAT Output with the
      taxes; it touches no other account. */
  lemma {:induction false} CustomerInvoicePosts(storage: Storage, lines: seq<SalesLine>, nets: seq<int>,
      account: Account)
    requires NetsOf(lines, nets)
    ensures ComesTo(storage, CustomerInvoiceLines(lines), account,
                    InvoiceAmount(10000 * Sum(nets), Sum(Taxes(lines, nets)), account))
  {
    InvoiceTotals(lines, nets);
    InvoiceComesTo(storage, Subtotal(lines), TaxTotal(lines), account);
  }

  lemma {:induction false} IssueKeepsReceivable(t: Tenant, sites: seq<Site>, storage: Storage, sys: System,
      status: InvoiceStatus, inv: Invoice, now: int)
    requires Issue(t, sites, storage, sys, status, inv, now).Ok? && !Exists(sys.books, Ref(AR_INVOICE, inv.number))
    ensures Find(Issue(t, sites, storage, sys, status, inv, now).value.books, Ref(AR_INVOICE, inv.number))
         == Some(InvoiceEntry(storage, inv))
  {
    var receivable := InvoiceEntry(storage, inv);
    var after := Issue(t, sites, storage, sys, status, inv, now).value;
    LedgerOfAppend(sys.books, receivable);
    if |after.books| > |sys.books| + 1 {
      LedgerOfAppend(sys.books + [receivable], after.books[|sys.books| + 1]);
    }
  }

  lemma {:induction false} EveryLineIsInvoiced(lines: seq<InvoiceLine>)
    ensures |SalesLines(lines)| == |lines|
    ensures forall i :: 0 <= i < |lines| ==> SalesLines(lines)[i] == lines[i].sales
  {
    if lines != [] {
      EveryLineIsInvoiced(lines[1..]);
      assert forall i :: 1 <= i < |lines| ==> lines[i] == lines[1..][i - 1];
    }
  }

  /** The nets of an invoice's lines, those that name no product too. */
  ghost predicate InvoiceNets(lines: seq<InvoiceLine>, nets: seq<int>) {
    |nets| == |lines| && forall i :: 0 <= i < |lines| ==> NetOfLine(lines[i].sales, nets[i])
  }

  /** The tax on each of them. */
  function InvoiceTaxes(lines: seq<InvoiceLine>, nets: seq<int>): seq<int>
    requires |nets| == |lines|
  {
    seq(|lines|, i requires 0 <= i < |lines| => nets[i] * lines[i].sales.taxRate)
  }

  /** So does the entry of an issued invoice: posted under its number, on its date. */
  lemma {:induction false} IssuedInvoicePosts(t: Tenant, sites: seq<Site>, storage: Storage, sys: System,
      status: InvoiceStatus, inv: Invoice, now: int, nets: seq<int>, account: Account)
    requires Issue(t, sites, storage, sys, status, inv, now).Ok? && !Exists(sys.books, Ref(AR_INVOICE, inv.number))
    requires InvoiceNets(inv.lines, nets)
    ensures var entry := Find(Issue(t, sites, storage, sys, status, inv, now).value.books, Ref(AR_INVOICE, inv.number));
            && entry.Some? && entry.value.date == inv.date
            && StoredAs(entry.value.lines, account,
                        InvoiceAmount(10000 * Sum(nets), Sum(InvoiceTaxes(inv.lines, nets)), account))
  {
    EveryLineIsInvoiced(inv.lines);
    assert Taxes(SalesLines(inv.lines), nets) == InvoiceTaxes(inv.lines, nets);
    IssueKeepsReceivable(t, sites, storage, sys, status, inv, now);
    CustomerInvoicePosts(storage, SalesLines(inv.lines), nets, account);
  }

  // ---- Supplier invoices ----

  /** What each line of a bill costs, and its tax, from its quantity, price and rate. */
  function Costs(lines: seq<PurchaseLine>): seq<int> {
    seq(|lines|, i requires 0 <= i < |lines| => 10000 * (lines[i].qty * lines[i].unitCost))
  }

  function InputTaxes(lines: seq<PurchaseLine>): seq<int> {
    seq(|lines|, i requires 0 <= i < |lines| => lines[i].qty * lines[i].unitCost * lines[i].taxRate)
  }

  lemma {:induction false} BillTotals(lines: seq<PurchaseLine>)
    ensures Billed(lines) == Sum(Costs(lines)) && InputTax(lines) == Sum(InputTaxes(lines))
  {
    if lines != [] {
      BillTotals(lines[1..]);
      SumOfTail(Costs(lines), Costs(lines[1..]));
      SumOfTail(InputTaxes(lines), InputTaxes(lines[1..]));
    }
  }

  function BillAmount(billed: int, tax: int, received: int, landed: int, account: Account): int {
    match account
    case Payable => -(billed + tax + landed)
    case VatInput => tax
    case PriceVariance => billed - received
    case Grni => received
    case Accruals => landed
    case _ => 0
  }

  lemma {:induction false} BillParts(billed: int, tax: int, received: int, landed: int)
    ensures Debited(Grni, received).lines + Variance(billed - received).lines + DebitedIf(Accruals, landed).lines
            + Unless0(Debited(VatInput, tax)).lines + Credited(Payable, billed + tax + landed).lines
         == SupplierEntry(received, billed - received, landed, tax, billed + tax + landed)
  {
  }

  lemma {:induction false} BillComesTo(storage: Storage, billed: int, tax: int, received: int, landed: int,
      account: Account)
    requires 0 <= landed
    ensures ComesTo(storage, SupplierEntry(received, billed - received, landed, tax, billed + tax + landed), account,
                    BillAmount(billed, tax, received, landed, account))
  {
    BillParts(billed, tax, received, landed);
    FiveParts(storage, Debited(Grni, received), Variance(billed - received), DebitedIf(Accruals, landed),
              Unless0(Debited(VatInput, tax)), Credited(Payable, billed + tax + landed), account);
  }

  /** A supplier invoice's entry credits Payable with what is billed, its tax and the landed cost it clears, and debits
      VAT Input with the tax, GRNI with what was received at, Accruals with the landed cost and the price variance
      with billed less received; it touches no other account. */
  lemma {:induction false} SupplierInvoicePosts(storage: Storage, b: Bill, account: Account)
    requires 0 <= b.landed
    ensures var billed, tax := Sum(Costs(b.lines)), Sum(InputTaxes(b.lines));
            var received := if b.received.Some? then b.received.value else billed;
            ComesTo(storage, SupplierInvoiceLines(b), account,
                    BillAmount(billed, tax, received, Exact(b.landed), account))
  {
    BillTotals(b.lines);
    BillComesTo(storage, Billed(b.lines), InputTax(b.lines), GrniValue(b), Exact(b.landed), account);
  }

  // ---- Goods receipts ----

  function ReceiptAmount(value: int, landed: int, inventory: int, account: Account): int {
    match account
    case Inventory => Max(0, inventory)
    case Grni => -Max(0, value)
    case Accruals => -Max(0, landed)
    case PriceVariance => value + landed - inventory
    case _ => 0
  }

  lemma {:induction false} ReceiptParts(value: int, landed: int, inventory: int)
    ensures DebitedIf(Inventory, inventory).lines + CreditedIf(Grni, value).lines + CreditedIf(Accruals, landed).lines
            + Variance(value + landed - inventory).lines + Without(Payable).lines
         == InventoryReceiptLines(value, landed, inventory)
  {
    assert Variance(value + landed - inventory).lines == VarianceLine(value + landed - inventory);
  }

  /** A receipt's entry debits Inventory with what it is carried at and credits GRNI with the goods' value and Accruals
      with the landed cost, each when positive; the price variance takes the difference. */
  lemma {:induction false} InventoryReceiptPosts(storage: Storage, value: int, landed: int, inventory: int,
      account: Account)
    ensures ComesTo(storage, InventoryReceiptLines(value, landed, inventory), account,
                    ReceiptAmount(value, landed, inventory, account))
  {
    ReceiptParts(value, landed, inventory);
    FiveParts(storage, DebitedIf(Inventory, inventory), CreditedIf(Grni, value), CreditedIf(Accruals, landed),
              Variance(value + landed - inventory), Without(Payable), account);
  }

  // ---- Credit notes ----

  /** What a line of a note puts on an account: it goes on its own, or where it names none on Sales for a sales credit
      and on Inventory for a purchase credit. */
  function PutOn(kind: CreditKind, l: CreditLine, account: Account): int {
    var goesOn := match l.account
                  case Some(own) => own
                  case None => match kind case SalesCredit => Sales case PurchaseCredit => Inventory;
    if goesOn == account then 10000 * (l.qty * l.unitAmount) else 0
  }

  function OnAccount(kind: CreditKind, lines: seq<CreditLine>, account: Account): seq<int> {
    seq(|lines|, i requires 0 <= i < |lines| => PutOn(kind, lines[i], account))
  }

  lemma {:induction false} CreditedIsPut(kind: CreditKind, l: CreditLine, account: Account)
    ensures PutOn(kind, l, account) == if AccountOf(kind, l) == account then CreditLineTotal(l) else 0
  {
  }

  function NoteTaxes(lines: seq<CreditLine>): seq<int> {
    seq(|lines|, i requires 0 <= i < |lines| => lines[i].qty * lines[i].unitAmount * lines[i].taxRate)
  }

  function NoteCosts(lines: seq<CreditLine>): seq<int> {
    seq(|lines|, i requires 0 <= i < |lines| => 10000 * (lines[i].qty * lines[i].unitAmount))
  }

  lemma {:induction false} NoteTotals(lines: seq<CreditLine>)
    ensures CreditSubtotal(lines) == Sum(NoteCosts(lines)) && CreditTax(lines) == Sum(NoteTaxes(lines))
  {
    if lines != [] {
      NoteTotals(lines[1..]);
      SumOfTail(NoteCosts(lines), NoteCosts(lines[1..]));
      SumOfTail(NoteTaxes(lines), NoteTaxes(lines[1..]));
    }
  }

  lemma {:induction false} CreditedIsOnAccount(kind: CreditKind, lines: seq<CreditLine>, account: Account)
    ensures CreditedTo(kind, lines, account) == Sum(OnAccount(kind, lines, account))
  {
    if lines != [] {
      var front := lines[..|lines| - 1];
      var last := PutOn(kind, lines[|lines| - 1], account);
      CreditedIsOnAccount(kind, front, account);
      CreditedIsPut(kind, lines[|lines| - 1], account);
      assert OnAccount(kind, lines, account) == OnAccount(kind, front, account) + [last];
      SumOfAppend(OnAccount(kind, front, account), last);
    }
  }

  lemma {:induction false} GroupsNet(kind: CreditKind, groups: seq<Group>, account: Account)
    ensures Net(GroupLines(kind, groups), account)
         == if kind == SalesCredit then AmountOf(groups, account) else -AmountOf(groups, account)
  {
    if groups != [] {
      GroupsNet(kind, groups[1..], account);
      assert GroupLines(kind, groups)[1..] == GroupLines(kind, groups[1..]);
    }
  }

  /** What a note puts on an account besides its lines: a sales credit debits VAT Output with the tax and credits
      Receivable with the total, a purchase credit debits Payable with the total and credits VAT Input with the tax. */
  function NoteAmount(kind: CreditKind, tax: int, total: int, account: Account): int {
    match kind
    case SalesCredit => if account == VatOutput then tax else if account == Receivable then -total else 0
    case PurchaseCredit => if account == VatInput then -tax else if account == Payable then total else 0
  }

  lemma {:induction false} NoteEntryNets(kind: CreditKind, groups: seq<Line>, tax: int, total: int, account: Account)
    ensures Net(CreditEntry(kind, groups, tax, total), account)
         == Net(groups, account) + NoteAmount(kind, tax, total, account)
  {
    if kind == SalesCredit {
      var vat := if tax != 0 then [Line(VatOutput, tax, 0)] else [];
      var due := [Line(Receivable, 0, total)];
      NetOfConcat(groups, vat + due, account);
      NetOfConcat(vat, due, account);
      assert due[1..] == [] && (tax != 0 ==> vat[1..] == []);
    } else {
      var vat := if tax != 0 then [Line(VatInput, 0, tax)] else [];
      var due := [Line(Payable, total, 0)];
      NetOfConcat(due, groups + vat, account);
      NetOfConcat(groups, vat, account);
      assert due[1..] == [] && (tax != 0 ==> vat[1..] == []);
    }
  }

  /** A sales credit debits each line's account with the line, a purchase credit credits it; tax and total go as above,
      and nothing else anywhere. */
  lemma {:induction false} CreditNotePosts(kind: CreditKind, lines: seq<CreditLine>, account: Account)
    ensures var tax, total := Sum(NoteTaxes(lines)), Sum(NoteCosts(lines)) + Sum(NoteTaxes(lines));
            var own := Sum(OnAccount(kind, lines, account));
            Net(CreditNoteLines(kind, lines), account)
            == (if kind == SalesCredit then own else -own) + NoteAmount(kind, tax, total, account)
  {
    var groups := ByAccount(kind, lines);
    NoteTotals(lines);
    CreditedIsOnAccount(kind, lines, account);
    GroupingConserves(kind, lines, account);
    GroupsNet(kind, groups, account);
    NoteEntryNets(kind, GroupLines(kind, groups), CreditTax(lines), CreditSubtotal(lines) + CreditTax(lines), account);
  }
}
