/** What each document posts, as exact amounts. */
module Posters {
  import opened Rounding
  import opened Records
  import opened Journals

  // ---- Customer invoices ----

  /** Quantities, prices and percentages in hundredths, tax rates in ten-thousandths. */
  datatype SalesLine = SalesLine(qty: int, unitPrice: int, discountPct: int, taxRate: int)

  function Gross(l: SalesLine): int {
    l.qty * l.unitPrice
  }

  /** The discount in cents: the percentage of the gross, rounded half to even. */
  function DiscountAmount(l: SalesLine): int {
    RoundHalfEven(Gross(l) * l.discountPct)
  }

  /** In ten-thousandths. */
  function SalesLineTotal(l: SalesLine): int {
    Gross(l) - 100 * DiscountAmount(l)
  }

  function Subtotal(lines: seq<SalesLine>): int {
    if lines == [] then 0 else 10000 * SalesLineTotal(lines[0]) + Subtotal(lines[1..])
  }

  function TaxTotal(lines: seq<SalesLine>): int {
    if lines == [] then 0 else SalesLineTotal(lines[0]) * lines[0].taxRate + TaxTotal(lines[1..])
  }

  function CustomerInvoiceLines(lines: seq<SalesLine>): seq<Line> {
    [Line(Receivable, Subtotal(lines) + TaxTotal(lines), 0), Line(Sales, 0, Subtotal(lines))]
    + (if TaxTotal(lines) != 0 then [Line(VatOutput, 0, TaxTotal(lines))] else [])
  }

  // ---- Supplier invoices ----

  datatype PurchaseLine = PurchaseLine(qty: int, unitCost: int, taxRate: int)

  function Billed(lines: seq<PurchaseLine>): int {
    if lines == [] then 0 else 10000 * (lines[0].qty * lines[0].unitCost) + Billed(lines[1..])
  }

  function InputTax(lines: seq<PurchaseLine>): int {
    if lines == [] then 0 else lines[0].qty * lines[0].unitCost * lines[0].taxRate + InputTax(lines[1..])
  }

  /** A supplier invoice: its lines, the value its receipt was received at (exact), and the landed cost it
      clears (in cents). */
  datatype Bill = Bill(lines: seq<PurchaseLine>, received: Option<int>, landed: int)

  function GrniValue(b: Bill): int {
    if b.received.Some? then b.received.value else Billed(b.lines)
  }

  function VarianceLine(variance: int): seq<Line> {
    if variance > 0 then [Line(PriceVariance, variance, 0)]
    else if variance < 0 then [Line(PriceVariance, 0, -variance)] else []
  }

  /** A supplier invoice's entry, from its exact amounts: goods received, price variance, landed cost cleared,
      input tax, and what is payable. */
  function SupplierEntry(grni: int, variance: int, landed: int, tax: int, payable: int): seq<Line> {
    [Line(Grni, grni, 0)]
    + VarianceLine(variance)
    + (if landed > 0 then [Line(Accruals, landed, 0)] else [])
    + (if tax != 0 then [Line(VatInput, tax, 0)] else [])
    + [Line(Payable, 0, payable)]
  }

  function SupplierInvoiceLines(b: Bill): seq<Line> {
    var billed, tax, landed := Billed(b.lines), InputTax(b.lines), Exact(b.landed);
    SupplierEntry(GrniValue(b), billed - GrniValue(b), landed, tax, billed + tax + landed)
  }

  // ---- Goods receipts, cost of goods sold ----

  function InventoryReceiptLines(value: int, landed: int, inventory: int): seq<Line> {
    var variance := value + landed - inventory;
    (if inventory > 0 then [Line(Inventory, inventory, 0)] else [])
    + (if value > 0 then [Line(Grni, 0, value)] else [])
    + (if landed > 0 then [Line(Accruals, 0, landed)] else [])
    + (if variance > 0 then [Line(PriceVariance, variance, 0)]
       else if variance < 0 then [Line(PriceVariance, 0, -variance)] else [])
  }

  function CogsLines(value: int): seq<Line> {
    [Line(Cogs, value, 0), Line(Inventory, 0, value)]
  }

  // ---- Credit notes ----

  datatype CreditLine = CreditLine(qty: int, unitAmount: int, taxRate: int, account: Option<Account>)

  datatype CreditKind = SalesCredit | PurchaseCredit

  function CreditLineTotal(l: CreditLine): int {
    10000 * (l.qty * l.unitAmount)
  }

  function CreditSubtotal(lines: seq<CreditLine>): int {
    if lines == [] then 0 else CreditLineTotal(lines[0]) + CreditSubtotal(lines[1..])
  }

  function CreditTax(lines: seq<CreditLine>): int {
    if lines == [] then 0 else lines[0].qty * lines[0].unitAmount * lines[0].taxRate + CreditTax(lines[1..])
  }

  function DefaultAccount(kind: CreditKind): Account {
    if kind == SalesCredit then Sales else Inventory
  }

  function AccountOf(kind: CreditKind, l: CreditLine): Account {
    if l.account.Some? then l.account.value else DefaultAccount(kind)
  }

  datatype Group = Group(account: Account, amount: int)

  /** Add to the group of an account, opening it if it is new. */
  function AddTo(groups: seq<Group>, account: Account, amount: int): seq<Group> {
    if groups == [] then [Group(account, amount)]
    else if groups[0].account == account then [Group(account, groups[0].amount + amount)] + groups[1..]
    else [groups[0]] + AddTo(groups[1..], account, amount)
  }

  function ByAccount(kind: CreditKind, lines: seq<CreditLine>): seq<Group> {
    if lines == [] then []
    else
      var last := lines[|lines| - 1];
      AddTo(ByAccount(kind, lines[..|lines| - 1]), AccountOf(kind, last), CreditLineTotal(last))
  }

  function GroupLines(kind: CreditKind, groups: seq<Group>): seq<Line> {
    if groups == [] then []
    else [if kind == SalesCredit then Line(groups[0].account, groups[0].amount, 0)
          else Line(groups[0].account, 0, groups[0].amount)]
         + GroupLines(kind, groups[1..])
  }

  /** A credit note's entry, from its grouped lines and its tax and total. */
  function CreditEntry(kind: CreditKind, groups: seq<Line>, tax: int, total: int): seq<Line> {
    if kind == SalesCredit then
      groups + ((if tax != 0 then [Line(VatOutput, tax, 0)] else []) + [Line(Receivable, 0, total)])
    else
      [Line(Payable, total, 0)] + (groups + (if tax != 0 then [Line(VatInput, 0, tax)] else []))
  }

  function CreditNoteLines(kind: CreditKind, lines: seq<CreditLine>): seq<Line> {
    CreditEntry(kind, GroupLines(kind, ByAccount(kind, lines)), CreditTax(lines),
                CreditSubtotal(lines) + CreditTax(lines))
  }

  // ---- Every poster balances ----

  lemma {:induction false} Totals1(a: Line)
    ensures Debits([a]) == a.debit && Credits([a]) == a.credit
  {
    assert [a][1..] == [];
  }

  /** Totals of an entry put together from five optional parts. */
  lemma {:induction false} TotalsOfParts(a: seq<Line>, b: seq<Line>, c: seq<Line>, d: seq<Line>, e: seq<Line>)
    ensures Debits(a + b + c + d + e) == Debits(a) + Debits(b) + Debits(c) + Debits(d) + Debits(e)
    ensures Credits(a + b + c + d + e) == Credits(a) + Credits(b) + Credits(c) + Credits(d) + Credits(e)
  {
    TotalsOfConcat(a + b + c + d, e);
    TotalsOfConcat(a + b + c, d);
    TotalsOfConcat(a + b, c);
    TotalsOfConcat(a, b);
  }

  /** A customer invoice balances exactly; stored in cents it is out by at most one cent. */
  lemma {:induction false} CustomerInvoiceBalances(lines: seq<SalesLine>, storage: Storage)
    ensures Balanced(CustomerInvoiceLines(lines))
    ensures var stored := Stored(storage, CustomerInvoiceLines(lines)); Abs(Debits(stored) - Credits(stored)) <= 1
  {
    var tax := if TaxTotal(lines) != 0 then [Line(VatOutput, 0, TaxTotal(lines))] else [];
    var head := [Line(Receivable, Subtotal(lines) + TaxTotal(lines), 0), Line(Sales, 0, Subtotal(lines))];
    assert head == [head[0]] + [head[1]];
    TotalsOfConcat(head, tax);
    TotalsOfConcat([head[0]], [head[1]]);
    StoredImbalance(storage, CustomerInvoiceLines(lines));
  }

  lemma {:induction false} SupplierEntryTotals(grni: int, variance: int, landed: int, tax: int, payable: int)
    ensures var lines := SupplierEntry(grni, variance, landed, tax, payable);
            && Debits(lines) - Credits(lines) == grni + variance + Max(0, landed) + tax - payable
            && |lines| <= 5 && OneSided(lines)
  {
    TotalsOfParts([Line(Grni, grni, 0)], VarianceLine(variance),
                  if landed > 0 then [Line(Accruals, landed, 0)] else [],
                  if tax != 0 then [Line(VatInput, tax, 0)] else [], [Line(Payable, 0, payable)]);
    Totals1(Line(Grni, grni, 0));
    Totals1(Line(Payable, 0, payable));
  }

  /** A supplier invoice, which no gate checks, balances exactly whatever was received and whatever landed
      cost it clears; stored in cents it is out by at most two cents. */
  lemma {:induction false} SupplierInvoiceBalances(b: Bill, storage: Storage)
    requires 0 <= b.landed
    ensures Balanced(SupplierInvoiceLines(b))
    ensures var stored := Stored(storage, SupplierInvoiceLines(b)); Abs(Debits(stored) - Credits(stored)) <= 2
  {
    var billed, tax, landed := Billed(b.lines), InputTax(b.lines), Exact(b.landed);
    SupplierEntryTotals(GrniValue(b), billed - GrniValue(b), landed, tax, billed + tax + landed);
    StoredImbalance(storage, SupplierInvoiceLines(b));
  }

  /** A goods receipt balances exactly when the amounts it leaves out for being negative cancel: always when
      none of the three is negative. */
  lemma {:induction false} InventoryReceiptBalancesIff(value: int, landed: int, inventory: int)
    ensures Balanced(InventoryReceiptLines(value, landed, inventory))
            <==> Min(inventory, 0) == Min(value, 0) + Min(landed, 0)
    ensures 0 <= value && 0 <= landed && 0 <= inventory ==> Balanced(InventoryReceiptLines(value, landed, inventory))
  {
    var a := if inventory > 0 then [Line(Inventory, inventory, 0)] else [];
    var b := if value > 0 then [Line(Grni, 0, value)] else [];
    var c := if landed > 0 then [Line(Accruals, 0, landed)] else [];
    var variance := value + landed - inventory;
    assert InventoryReceiptLines(value, landed, inventory) == a + b + c + VarianceLine(variance) + [];
    TotalsOfParts(a, b, c, VarianceLine(variance), []);
  }

  function GroupTotal(groups: seq<Group>): int {
    if groups == [] then 0 else groups[0].amount + GroupTotal(groups[1..])
  }

  function AmountOf(groups: seq<Group>, account: Account): int {
    if groups == [] then 0
    else (if groups[0].account == account then groups[0].amount else 0) + AmountOf(groups[1..], account)
  }

  function CreditedTo(kind: CreditKind, lines: seq<CreditLine>, account: Account): int {
    if lines == [] then 0
    else
      var last := lines[|lines| - 1];
      CreditedTo(kind, lines[..|lines| - 1], account)
      + (if AccountOf(kind, last) == account then CreditLineTotal(last) else 0)
  }

  /** Goods worth 100.00 with a landed credit of 30.00, carried at 50.00: the credit is left out, so credits
      exceed debits by it. */
  lemma {:induction false} NegativeLandedCostUnbalances()
    ensures var lines := InventoryReceiptLines(Exact(10000), Exact(-3000), Exact(5000));
            Credits(lines) - Debits(lines) == Exact(3000)
  {
    var value, landed, inventory := Exact(10000), Exact(-3000), Exact(5000);
    var debit, credit := Line(Inventory, inventory, 0), Line(Grni, 0, value);
    var variance := Line(PriceVariance, value + landed - inventory, 0);
    assert InventoryReceiptLines(value, landed, inventory) == [debit] + ([credit] + [variance]);
    TotalsOfConcat([debit], [credit] + [variance]);
    TotalsOfConcat([credit], [variance]);
    Totals1(debit);
    Totals1(credit);
    Totals1(variance);
  }

  lemma {:induction false} AddToAdds(groups: seq<Group>, account: Account, amount: int, other: Account)
    ensures GroupTotal(AddTo(groups, account, amount)) == GroupTotal(groups) + amount
    ensures AmountOf(AddTo(groups, account, amount), other)
         == AmountOf(groups, other) + (if other == account then amount else 0)
  {
    if groups != [] && groups[0].account != account {
      AddToAdds(groups[1..], account, amount, other);
    }
  }

  lemma {:induction false} CreditSubtotalOfAppend(lines: seq<CreditLine>, l: CreditLine)
    ensures CreditSubtotal(lines + [l]) == CreditSubtotal(lines) + CreditLineTotal(l)
  {
    if lines == [] {
      assert [l][1..] == [];
    } else {
      assert (lines + [l])[1..] == lines[1..] + [l];
      CreditSubtotalOfAppend(lines[1..], l);
    }
  }

  /** Grouping by account loses nothing: the groups total the lines, overall and account by account. */
  lemma {:induction false} GroupingConserves(kind: CreditKind, lines: seq<CreditLine>, account: Account)
    ensures GroupTotal(ByAccount(kind, lines)) == CreditSubtotal(lines)
    ensures AmountOf(ByAccount(kind, lines), account) == CreditedTo(kind, lines, account)
  {
    if lines != [] {
      var front, last := lines[..|lines| - 1], lines[|lines| - 1];
      GroupingConserves(kind, front, account);
      AddToAdds(ByAccount(kind, front), AccountOf(kind, last), CreditLineTotal(last), account);
      assert lines == front + [last];
      CreditSubtotalOfAppend(front, last);
    }
  }

  lemma {:induction false} GroupLinesTotal(kind: CreditKind, groups: seq<Group>)
    ensures var lines := GroupLines(kind, groups);
            Debits(lines) - Credits(lines) == if kind == SalesCredit then GroupTotal(groups) else -GroupTotal(groups)
  {
    if groups != [] {
      GroupLinesTotal(kind, groups[1..]);
      assert GroupLines(kind, groups)[1..] == GroupLines(kind, groups[1..]);
    }
  }

  lemma {:induction false} CreditEntryBalances(kind: CreditKind, groups: seq<Line>, subtotal: int, tax: int)
    requires Debits(groups) - Credits(groups) == if kind == SalesCredit then subtotal else -subtotal
    ensures Balanced(CreditEntry(kind, groups, tax, subtotal + tax))
  {
    var total := subtotal + tax;
    if kind == SalesCredit {
      var vat := if tax != 0 then [Line(VatOutput, tax, 0)] else [];
      TotalsOfConcat(groups, vat + [Line(Receivable, 0, total)]);
      TotalsOfConcat(vat, [Line(Receivable, 0, total)]);
      Totals1(Line(Receivable, 0, total));
    } else {
      var vat := if tax != 0 then [Line(VatInput, 0, tax)] else [];
      TotalsOfConcat([Line(Payable, total, 0)], groups + vat);
      TotalsOfConcat(groups, vat);
      Totals1(Line(Payable, total, 0));
    }
  }

  /** A credit note of either kind balances exactly through its grouping by account. */
  lemma {:induction false} CreditNoteBalances(kind: CreditKind, lines: seq<CreditLine>)
    ensures Balanced(CreditNoteLines(kind, lines))
  {
    GroupingConserves(kind, lines, Sales);
    GroupLinesTotal(kind, ByAccount(kind, lines));
    CreditEntryBalances(kind, GroupLines(kind, ByAccount(kind, lines)), CreditSubtotal(lines), CreditTax(lines));
  }

  // ---- The ledger over a run of postings ----

  /** A posting: an entry through the gate, or a supplier invoice, which is stored unchecked. */
  datatype Posting = Gated(ref: Ref, date: int, lines: seq<Line>) | SupplierInvoice(ref: Ref, date: int, bill: Bill)

  function PostOne(storage: Storage, entries: seq<Entry>, p: Posting): seq<Entry> {
    var posted :=
      match p
      case Gated(ref, date, lines) => PostGated(entries, Entry(ref, date, Stored(storage, lines)))
      case SupplierInvoice(ref, date, bill) =>
        Create(entries, Entry(ref, date, Stored(storage, SupplierInvoiceLines(bill))));
    if posted.Ok? then posted.value else entries
  }

  lemma {:induction false} PostOneAppends(storage: Storage, entries: seq<Entry>, p: Posting) returns (e: Entry)
    ensures e.ref == p.ref && (PostOne(storage, entries, p) == entries || PostOne(storage, entries, p) == entries + [e])
  {
    e := Entry(p.ref, p.date, Stored(storage, if p.Gated? then p.lines else SupplierInvoiceLines(p.bill)));
  }

  function PostAll(storage: Storage, entries: seq<Entry>, ps: seq<Posting>): seq<Entry> {
    if ps == [] then entries else PostOne(storage, PostAll(storage, entries, ps[..|ps| - 1]), ps[|ps| - 1])
  }

  function SupplierInvoices(ps: seq<Posting>): nat {
    if ps == [] then 0 else SupplierInvoices(ps[..|ps| - 1]) + (if ps[|ps| - 1].SupplierInvoice? then 1 else 0)
  }

  ghost predicate LandedNatural(ps: seq<Posting>) {
    forall p :: p in ps && p.SupplierInvoice? ==> 0 <= p.bill.landed
  }

  function Imbalance(entries: seq<Entry>): int {
    LedgerDebits(entries) - LedgerCredits(entries)
  }

  lemma {:induction false} PostOneMovesImbalance(storage: Storage, entries: seq<Entry>, p: Posting)
    requires p.SupplierInvoice? ==> 0 <= p.bill.landed
    ensures Abs(Imbalance(PostOne(storage, entries, p)) - Imbalance(entries)) <= (if p.SupplierInvoice? then 2 else 0)
  {
    match p
    case Gated(ref, date, lines) =>
      LedgerOfAppend(entries, Entry(ref, date, Stored(storage, lines)));
    case SupplierInvoice(ref, date, bill) =>
      LedgerOfAppend(entries, Entry(ref, date, Stored(storage, SupplierInvoiceLines(bill))));
      SupplierInvoiceBalances(bill, storage);
  }

  /** Over any run of postings the trial balance is out by at most two cents per supplier invoice: gated
      posters alone keep it exact. */
  lemma {:induction false} TrialBalanceHolds(storage: Storage, ps: seq<Posting>)
    requires LandedNatural(ps)
    ensures Abs(Imbalance(PostAll(storage, [], ps))) <= 2 * SupplierInvoices(ps)
  {
    if ps != [] {
      assert ps[|ps| - 1] in ps;
      TrialBalanceHolds(storage, ps[..|ps| - 1]);
      PostOneMovesImbalance(storage, PostAll(storage, [], ps[..|ps| - 1]), ps[|ps| - 1]);
    }
  }

  // ---- Goods received, not invoiced ----

  lemma {:induction false} SupplierEntryGrni(grni: int, variance: int, landed: int, tax: int, payable: int)
    ensures Net(SupplierEntry(grni, variance, landed, tax, payable), Grni) == grni
  {
    var received, billed := [Line(Grni, grni, 0)], VarianceLine(variance);
    var cleared := if landed > 0 then [Line(Accruals, landed, 0)] else [];
    var input := if tax != 0 then [Line(VatInput, tax, 0)] else [];
    NetOfConcat(received + billed + cleared + input, [Line(Payable, 0, payable)], Grni);
    NetOfConcat(received + billed + cleared, input, Grni);
    NetOfConcat(received + billed, cleared, Grni);
    NetOfConcat(received, billed, Grni);
    assert received[1..] == [];
  }

  /** A supplier invoice debits GRNI with the value of its receipt, or with what it bills when it has none. */
  lemma {:induction false} SupplierInvoiceGrni(b: Bill)
    ensures Net(SupplierInvoiceLines(b), Grni) == if b.received.Some? then b.received.value else Billed(b.lines)
  {
    var billed, tax, landed := Billed(b.lines), InputTax(b.lines), Exact(b.landed);
    SupplierEntryGrni(GrniValue(b), billed - GrniValue(b), landed, tax, billed + tax + landed);
  }

  /** What a receipt credited to GRNI, less what the invoices billed against it debited. */
  function GrniLeft(received: int, bills: seq<Bill>): int {
    if bills == [] then received
    else GrniLeft(received, bills[..|bills| - 1]) - Net(SupplierInvoiceLines(bills[|bills| - 1]), Grni)
  }

  /** Each invoice billed against a receipt debits the whole received value, so GRNI is settled exactly when
      one invoice was billed (or nothing of value was received). */
  lemma {:induction false} GrniSettledIff(received: int, bills: seq<Bill>)
    requires forall b :: b in bills ==> b.received == Some(received)
    ensures GrniLeft(received, bills) == received * (1 - |bills|)
    ensures GrniLeft(received, bills) == 0 <==> received == 0 || |bills| == 1
  {
    if bills != [] {
      var front, last := bills[..|bills| - 1], bills[|bills| - 1];
      assert last in bills && forall b :: b in front ==> b in bills;
      GrniSettledIff(received, front);
      SupplierInvoiceGrni(last);
      OneFewer(received, 1 - |bills|);
    }
  }

  lemma {:induction false} OneFewer(x: int, n: int)
    ensures x * n == x * (n + 1) - x
  {
  }

  /** Two bills for the halves of one receipt worth 100.00: GRNI ends 100.00 over-cleared. */
  lemma {:induction false} TwoBillsOverClearGrni()
    ensures var received := Exact(10000);
            var half := Bill([PurchaseLine(500, 1000, 0)], Some(received), 0);
            && 2 * Billed(half.lines) == received
            && GrniLeft(received, [half, half]) == -received
  {
    var received := Exact(10000);
    var half := Bill([PurchaseLine(500, 1000, 0)], Some(received), 0);
    assert half.lines[1..] == [];
    GrniSettledIff(received, [half, half]);
  }
}
