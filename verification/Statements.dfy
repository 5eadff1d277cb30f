/** Customer statements: a dated ledger of invoices, receipts, refunds and credit notes with a running balance. */
module Statements {
  import opened Rounding
  import opened Records
  import opened Ordering
  import opened Numerals

  /** In the alphabetical order the statement sorts types by. */
  datatype Kind = CreditNote | Invoice | Receipt | Refund

  datatype Item = Item(date: int, kind: Kind, ref: string, debit: int, credit: int)

  datatype Row = Row(item: Item, balance: int)

  datatype Statement = Statement(opening: int, rows: seq<Row>, closing: int, totalDebit: int, totalCredit: int)

  // ---- Source documents ----

  datatype Direction = In | SupplierPayment | Out

  datatype CustomerInvoice = CustomerInvoice(date: int, status: InvoiceStatus, number: string, total: int)
  datatype Payment = Payment(id: nat, date: int, direction: Direction, posted: bool, reference: Option<string>,
                             amount: int)
  datatype Credit = Credit(date: int, sales: bool, posted: bool, number: string, total: int)

  /** One customer's documents, in table order. */
  datatype Documents = Documents(invoices: seq<CustomerInvoice>, payments: seq<Payment>, credits: seq<Credit>)

  predicate IsIssued(status: InvoiceStatus) {
    status == Issued || status == Sent || status == Paid
  }

  function InvoiceItems(invoices: seq<CustomerInvoice>): seq<Item> {
    if invoices == [] then []
    else
      InvoiceItems(invoices[..|invoices| - 1])
      + (var inv := invoices[|invoices| - 1];
         if IsIssued(inv.status) then [Item(inv.date, Invoice, inv.number, inv.total, 0)] else [])
  }

  /** A payment's own reference, or one made from its id. */
  function PaymentRef(p: Payment): string {
    if Given(p.reference) then p.reference.value
    else (if p.direction == In then "PAY-" else "REF-") + Numeral(p.id)
  }

  function PaymentItem(p: Payment): Item {
    if p.direction == In then Item(p.date, Receipt, PaymentRef(p), 0, p.amount)
    else Item(p.date, Refund, PaymentRef(p), p.amount, 0)
  }

  function PaymentItems(payments: seq<Payment>, direction: Direction): seq<Item> {
    if payments == [] then []
    else
      PaymentItems(payments[..|payments| - 1], direction)
      + (var p := payments[|payments| - 1];
         if p.posted && p.direction == direction
         then [PaymentItem(p)] else [])
  }

  function CreditItems(credits: seq<Credit>): seq<Item> {
    if credits == [] then []
    else
      CreditItems(credits[..|credits| - 1])
      + (var cn := credits[|credits| - 1];
         if cn.sales && cn.posted then [Item(cn.date, CreditNote, cn.number, 0, cn.total)] else [])
  }

  function Items(d: Documents): seq<Item> {
    InvoiceItems(d.invoices) + PaymentItems(d.payments, In) + PaymentItems(d.payments, Out) + CreditItems(d.credits)
  }

  function KindRank(kind: Kind): int {
    match kind
    case CreditNote => 0
    case Invoice => 1
    case Receipt => 2
    case Refund => 3
  }

  function ItemKey(it: Item): Key {
    Key(it.date, KindRank(it.kind))
  }

  /** The customer's ledger in statement order. */
  function Ledger(d: Documents): seq<Item> {
    SortBy(ItemKey, Items(d))
  }

  // ---- The statement ----

  predicate InWindow(it: Item, from: int, to: int) {
    from <= it.date <= to
  }

  /** What the customer owed from everything dated before `date`. */
  function OwedBefore(items: seq<Item>, date: int): int {
    if items == [] then 0
    else (if items[0].date < date then items[0].debit - items[0].credit else 0) + OwedBefore(items[1..], date)
  }

  function RowsFrom(items: seq<Item>, balance: int, from: int, to: int): seq<Row> {
    if items == [] then []
    else if InWindow(items[0], from, to) then
      var next := balance + items[0].debit - items[0].credit;
      [Row(items[0], next)] + RowsFrom(items[1..], next, from, to)
    else RowsFrom(items[1..], balance, from, to)
  }

  /** The balance after the last row. */
  function BalanceAfter(rows: seq<Row>, balance: int): int {
    if rows == [] then balance else rows[|rows| - 1].balance
  }

  function Debits(rows: seq<Row>): int {
    if rows == [] then 0 else rows[0].item.debit + Debits(rows[1..])
  }

  function Credits(rows: seq<Row>): int {
    if rows == [] then 0 else rows[0].item.credit + Credits(rows[1..])
  }

  /** The statement of an ordered ledger. */
  function StatementOf(ledger: seq<Item>, from: int, to: int): Statement {
    var opening := OwedBefore(ledger, from);
    var rows := RowsFrom(ledger, opening, from, to);
    Statement(opening, rows, BalanceAfter(rows, opening), Debits(rows), Credits(rows))
  }

  // ---- The balance is what is owed ----

  lemma {:induction false} InsertKeepsOwed(it: Item, items: seq<Item>, date: int)
    ensures OwedBefore(Insert(ItemKey, it, items), date)
         == (if it.date < date then it.debit - it.credit else 0) + OwedBefore(items, date)
  {
    if items == [] || AtMost(ItemKey(it), ItemKey(items[0])) {
      assert ([it] + items)[1..] == items;
    } else {
      InsertKeepsOwed(it, items[1..], date);
    }
  }

  lemma {:induction false} SortKeepsOwed(items: seq<Item>, date: int)
    ensures OwedBefore(SortBy(ItemKey, items), date) == OwedBefore(items, date)
  {
    if items != [] {
      SortKeepsOwed(items[1..], date);
      InsertKeepsOwed(items[0], SortBy(ItemKey, items[1..]), date);
    }
  }

  lemma {:induction false} RowsRunToOwed(items: seq<Item>, balance: int, from: int, to: int)
    requires from <= to + 1
    ensures var rows := RowsFrom(items, balance, from, to);
            && BalanceAfter(rows, balance) == balance + OwedBefore(items, to + 1) - OwedBefore(items, from)
            && BalanceAfter(rows, balance) == balance + Debits(rows) - Credits(rows)
  {
    if items != [] {
      if InWindow(items[0], from, to) {
        var next := balance + items[0].debit - items[0].credit;
        RowsRunToOwed(items[1..], next, from, to);
        var rest := RowsFrom(items[1..], next, from, to);
        assert ([Row(items[0], next)] + rest)[1..] == rest;
      } else {
        RowsRunToOwed(items[1..], balance, from, to);
      }
    }
  }

  /** A statement opens with what was owed before its first day and closes with what is owed after its last,
      counted straight from the documents; the difference is its debits less its credits. */
  lemma {:induction false} StatementIsWhatIsOwed(d: Documents, from: int, to: int)
    requires from <= to + 1
    ensures var s := StatementOf(Ledger(d), from, to);
            && s.opening == OwedBefore(Items(d), from)
            && s.closing == OwedBefore(Items(d), to + 1)
            && s.closing == s.opening + s.totalDebit - s.totalCredit
  {
    SortKeepsOwed(Items(d), from);
    SortKeepsOwed(Items(d), to + 1);
    RowsRunToOwed(Ledger(d), OwedBefore(Ledger(d), from), from, to);
  }

  // ---- The rows are the documents of the period ----

  function RowItems(rows: seq<Row>): seq<Item> {
    if rows == [] then [] else [rows[0].item] + RowItems(rows[1..])
  }

  lemma {:induction false} RowsAreTheWindow(items: seq<Item>, balance: int, from: int, to: int)
    ensures RowItems(RowsFrom(items, balance, from, to)) == Filter((it: Item) => InWindow(it, from, to), items)
  {
    if items != [] {
      if InWindow(items[0], from, to) {
        var next := balance + items[0].debit - items[0].credit;
        RowsAreTheWindow(items[1..], next, from, to);
        var rest := RowsFrom(items[1..], next, from, to);
        assert ([Row(items[0], next)] + rest)[1..] == rest;
      } else {
        RowsAreTheWindow(items[1..], balance, from, to);
      }
    }
  }

  // ---- The items are the documents ----

  /** What each document counts for in what was owed before a date: issued invoices, posted receipts and refunds, and
      posted sales credits, in full. */
  function InvoicedBefore(invoices: seq<CustomerInvoice>, date: int): seq<int> {
    seq(|invoices|, i requires 0 <= i < |invoices| =>
          if invoices[i].date < date && invoices[i].status in {Issued, Sent, Paid} then invoices[i].total else 0)
  }

  function PaidBefore(payments: seq<Payment>, direction: Direction, date: int): seq<int> {
    seq(|payments|, i requires 0 <= i < |payments| =>
          if payments[i].date < date && payments[i].posted && payments[i].direction == direction
          then payments[i].amount else 0)
  }

  function CreditedBefore(credits: seq<Credit>, date: int): seq<int> {
    seq(|credits|, i requires 0 <= i < |credits| =>
          if credits[i].date < date && credits[i].posted && credits[i].sales then credits[i].total else 0)
  }

  lemma {:induction false} OwedOfConcat(a: seq<Item>, b: seq<Item>, date: int)
    ensures OwedBefore(a + b, date) == OwedBefore(a, date) + OwedBefore(b, date)
  {
    if a == [] {
      assert a + b == b;
    } else {
      assert (a + b)[1..] == a[1..] + b;
      OwedOfConcat(a[1..], b, date);
    }
  }

  lemma {:induction false} OwedOfOne(it: Item, date: int)
    ensures OwedBefore([it], date) == if it.date < date then it.debit - it.credit else 0
  {
    assert [it][1..] == [];
  }

  lemma {:induction false} InvoicesOwed(invoices: seq<CustomerInvoice>, date: int)
    ensures OwedBefore(InvoiceItems(invoices), date) == Sum(InvoicedBefore(invoices, date))
  {
    if invoices != [] {
      var front, inv := invoices[..|invoices| - 1], invoices[|invoices| - 1];
      var counts := InvoicedBefore(invoices, date);
      InvoicesOwed(front, date);
      assert counts == InvoicedBefore(front, date) + [counts[|front|]];
      SumOfAppend(InvoicedBefore(front, date), counts[|front|]);
      OwedOfOne(Item(inv.date, Invoice, inv.number, inv.total, 0), date);
      OwedOfConcat(InvoiceItems(front), if IsIssued(inv.status)
                   then [Item(inv.date, Invoice, inv.number, inv.total, 0)] else [], date);
    }
  }

  lemma {:induction false} PaymentsOwed(payments: seq<Payment>, direction: Direction, date: int)
    ensures OwedBefore(PaymentItems(payments, direction), date)
         == (if direction == In then -1 else 1) * Sum(PaidBefore(payments, direction, date))
  {
    if payments != [] {
      var front, p := payments[..|payments| - 1], payments[|payments| - 1];
      var counts := PaidBefore(payments, direction, date);
      PaymentsOwed(front, direction, date);
      assert counts == PaidBefore(front, direction, date) + [counts[|front|]];
      SumOfAppend(PaidBefore(front, direction, date), counts[|front|]);
      OwedOfOne(PaymentItem(p), date);
      OwedOfConcat(PaymentItems(front, direction),
                   if p.posted && p.direction == direction then [PaymentItem(p)] else [], date);
    }
  }

  lemma {:induction false} CreditsOwed(credits: seq<Credit>, date: int)
    ensures OwedBefore(CreditItems(credits), date) == -Sum(CreditedBefore(credits, date))
  {
    if credits != [] {
      var front, cn := credits[..|credits| - 1], credits[|credits| - 1];
      var counts := CreditedBefore(credits, date);
      CreditsOwed(front, date);
      assert counts == CreditedBefore(front, date) + [counts[|front|]];
      SumOfAppend(CreditedBefore(front, date), counts[|front|]);
      OwedOfOne(Item(cn.date, CreditNote, cn.number, 0, cn.total), date);
      OwedOfConcat(CreditItems(front), if cn.sales && cn.posted
                   then [Item(cn.date, CreditNote, cn.number, 0, cn.total)] else [], date);
    }
  }

  /** What is owed is what was invoiced, less what was received, plus what was refunded, less what was credited. */
  lemma {:induction false} OwedFromDocuments(d: Documents, date: int)
    ensures OwedBefore(Items(d), date)
         == Sum(InvoicedBefore(d.invoices, date)) - Sum(PaidBefore(d.payments, In, date))
            + Sum(PaidBefore(d.payments, Out, date)) - Sum(CreditedBefore(d.credits, date))
  {
    var invoices, receipts := InvoiceItems(d.invoices), PaymentItems(d.payments, In);
    var refunds, credits := PaymentItems(d.payments, Out), CreditItems(d.credits);
    OwedOfConcat(invoices + receipts + refunds, credits, date);
    OwedOfConcat(invoices + receipts, refunds, date);
    OwedOfConcat(invoices, receipts, date);
    InvoicesOwed(d.invoices, date);
    PaymentsOwed(d.payments, In, date);
    PaymentsOwed(d.payments, Out, date);
    CreditsOwed(d.credits, date);
  }

  /** The item a payment makes: credited when received, debited when refunded, under its own reference or one made
      from its id. */
  predicate IsItemOf(it: Item, p: Payment) {
    && it.date == p.date
    && (p.direction == In ==> it.kind == Receipt && it.debit == 0 && it.credit == p.amount)
    && (p.direction == Out ==> it.kind == Refund && it.debit == p.amount && it.credit == 0)
    && (Given(p.reference) ==> Some(it.ref) == p.reference)
    && (!Given(p.reference) && p.direction == In ==> it.ref == "PAY-" + Numeral(p.id))
    && (!Given(p.reference) && p.direction == Out ==> it.ref == "REF-" + Numeral(p.id))
  }

  lemma {:induction false} PaymentMakesItem(p: Payment)
    requires p.direction != SupplierPayment
    ensures IsItemOf(PaymentItem(p), p)
  {
  }

  lemma {:induction false} PaymentItemsAre(payments: seq<Payment>, direction: Direction)
    requires direction != SupplierPayment
    ensures forall it :: it in PaymentItems(payments, direction)
              ==> exists p :: p in payments && p.posted && p.direction == direction && IsItemOf(it, p)
    ensures forall p :: p in payments && p.posted && p.direction == direction ==>
              PaymentItem(p) in PaymentItems(payments, direction)
  {
    if payments != [] {
      var front, last := payments[..|payments| - 1], payments[|payments| - 1];
      PaymentItemsAre(front, direction);
      assert payments == front + [last];
      if last.direction == direction {
        PaymentMakesItem(last);
      }
    }
  }

  /** Types in alphabetical order of the names the statement gives them: Credit note, Invoice, Receipt, Refund. */
  predicate NotAfter(a: Kind, b: Kind) {
    match a
    case CreditNote => true
    case Invoice => b != CreditNote
    case Receipt => b == Receipt || b == Refund
    case Refund => b == Refund
  }

  /** The ledger holds every item, by date and, on a date, by type. */
  lemma {:induction false} LedgerIsInOrder(d: Documents)
    ensures multiset(Ledger(d)) == multiset(Items(d))
    ensures forall i, j :: 0 <= i < j < |Ledger(d)| ==>
      var a, b := Ledger(d)[i], Ledger(d)[j];
      a.date < b.date || (a.date == b.date && NotAfter(a.kind, b.kind))
  {
    SortBySorts(ItemKey, Items(d));
    forall i, j | 0 <= i < j < |Ledger(d)|
      ensures var a, b := Ledger(d)[i], Ledger(d)[j];
              a.date < b.date || (a.date == b.date && NotAfter(a.kind, b.kind))
    {
      assert AtMost(ItemKey(Ledger(d)[i]), ItemKey(Ledger(d)[j]));
    }
  }

  // ---- Consecutive statements compose ----

  ghost predicate ByDate(items: seq<Item>) {
    forall i, j :: 0 <= i < j < |items| ==> items[i].date <= items[j].date
  }

  lemma {:induction false} LedgerIsByDate(d: Documents)
    ensures ByDate(Ledger(d))
  {
    SortBySorts(ItemKey, Items(d));
    forall i, j | 0 <= i < j < |Ledger(d)| ensures Ledger(d)[i].date <= Ledger(d)[j].date {
      assert AtMost(ItemKey(Ledger(d)[i]), ItemKey(Ledger(d)[j]));
    }
  }

  lemma {:induction false} NoRowsBefore(items: seq<Item>, balance: int, from: int, to: int)
    requires ByDate(items) && items != [] && to < items[0].date
    ensures RowsFrom(items, balance, from, to) == []
  {
    if |items| > 1 {
      assert items[0].date <= items[1].date;
      NoRowsBefore(items[1..], balance, from, to);
    }
  }

  lemma {:induction false} LaterWindowIsTail(items: seq<Item>, balance: int, a: int, b: int, c: int)
    requires ByDate(items) && a <= b < c && items != [] && b < items[0].date
    ensures RowsFrom(items, balance, a, c) == RowsFrom(items, balance, b + 1, c)
  {
    if |items| > 1 {
      assert items[0].date <= items[1].date;
      var next := if InWindow(items[0], a, c) then balance + items[0].debit - items[0].credit else balance;
      LaterWindowIsTail(items[1..], next, a, b, c);
    }
  }

  lemma {:induction false} RowsCompose(items: seq<Item>, balance: int, a: int, b: int, c: int)
    requires ByDate(items) && a <= b < c
    ensures var first := RowsFrom(items, balance, a, b);
            RowsFrom(items, balance, a, c) == first + RowsFrom(items, BalanceAfter(first, balance), b + 1, c)
  {
    if items != [] {
      if b < items[0].date {
        NoRowsBefore(items, balance, a, b);
        LaterWindowIsTail(items, balance, a, b, c);
        assert [] + RowsFrom(items, balance, b + 1, c) == RowsFrom(items, balance, b + 1, c);
      } else if InWindow(items[0], a, b) {
        var next := balance + items[0].debit - items[0].credit;
        RowsCompose(items[1..], next, a, b, c);
        var rest := RowsFrom(items[1..], next, a, b);
        assert RowsFrom(items, balance, a, b) == [Row(items[0], next)] + rest;
        assert BalanceAfter([Row(items[0], next)] + rest, balance) == BalanceAfter(rest, next);
        assert [Row(items[0], next)] + (rest + RowsFrom(items[1..], BalanceAfter(rest, next), b + 1, c))
            == [Row(items[0], next)] + rest + RowsFrom(items[1..], BalanceAfter(rest, next), b + 1, c);
      } else {
        RowsCompose(items[1..], balance, a, b, c);
      }
    }
  }

  /** The statement for [a, c] is the one for [a, b] followed by the one for [b + 1, c], balances included, and
      the second opens where the first closes. */
  lemma {:induction false} StatementsCompose(d: Documents, a: int, b: int, c: int)
    requires a <= b < c
    ensures var whole, first := StatementOf(Ledger(d), a, c), StatementOf(Ledger(d), a, b);
            var second := StatementOf(Ledger(d), b + 1, c);
            && whole.rows == first.rows + second.rows
            && whole.opening == first.opening && second.opening == first.closing && whole.closing == second.closing
  {
    LedgerIsByDate(d);
    RowsCompose(Ledger(d), OwedBefore(Ledger(d), a), a, b, c);
    RowsRunToOwed(Ledger(d), OwedBefore(Ledger(d), a), a, b);
    RowsRunToOwed(Ledger(d), OwedBefore(Ledger(d), a), a, c);
    RowsRunToOwed(Ledger(d), OwedBefore(Ledger(d), b + 1), b + 1, c);
  }

  // ---- As it runs ----

  /** The running fold of `customer_statement` over the sorted items. */
  method RunBalance(items: seq<Item>, opening: int, from: int, to: int) returns (rows: seq<Row>, balance: int)
    ensures rows == RowsFrom(items, opening, from, to) && balance == BalanceAfter(rows, opening)
  {
    rows, balance := [], opening;
    var i := 0;
    while i < |items|
      invariant 0 <= i <= |items| && balance == BalanceAfter(rows, opening)
      invariant RowsFrom(items, opening, from, to) == rows + RowsFrom(items[i..], balance, from, to)
    {
      if InWindow(items[i], from, to) {
        balance := balance + items[i].debit - items[i].credit;
        rows := rows + [Row(items[i], balance)];
      }
      i := i + 1;
    }
    assert items[i..] == [];
  }

  /** Collect the customer's issued invoices, receipts, refunds and sales credit notes. */
  method CollectItems(d: Documents) returns (items: seq<Item>)
    ensures items == Items(d)
  {
    items := [];
    var i := 0;
    while i < |d.invoices|
      invariant 0 <= i <= |d.invoices| && items == InvoiceItems(d.invoices[..i])
    {
      assert d.invoices[..i + 1][..i] == d.invoices[..i];
      var inv := d.invoices[i];
      if IsIssued(inv.status) {
        items := items + [Item(inv.date, Invoice, inv.number, inv.total, 0)];
      }
      i := i + 1;
    }
    assert d.invoices[..i] == d.invoices;
    var receipts := CollectPayments(d.payments, In);
    var refunds := CollectPayments(d.payments, Out);
    items := items + receipts + refunds;
    ghost var before := items;
    i := 0;
    while i < |d.credits|
      invariant 0 <= i <= |d.credits| && items == before + CreditItems(d.credits[..i])
    {
      assert d.credits[..i + 1][..i] == d.credits[..i];
      var cn := d.credits[i];
      if cn.sales && cn.posted {
        items := items + [Item(cn.date, CreditNote, cn.number, 0, cn.total)];
      }
      i := i + 1;
    }
    assert d.credits[..i] == d.credits;
  }

  method CollectPayments(payments: seq<Payment>, direction: Direction) returns (items: seq<Item>)
    ensures items == PaymentItems(payments, direction)
  {
    items := [];
    var i := 0;
    while i < |payments|
      invariant 0 <= i <= |payments| && items == PaymentItems(payments[..i], direction)
    {
      assert payments[..i + 1][..i] == payments[..i];
      var p := payments[i];
      if p.posted && p.direction == direction {
        items := items + [PaymentItem(p)];
      }
      i := i + 1;
    }
    assert payments[..i] == payments;
  }

  method CustomerStatement(d: Documents, from: int, to: int) returns (s: Statement)
    ensures s == StatementOf(Ledger(d), from, to)
    ensures from <= to + 1 ==>
      s.opening == OwedBefore(Items(d), from) && s.closing == OwedBefore(Items(d), to + 1)
  {
    var items := CollectItems(d);
    items := SortBy(ItemKey, items);
    var opening := OwedBefore(items, from);
    var rows, balance := RunBalance(items, opening, from, to);
    s := Statement(opening, rows, balance, Debits(rows), Credits(rows));
    if from <= to + 1 {
      StatementIsWhatIsOwed(d, from, to);
    }
  }
}
