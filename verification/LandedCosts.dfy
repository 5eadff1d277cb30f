/** Clearing a receipt's landed-cost accrual through its supplier invoices. */
module LandedCosts {
  import opened Rounding
  import opened Records
  import J = Journals
  import P = Posters

  /** A bill of one receipt: whether it is posted, and the landed cost its posting cleared, in cents. */
  datatype LandedBill = LandedBill(posted: bool, cleared: int)

  function Cleared(bills: seq<LandedBill>): int {
    if bills == [] then 0 else (if bills[0].posted then bills[0].cleared else 0) + Cleared(bills[1..])
  }

  /** What posting a bill clears: the receipt's landed cost less what its other posted bills cleared. */
  function LandedToClear(total: int, others: int): int {
    if total > 0 then Max(0, total - others) else 0
  }

  /** A landed-cost row is added, changed or removed, or a bill is posted. */
  datatype ReceiptStep = Charge(amount: int) | PostBill(i: nat)

  datatype ReceiptState = ReceiptState(total: int, bills: seq<LandedBill>)

  /** The step posts a bill not posted before. */
  predicate Posts(s: ReceiptState, step: ReceiptStep) {
    step.PostBill? && step.i < |s.bills| && !s.bills[step.i].posted
  }

  function Advance(s: ReceiptState, step: ReceiptStep): ReceiptState {
    match step
    case Charge(amount) => s.(total := s.total + amount)
    case PostBill(i) =>
      if Posts(s, step) then s.(bills := s.bills[i := LandedBill(true, LandedToClear(s.total, Cleared(s.bills)))])
      else s
  }

  function AdvanceAll(s: ReceiptState, steps: seq<ReceiptStep>): (after: ReceiptState)
    ensures |after.bills| == |s.bills|
  {
    if steps == [] then s else Advance(AdvanceAll(s, steps[..|steps| - 1]), steps[|steps| - 1])
  }

  /** The receipt after the first `k` steps, starting with nothing charged. */
  function After(bills: seq<LandedBill>, steps: seq<ReceiptStep>, k: nat): ReceiptState
    requires k <= |steps|
  {
    AdvanceAll(ReceiptState(0, bills), steps[..k])
  }

  /** The greatest landed cost any bill was posted at. */
  function HighWater(bills: seq<LandedBill>, steps: seq<ReceiptStep>): int {
    if steps == [] then 0
    else
      var front := steps[..|steps| - 1];
      var before := AdvanceAll(ReceiptState(0, bills), front);
      if Posts(before, steps[|steps| - 1]) then Max(HighWater(bills, front), before.total) else HighWater(bills, front)
  }

  ghost predicate NonePosted(bills: seq<LandedBill>) {
    forall i :: 0 <= i < |bills| ==> !bills[i].posted
  }

  lemma {:induction false} ClearedOfPosting(bills: seq<LandedBill>, i: nat, amount: int)
    requires i < |bills| && !bills[i].posted
    ensures Cleared(bills[i := LandedBill(true, amount)]) == Cleared(bills) + amount
  {
    if i == 0 {
      assert bills[0 := LandedBill(true, amount)][1..] == bills[1..];
    } else {
      assert bills[i := LandedBill(true, amount)][1..] == bills[1..][i - 1 := LandedBill(true, amount)];
      ClearedOfPosting(bills[1..], i - 1, amount);
    }
  }

  lemma {:induction false} NothingPostedNothingCleared(bills: seq<LandedBill>)
    requires NonePosted(bills)
    ensures Cleared(bills) == 0
  {
    if bills != [] {
      NothingPostedNothingCleared(bills[1..]);
    }
  }

  /** Whatever is charged, reduced and posted, in whatever order, what has been cleared is the greatest landed
      cost a bill was posted at. */
  lemma {:induction false} ClearedIsHighWater(bills: seq<LandedBill>, steps: seq<ReceiptStep>)
    requires NonePosted(bills)
    ensures Cleared(AdvanceAll(ReceiptState(0, bills), steps).bills) == HighWater(bills, steps)
    ensures 0 <= HighWater(bills, steps)
  {
    if steps == [] {
      NothingPostedNothingCleared(bills);
    } else {
      var s, step := AdvanceAll(ReceiptState(0, bills), steps[..|steps| - 1]), steps[|steps| - 1];
      ClearedIsHighWater(bills, steps[..|steps| - 1]);
      if Posts(s, step) {
        ClearedOfPosting(s.bills, step.i, LandedToClear(s.total, Cleared(s.bills)));
      }
    }
  }

  /** A bill was posted, as step `k`, at a landed cost above `total`. */
  predicate PostedAbove(bills: seq<LandedBill>, steps: seq<ReceiptStep>, k: nat, total: int)
    requires k < |steps|
  {
    Posts(After(bills, steps, k), steps[k]) && After(bills, steps, k).total > total
  }

  lemma {:induction false} HighWaterAboveIff(bills: seq<LandedBill>, steps: seq<ReceiptStep>, total: int)
    requires 0 <= total
    ensures HighWater(bills, steps) > total <==> exists k :: 0 <= k < |steps| && PostedAbove(bills, steps, k, total)
  {
    if steps != [] {
      var front := steps[..|steps| - 1];
      HighWaterAboveIff(bills, front, total);
      forall k | 0 <= k < |front| ensures PostedAbove(bills, front, k, total) <==> PostedAbove(bills, steps, k, total) {
        assert front[..k] == steps[..k];
      }
      assert PostedAbove(bills, steps, |front|, total)
        <==> Posts(AdvanceAll(ReceiptState(0, bills), front), steps[|front|])
             && AdvanceAll(ReceiptState(0, bills), front).total > total;
    }
  }

  /** The accrual is over-cleared exactly when it is negative, or a bill was posted while the receipt's landed
      cost stood above what it is now. */
  lemma {:induction false} LandedOverClearedIff(bills: seq<LandedBill>, steps: seq<ReceiptStep>)
    requires NonePosted(bills)
    ensures var s := AdvanceAll(ReceiptState(0, bills), steps);
            Cleared(s.bills) > s.total
            <==> s.total < 0 || exists k :: 0 <= k < |steps| && PostedAbove(bills, steps, k, s.total)
  {
    ClearedIsHighWater(bills, steps);
    var s := AdvanceAll(ReceiptState(0, bills), steps);
    if 0 <= s.total {
      HighWaterAboveIff(bills, steps, s.total);
    }
  }

  /** While landed cost is only added to, the accrual is never over-cleared, and each posting leaves it cleared
      in full. */
  lemma {:induction false} LandedNeverOverCleared(bills: seq<LandedBill>, steps: seq<ReceiptStep>)
    requires NonePosted(bills) && forall step :: step in steps && step.Charge? ==> 0 <= step.amount
    ensures var s := AdvanceAll(ReceiptState(0, bills), steps);
            && 0 <= Cleared(s.bills) <= s.total
            && (steps != [] && Posts(After(bills, steps, |steps| - 1), steps[|steps| - 1])
                ==> Cleared(s.bills) == s.total)
  {
    if steps == [] {
      NothingPostedNothingCleared(bills);
    } else {
      var front, step := steps[..|steps| - 1], steps[|steps| - 1];
      var s := AdvanceAll(ReceiptState(0, bills), front);
      assert step in steps && forall st :: st in front ==> st in steps;
      LandedNeverOverCleared(bills, front);
      if Posts(s, step) {
        ClearedOfPosting(s.bills, step.i, LandedToClear(s.total, Cleared(s.bills)));
      }
    }
  }

  /** 100.00 charged, a bill posted, 40.00 taken off again: 40.00 more is cleared than accrued. */
  lemma {:induction false} ReducedChargeOverClears()
    ensures var steps := [Charge(10000), PostBill(0), Charge(-4000)];
            var s := AdvanceAll(ReceiptState(0, [LandedBill(false, 0)]), steps);
            s.total == 6000 && Cleared(s.bills) == 10000
  {
    var bills := [LandedBill(false, 0)];
    var steps := [Charge(10000), PostBill(0), Charge(-4000)];
    var start := ReceiptState(0, bills);
    assert steps[..2] == [Charge(10000), PostBill(0)] && steps[..2][..1] == [Charge(10000)];
    assert AdvanceAll(start, steps[..2][..1]) == Advance(start, Charge(10000)) by {
      assert [Charge(10000)][..0] == [];
    }
    ClearedIsHighWater(bills, steps[..2]);
    ClearedIsHighWater(bills, steps[..2][..1]);
  }

  // ---- The entries behind it ----

  /** A bill's document: what its entry is made from, but for the landed cost it clears. */
  datatype BillDocument = BillDocument(ref: Ref, date: int, lines: seq<P.PurchaseLine>, received: Option<int>)

  function BillEntry(storage: J.Storage, doc: BillDocument, cleared: int): J.Entry {
    J.Entry(doc.ref, doc.date, J.Stored(storage, P.SupplierInvoiceLines(P.Bill(doc.lines, doc.received, cleared))))
  }

  /** The entries of the bills posted along the way, each clearing what its posting cleared. */
  function BillEntries(storage: J.Storage, docs: seq<BillDocument>, bills: seq<LandedBill>, steps: seq<ReceiptStep>)
    : seq<J.Entry>
    requires |docs| == |bills|
  {
    if steps == [] then []
    else
      var front, step := steps[..|steps| - 1], steps[|steps| - 1];
      var s := AdvanceAll(ReceiptState(0, bills), front);
      BillEntries(storage, docs, bills, front)
      + (if Posts(s, step) then [BillEntry(storage, docs[step.i], LandedToClear(s.total, Cleared(s.bills)))] else [])
  }

  /** The receipt's entry: goods and inventory values exact, the landed cost it accrues in cents. */
  function ReceiptEntry(storage: J.Storage, ref: Ref, date: int, value: int, landed: int, inventory: int): J.Entry {
    J.Entry(ref, date, J.Stored(storage, P.InventoryReceiptLines(value, J.Exact(landed), inventory)))
  }

  lemma {:induction false} StoredCents(storage: J.Storage, line: J.Line, debit: int, credit: int)
    requires line.debit == J.Exact(debit) && line.credit == J.Exact(credit)
    ensures J.Net(J.Stored(storage, [line]), line.account) == debit - credit
  {
    assert [line][1..] == [];
    var stored := J.Line(line.account, debit, credit);
    assert J.Stored(storage, [line]) == [stored] && [stored][1..] == [];
  }

  /** A bill's entry debits Accruals with what it clears. */
  lemma {:induction false} BillClearsAccruals(storage: J.Storage, doc: BillDocument, cleared: int)
    ensures J.Net(BillEntry(storage, doc, cleared).lines, J.Accruals) == Max(0, cleared)
  {
    var b := P.Bill(doc.lines, doc.received, cleared);
    var billed, tax, landed := P.Billed(b.lines), P.InputTax(b.lines), J.Exact(cleared);
    var before := [J.Line(J.Grni, P.GrniValue(b), 0)] + P.VarianceLine(billed - P.GrniValue(b));
    var part := if landed > 0 then [J.Line(J.Accruals, landed, 0)] else [];
    var input := if tax != 0 then [J.Line(J.VatInput, tax, 0)] else [];
    var after := input + [J.Line(J.Payable, 0, billed + tax + landed)];
    assert P.SupplierInvoiceLines(b) == before + part + after;
    J.NetOfPart(storage, before, part, after, J.Accruals);
    if landed > 0 {
      StoredCents(storage, J.Line(J.Accruals, landed, 0), cleared, 0);
    }
  }

  /** The receipt's entry credits Accruals with its landed cost. */
  lemma {:induction false} ReceiptAccrues(storage: J.Storage, ref: Ref, date: int, value: int, landed: int,
      inventory: int)
    ensures J.Net(ReceiptEntry(storage, ref, date, value, landed, inventory).lines, J.Accruals) == -Max(0, landed)
  {
    var exact := J.Exact(landed);
    var variance := value + exact - inventory;
    var before := (if inventory > 0 then [J.Line(J.Inventory, inventory, 0)] else [])
                  + (if value > 0 then [J.Line(J.Grni, 0, value)] else []);
    var part := if exact > 0 then [J.Line(J.Accruals, 0, exact)] else [];
    var after := P.VarianceLine(variance);
    assert P.InventoryReceiptLines(value, exact, inventory) == before + part + after;
    J.NetOfPart(storage, before, part, after, J.Accruals);
    if exact > 0 {
      StoredCents(storage, J.Line(J.Accruals, 0, exact), 0, landed);
    }
  }

  lemma {:induction false} BillsClearHighWater(storage: J.Storage, docs: seq<BillDocument>, bills: seq<LandedBill>,
      steps: seq<ReceiptStep>)
    requires NonePosted(bills) && |docs| == |bills|
    ensures J.LedgerNet(BillEntries(storage, docs, bills, steps), J.Accruals) == HighWater(bills, steps)
  {
    if steps != [] {
      var front, step := steps[..|steps| - 1], steps[|steps| - 1];
      var s := AdvanceAll(ReceiptState(0, bills), front);
      BillsClearHighWater(storage, docs, bills, front);
      ClearedIsHighWater(bills, front);
      if Posts(s, step) {
        var cleared := LandedToClear(s.total, Cleared(s.bills));
        BillClearsAccruals(storage, docs[step.i], cleared);
        J.LedgerOfAppend(BillEntries(storage, docs, bills, front), BillEntry(storage, docs[step.i], cleared));
      } else {
        assert BillEntries(storage, docs, bills, steps) == BillEntries(storage, docs, bills, front);
      }
    }
  }

  lemma {:induction false} LedgerOfFirst(e: J.Entry, entries: seq<J.Entry>, account: J.Account)
    ensures J.LedgerNet([e] + entries, account) == J.Net(e.lines, account) + J.LedgerNet(entries, account)
  {
    if entries == [] {
      assert [e] + entries == [e] && [e][..0] == [];
    } else {
      assert ([e] + entries)[..|entries|] == [e] + entries[..|entries| - 1];
      LedgerOfFirst(e, entries[..|entries| - 1], account);
    }
  }

  /** In the ledger the receipt leaves on Accruals what its entry credited less the greatest landed cost a bill was
      posted at: nothing exactly when that is what it accrued. */
  lemma {:induction false} AccrualLeft(storage: J.Storage, ref: Ref, date: int, value: int, landed: int, inventory: int,
      docs: seq<BillDocument>, bills: seq<LandedBill>, steps: seq<ReceiptStep>)
    requires NonePosted(bills) && |docs| == |bills|
    ensures var receipt := ReceiptEntry(storage, ref, date, value, landed, inventory);
            J.LedgerNet([receipt] + BillEntries(storage, docs, bills, steps), J.Accruals)
            == HighWater(bills, steps) - Max(0, landed)
  {
    var receipt := ReceiptEntry(storage, ref, date, value, landed, inventory);
    ReceiptAccrues(storage, ref, date, value, landed, inventory);
    BillsClearHighWater(storage, docs, bills, steps);
    LedgerOfFirst(receipt, BillEntries(storage, docs, bills, steps), J.Accruals);
  }
}
