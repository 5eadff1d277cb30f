/** The posters, appending journal entries to the ledger. All but `post_supplier_invoice` run in a transaction and
    check the balance of what they posted: when one raises, the entries it created are gone. */
module GeneralLedger {
  import opened Rounding
  import opened Records
  import opened Journals
  import opened Posters

  /** A supplier invoice line's quantity against what was ordered and received, where it is linked. */
  datatype MatchLine = MatchLine(qty: int, ordered: Option<int>, received: Option<int>)

  datatype Mismatch = OverReceived(line: nat) | OverOrdered(line: nat)

  predicate ExceedsReceived(l: MatchLine) {
    l.received.Some? && l.qty > l.received.value
  }

  predicate ExceedsOrdered(l: MatchLine) {
    l.ordered.Some? && l.qty > l.ordered.value
  }

  /** The three-way match: one error for each limit a line exceeds, and none exactly when all lines match. */
  method MatchErrors(lines: seq<MatchLine>) returns (errors: seq<Mismatch>)
    ensures forall i: nat :: OverReceived(i) in errors <==> i < |lines| && ExceedsReceived(lines[i])
    ensures forall i: nat :: OverOrdered(i) in errors <==> i < |lines| && ExceedsOrdered(lines[i])
    ensures errors == [] <==> !OverBills(lines)
  {
    errors := [];
    var i := 0;
    while i < |lines|
      invariant 0 <= i <= |lines|
      invariant forall k: nat :: OverReceived(k) in errors <==> k < i && ExceedsReceived(lines[k])
      invariant forall k: nat :: OverOrdered(k) in errors <==> k < i && ExceedsOrdered(lines[k])
      invariant errors == [] <==> forall k :: 0 <= k < i ==> !ExceedsReceived(lines[k]) && !ExceedsOrdered(lines[k])
    {
      if ExceedsReceived(lines[i]) {
        errors := errors + [OverReceived(i)];
      }
      if ExceedsOrdered(lines[i]) {
        errors := errors + [OverOrdered(i)];
      }
      i := i + 1;
    }
  }

  predicate OverBills(lines: seq<MatchLine>) {
    exists i :: 0 <= i < |lines| && (ExceedsReceived(lines[i]) || ExceedsOrdered(lines[i]))
  }

  ghost predicate AllBalanced(entries: seq<Entry>) {
    forall e :: e in entries ==> Balanced(e.lines)
  }

  /** The lines move `value` from one account to another and touch no third. */
  ghost predicate MovesOnly(lines: seq<Line>, debited: Account, credited: Account, value: int) {
    && Balanced(lines)
    && forall account :: Net(lines, account)
         == if account == debited then value else if account == credited then -value else 0
  }

  datatype Outcome = Posted(entry: Entry) | Existing(entry: Entry) | NothingToPost
                   | Refused(refusal: Refusal) | OverBilled

  class Books {
    const storage: Storage
    var entries: seq<Entry>

    constructor (storage: Storage)
      ensures this.storage == storage && entries == []
    {
      this.storage := storage;
      entries := [];
    }

    /** Create an entry, and check its balance before committing. */
    method Post(e: Entry) returns (r: Outcome)
      modifies this`entries
      ensures match PostGated(old(entries), e)
              case Ok(after) => entries == after && r == Posted(e)
              case Err(refusal) => entries == old(entries) && r == Refused(refusal)
      ensures AllBalanced(old(entries)) ==> AllBalanced(entries)
    {
      if KeepsUnique(e.ref) && Exists(entries, e.ref) {
        return Refused(DuplicateRef);
      }
      var saved := entries;
      entries := entries + [e];
      if Debits(e.lines) != Credits(e.lines) {
        entries := saved;
        return Refused(Unbalanced);
      }
      r := Posted(e);
    }

    /** `post_cogs`, once per reference. */
    method PostCogs(number: string, date: int, value: int) returns (r: Outcome)
      modifies this`entries
      ensures var ref := Ref(COGS, number);
              && (value <= 0 ==> r == NothingToPost && entries == old(entries))
              && (value > 0 && Exists(old(entries), ref) ==>
                    r == Existing(Find(old(entries), ref).value) && entries == old(entries))
              && (value > 0 && !Exists(old(entries), ref) ==>
                    && r == Posted(Entry(ref, date, CogsLines(value))) && entries == old(entries) + [r.entry]
                    && MovesOnly(r.entry.lines, Cogs, Inventory, value))
      ensures AllBalanced(old(entries)) ==> AllBalanced(entries)
    {
      if value <= 0 {
        return NothingToPost;
      }
      var existing := Find(entries, Ref(COGS, number));
      if existing.Some? {
        return Existing(existing.value);
      }
      var e := Entry(Ref(COGS, number), date, CogsLines(value));
      CogsLinesNet(value);
      r := Post(e);
    }

    /** `post_inventory_receipt`: the value defaults to goods and landed cost together. */
    method PostInventoryReceipt(ref: Ref, date: int, value: int, landed: int, inventoryValue: Option<int>)
      returns (r: Outcome)
      modifies this`entries
      ensures var inventory := if inventoryValue.Some? then inventoryValue.value else value + landed;
              if value + landed <= 0 && inventory <= 0 then r == NothingToPost && entries == old(entries)
              else var e := Entry(ref, date, Stored(storage, InventoryReceiptLines(value, landed, inventory)));
                   match PostGated(old(entries), e)
                   case Ok(after) => entries == after && r == Posted(e)
                   case Err(refusal) => entries == old(entries) && r == Refused(refusal)
      ensures AllBalanced(old(entries)) ==> AllBalanced(entries)
    {
      var inventory := if inventoryValue.Some? then inventoryValue.value else value + landed;
      if value + landed <= 0 && inventory <= 0 {
        return NothingToPost;
      }
      var lines := [];
      if inventory > 0 {
        lines := lines + [Line(Inventory, inventory, 0)];
      }
      if value > 0 {
        lines := lines + [Line(Grni, 0, value)];
      }
      if landed > 0 {
        lines := lines + [Line(Accruals, 0, landed)];
      }
      var variance := value + landed - inventory;
      if variance > 0 {
        lines := lines + [Line(PriceVariance, variance, 0)];
      } else if variance < 0 {
        lines := lines + [Line(PriceVariance, 0, -variance)];
      }
      assert lines == InventoryReceiptLines(value, landed, inventory);
      r := Post(Entry(ref, date, Stored(storage, lines)));
    }

    /** `post_supplier_invoice`: a posted bill's entry is returned as it is; otherwise the bill is matched
        against order and receipt unless over-billing is allowed, and stored without a balance check. */
    method PostSupplierInvoice(posted: bool, number: string, date: int, bill: Bill, matches: seq<MatchLine>,
                               allowOverBilling: bool)
      returns (r: Outcome)
      modifies this`entries
      ensures var ref := Ref(AP_INVOICE, number);
              var e := Entry(ref, date, Stored(storage, SupplierInvoiceLines(bill)));
              if posted && Exists(old(entries), ref) then
                entries == old(entries) && r == Existing(Find(old(entries), ref).value)
              else if !allowOverBilling && OverBills(matches) then
                entries == old(entries) && r == OverBilled
              else match Create(old(entries), e)
                   case Ok(after) => entries == after && r == Posted(e)
                   case Err(refusal) => entries == old(entries) && r == Refused(refusal)
      ensures 0 <= bill.landed && r.Posted? ==> Abs(Debits(r.entry.lines) - Credits(r.entry.lines)) <= 2
    {
      var ref := Ref(AP_INVOICE, number);
      if posted {
        var existing := Find(entries, ref);
        if existing.Some? {
          return Existing(existing.value);
        }
      }
      if !allowOverBilling {
        var errors := MatchErrors(matches);
        if errors != [] {
          return OverBilled;
        }
      }
      var e := Entry(ref, date, Stored(storage, SupplierInvoiceLines(bill)));
      if 0 <= bill.landed {
        SupplierInvoiceBalances(bill, storage);
      }
      if KeepsUnique(ref) && Exists(entries, ref) {
        return Refused(DuplicateRef);
      }
      entries := entries + [e];
      r := Posted(e);
    }

    /** `post_credit_note`: amounts are accumulated by account before they are posted, once. */
    method PostCreditNote(posted: bool, id: string, date: int, kind: CreditKind, lines: seq<CreditLine>)
      returns (r: Outcome)
      modifies this`entries
      ensures var ref := Ref(CREDIT_NOTE, id);
              var e := Entry(ref, date, Stored(storage, CreditNoteLines(kind, lines)));
              if posted && Exists(old(entries), ref) then
                entries == old(entries) && r == Existing(Find(old(entries), ref).value)
              else match PostGated(old(entries), e)
                   case Ok(after) => entries == after && r == Posted(e)
                   case Err(refusal) => entries == old(entries) && r == Refused(refusal)
      ensures AllBalanced(old(entries)) ==> AllBalanced(entries)
    {
      if posted {
        var existing := Find(entries, Ref(CREDIT_NOTE, id));
        if existing.Some? {
          return Existing(existing.value);
        }
      }
      var groups: seq<Group> := [];
      var i := 0;
      while i < |lines|
        invariant 0 <= i <= |lines| && groups == ByAccount(kind, lines[..i])
        invariant entries == old(entries)
      {
        assert lines[..i + 1][..i] == lines[..i];
        groups := AddTo(groups, AccountOf(kind, lines[i]), CreditLineTotal(lines[i]));
        i := i + 1;
      }
      assert lines[..i] == lines;
      var built := GroupLines(kind, groups);
      var tax, total := CreditTax(lines), CreditSubtotal(lines) + CreditTax(lines);
      if kind == SalesCredit {
        built := built + ((if tax != 0 then [Line(VatOutput, tax, 0)] else []) + [Line(Receivable, 0, total)]);
      } else {
        built := [Line(Payable, total, 0)] + (built + (if tax != 0 then [Line(VatInput, 0, tax)] else []));
      }
      r := Post(Entry(Ref(CREDIT_NOTE, id), date, Stored(storage, built)));
    }

    /** `reverse_payment`: back out the payment's own entry, account by account. */
    method ReversePayment(id: string, date: int) returns (r: Outcome)
      modifies this`entries
      ensures match Find(old(entries), Ref(PAYMENT, id))
              case None => r == NothingToPost && entries == old(entries)
              case Some(original) =>
                var e := Entry(Ref(PAYMENT_REVERSAL, id), date, Reversed(original.lines));
                && (forall account :: Net(e.lines, account) == -Net(original.lines, account))
                && (match PostGated(old(entries), e)
                    case Ok(after) => entries == after && r == Posted(e)
                    case Err(refusal) => entries == old(entries) && r == Refused(refusal))
      ensures AllBalanced(old(entries)) ==> AllBalanced(entries)
    {
      var original := Find(entries, Ref(PAYMENT, id));
      if original.None? {
        return NothingToPost;
      }
      var lines := [];
      var i := 0;
      while i < |original.value.lines|
        invariant 0 <= i <= |original.value.lines|
        invariant lines + Reversed(original.value.lines[i..]) == Reversed(original.value.lines)
        invariant entries == old(entries)
      {
        var l := original.value.lines[i];
        assert original.value.lines[i..][1..] == original.value.lines[i + 1..];
        lines := lines + [Line(l.account, l.credit, l.debit)];
        i := i + 1;
      }
      assert original.value.lines[i..] == [] && lines + [] == lines;
      forall account ensures Net(lines, account) == -Net(original.value.lines, account) {
        ReversalUndoes(original.value.lines, account);
      }
      r := Post(Entry(Ref(PAYMENT_REVERSAL, id), date, lines));
    }
  }

  lemma {:induction false} CogsLinesNet(value: int)
    ensures MovesOnly(CogsLines(value), Cogs, Inventory, value)
  {
    var lines := CogsLines(value);
    assert lines == [lines[0]] + [lines[1]] && [lines[0]][1..] == [] && [lines[1]][1..] == [];
    TotalsOfConcat([lines[0]], [lines[1]]);
    forall account ensures Net(lines, account) == Net([lines[0]], account) + Net([lines[1]], account) {
      NetOfConcat([lines[0]], [lines[1]], account);
    }
  }
}
