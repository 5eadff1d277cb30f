/** Journal entries: building, storing in cents, and the gate that keeps the ledger balanced. */
module Journals {
  import opened Rounding
  import opened Records

  datatype Account = Inventory | Bank | Receivable | Payable | Grni | Accruals | VatOutput | VatInput
                   | Sales | Cogs | PriceVariance | Adjustment | OtherAccount(code: string)

  /** One journal line. While an entry is being built amounts are exact, in units of 1/10^8; stored
      amounts are in cents. */
  datatype Line = Line(account: Account, debit: int, credit: int)

  datatype Entry = Entry(ref: Ref, date: int, lines: seq<Line>)

  /** Cents in exact units. */
  function Exact(cents: int): int {
    1000000 * cents
  }

  /** How the database rounds an amount to the column's two places: half to even under SQLite, half away
      from zero under PostgreSQL. */
  datatype Storage = HalfEven | HalfUp

  /** Millionths to the nearest integer, ties to the even one. */
  function RoundHalfEven(n: int): (r: int)
    ensures -1000000 <= 2000000 * r - 2 * n <= 1000000
    ensures 2000000 * r - 2 * n == 1000000 || 2000000 * r - 2 * n == -1000000 ==> r % 2 == 0
  {
    var low := n / 1000000;
    var rest := n % 1000000;
    if rest < 500000 || (rest == 500000 && low % 2 == 0) then low else low + 1
  }

  /** Millionths to the nearest integer, ties away from zero. */
  function HalfAwayFromZero(n: int): (r: int)
    ensures -1000000 <= 2000000 * r - 2 * n <= 1000000
    ensures (0 <= n ==> -1000000 < 2000000 * r - 2 * n) && (n <= 0 ==> 2000000 * r - 2 * n < 1000000)
  {
    if 0 <= n then (n + 500000) / 1000000 else -((500000 - n) / 1000000)
  }

  lemma {:induction false} HalfAwayIsRoundedHalfUp(n: int)
    ensures HalfAwayFromZero(n) == RoundHalfUp(n, 1000000)
  {
    NearestIsUnique(n, 1000000, HalfAwayFromZero(n));
  }

  function ToCents(storage: Storage, amount: int): (cents: int)
    ensures -1000000 <= 2 * (Exact(cents) - amount) <= 1000000
  {
    if storage == HalfUp then HalfAwayFromZero(amount) else RoundHalfEven(amount)
  }

  function Stored(storage: Storage, lines: seq<Line>): seq<Line> {
    if lines == [] then []
    else [Line(lines[0].account, ToCents(storage, lines[0].debit), ToCents(storage, lines[0].credit))]
         + Stored(storage, lines[1..])
  }

  function Debits(lines: seq<Line>): int {
    if lines == [] then 0 else lines[0].debit + Debits(lines[1..])
  }

  function Credits(lines: seq<Line>): int {
    if lines == [] then 0 else lines[0].credit + Credits(lines[1..])
  }

  predicate Balanced(lines: seq<Line>) {
    Debits(lines) == Credits(lines)
  }

  /** Net debit to one account. */
  function Net(lines: seq<Line>, account: Account): int {
    if lines == [] then 0
    else (if lines[0].account == account then lines[0].debit - lines[0].credit else 0) + Net(lines[1..], account)
  }

  /** Each line has an amount on one side only. */
  ghost predicate OneSided(lines: seq<Line>) {
    forall i :: 0 <= i < |lines| ==> lines[i].debit == 0 || lines[i].credit == 0
  }

  lemma {:induction false} TotalsOfConcat(a: seq<Line>, b: seq<Line>)
    ensures Debits(a + b) == Debits(a) + Debits(b)
    ensures Credits(a + b) == Credits(a) + Credits(b)
  {
    if a == [] {
      assert a + b == b;
    } else {
      assert (a + b)[1..] == a[1..] + b;
      TotalsOfConcat(a[1..], b);
    }
  }

  lemma {:induction false} NetOfConcat(a: seq<Line>, b: seq<Line>, account: Account)
    ensures Net(a + b, account) == Net(a, account) + Net(b, account)
  {
    if a == [] {
      assert a + b == b;
    } else {
      assert (a + b)[1..] == a[1..] + b;
      NetOfConcat(a[1..], b, account);
    }
  }

  /** Storing an entry moves its balance by at most half a cent per line. */
  lemma {:induction false} StoringMovesBalance(storage: Storage, lines: seq<Line>)
    requires OneSided(lines)
    ensures var stored := Stored(storage, lines);
            var exact := Debits(lines) - Credits(lines);
            2 * Abs(Exact(Debits(stored) - Credits(stored)) - exact) <= Exact(|lines|)
  {
    if lines != [] {
      assert lines[0].debit == 0 || lines[0].credit == 0;
      StoringMovesBalance(storage, lines[1..]);
      var stored := Stored(storage, lines);
      assert stored[1..] == Stored(storage, lines[1..]);
    }
  }

  /** An entry of `n` lines that balances exactly is out by at most `n / 2` cents once stored. */
  lemma {:induction false} StoredImbalance(storage: Storage, lines: seq<Line>)
    requires OneSided(lines) && Balanced(lines)
    ensures var stored := Stored(storage, lines); 2 * Abs(Debits(stored) - Credits(stored)) <= |lines|
  {
    StoringMovesBalance(storage, lines);
  }

  lemma {:induction false} StoredOfConcat(storage: Storage, a: seq<Line>, b: seq<Line>)
    ensures Stored(storage, a + b) == Stored(storage, a) + Stored(storage, b)
  {
    if a == [] {
      assert a + b == b;
    } else {
      assert (a + b)[1..] == a[1..] + b;
      StoredOfConcat(storage, a[1..], b);
    }
  }

  /** No line is on the account. */
  predicate Elsewhere(lines: seq<Line>, account: Account) {
    forall i :: 0 <= i < |lines| ==> lines[i].account != account
  }

  lemma {:induction false} NothingElsewhere(storage: Storage, lines: seq<Line>, account: Account)
    requires Elsewhere(lines, account)
    ensures Net(Stored(storage, lines), account) == 0
  {
    if lines != [] {
      assert lines[0].account != account;
      NothingElsewhere(storage, lines[1..], account);
      assert Stored(storage, lines)[1..] == Stored(storage, lines[1..]);
    }
  }

  /** What an entry nets on an account comes from the lines on it. */
  lemma {:induction false} NetOfPart(storage: Storage, before: seq<Line>, part: seq<Line>, after: seq<Line>,
      account: Account)
    requires Elsewhere(before, account) && Elsewhere(after, account)
    ensures Net(Stored(storage, before + part + after), account) == Net(Stored(storage, part), account)
  {
    var first, mid, last := Stored(storage, before), Stored(storage, part), Stored(storage, after);
    StoredOfConcat(storage, before + part, after);
    StoredOfConcat(storage, before, part);
    NetOfConcat(first + mid, last, account);
    NetOfConcat(first, mid, account);
    NothingElsewhere(storage, before, account);
    NothingElsewhere(storage, after, account);
  }

  // ---- Creating entries ----

  datatype Refusal = DuplicateRef | Unbalanced

  /** The references the database keeps unique: those given, transfers received in parts excepted. */
  predicate KeepsUnique(ref: Ref) {
    ref.kind != OTHER("") && ref.id != "" && ref.kind != TRANSFER_RECEIPT
  }

  function Find(entries: seq<Entry>, ref: Ref): Option<Entry> {
    if entries == [] then None
    else if entries[|entries| - 1].ref == ref then Some(entries[|entries| - 1])
    else Find(entries[..|entries| - 1], ref)
  }

  predicate Exists(entries: seq<Entry>, ref: Ref) {
    Find(entries, ref).Some?
  }

  function Create(entries: seq<Entry>, e: Entry): Result<seq<Entry>, Refusal> {
    if KeepsUnique(e.ref) && Exists(entries, e.ref) then Err(DuplicateRef) else Ok(entries + [e])
  }

  /** Create, then check the balance before the transaction commits. */
  function PostGated(entries: seq<Entry>, e: Entry): Result<seq<Entry>, Refusal> {
    var created := Create(entries, e);
    if created.Ok? && !Balanced(e.lines) then Err(Unbalanced) else created
  }

  /** The entry with debits and credits swapped. */
  function Reversed(lines: seq<Line>): seq<Line> {
    if lines == [] then [] else [Line(lines[0].account, lines[0].credit, lines[0].debit)] + Reversed(lines[1..])
  }

  /** A reversal undoes the entry account by account, and balances exactly when the entry does. */
  lemma {:induction false} ReversalUndoes(lines: seq<Line>, account: Account)
    ensures Net(Reversed(lines), account) == -Net(lines, account)
    ensures Debits(Reversed(lines)) == Credits(lines) && Credits(Reversed(lines)) == Debits(lines)
  {
    if lines != [] {
      ReversalUndoes(lines[1..], account);
      assert Reversed(lines)[1..] == Reversed(lines[1..]);
    }
  }

  function LedgerDebits(entries: seq<Entry>): int {
    if entries == [] then 0 else LedgerDebits(entries[..|entries| - 1]) + Debits(entries[|entries| - 1].lines)
  }

  function LedgerCredits(entries: seq<Entry>): int {
    if entries == [] then 0 else LedgerCredits(entries[..|entries| - 1]) + Credits(entries[|entries| - 1].lines)
  }

  function LedgerNet(entries: seq<Entry>, account: Account): int {
    if entries == [] then 0
    else LedgerNet(entries[..|entries| - 1], account) + Net(entries[|entries| - 1].lines, account)
  }

  lemma {:induction false} LedgerOfAppend(entries: seq<Entry>, e: Entry)
    ensures LedgerDebits(entries + [e]) == LedgerDebits(entries) + Debits(e.lines)
    ensures LedgerCredits(entries + [e]) == LedgerCredits(entries) + Credits(e.lines)
    ensures forall account :: LedgerNet(entries + [e], account) == LedgerNet(entries, account) + Net(e.lines, account)
    ensures forall ref :: Find(entries + [e], ref) == if e.ref == ref then Some(e) else Find(entries, ref)
  {
    assert (entries + [e])[..|entries|] == entries;
  }
}
