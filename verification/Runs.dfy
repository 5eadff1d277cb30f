/** Runs of inventory operations. An operation that is refused leaves the inventory as it was. */
module Runs {
  import opened Records
  import opened Tables
  import opened Ledger
  import H = Holds

  datatype Op =
    | Move(m: Request)
    | Reserve(place: Place, tag: Tag, qty: int, ref: Ref, now: int)
    | Release(ref: Ref)
    | Consume(ref: Ref, consumed: Option<int>, now: int)
    | Expire(cutoff: int)

  function OrKeep(r: Result<Inventory, Problem>, inv: Inventory): Inventory {
    if r.Ok? then r.value else inv
  }

  function Step(t: Tenant, inv: Inventory, op: Op): Inventory {
    match op
    case Move(m) => OrKeep(Apply(t, inv, m), inv)
    case Reserve(place, tag, qty, ref, now) => OrKeep(H.Reserve(t, inv, place, tag, qty, ref, now), inv)
    case Release(ref) => H.Release(inv, ref)
    case Consume(ref, qty, now) => H.Consume(inv, ref, qty, now).inv
    case Expire(cutoff) => H.Expire(inv, cutoff).inv
  }

  function Run(t: Tenant, inv: Inventory, ops: seq<Op>): Inventory {
    if ops == [] then inv else Step(t, Run(t, inv, ops[..|ops| - 1]), ops[|ops| - 1])
  }

  lemma {:induction false} RunOfAppend(t: Tenant, inv: Inventory, ops: seq<Op>, op: Op)
    ensures Run(t, inv, ops + [op]) == Step(t, Run(t, inv, ops), op)
  {
    assert (ops + [op])[..|ops|] == ops;
  }

  /** `op` is a movement that goes through from `inv`. */
  predicate Accepted(t: Tenant, inv: Inventory, op: Op) {
    op.Move? && MovementProblem(t, inv, op.m).None?
  }

  // ---- Reservation operations move no stock ----

  ghost predicate SameStock(a: Inventory, b: Inventory) {
    && a.bins == b.bins && a.layers == b.layers && a.averages == b.averages
    && a.movements == b.movements && a.issueCosts == b.issueCosts
    && (forall k :: OnHand(a.balances, k) == OnHand(b.balances, k))
    && (forall k :: OnHand(a.lots, k) == OnHand(b.lots, k))
    && (forall p :: TotalOnHand(a, p) == TotalOnHand(b, p))
    && (forall key: SerialKey :: SumOnHand(a.lots, SerialAt, key) == SumOnHand(b.lots, SerialAt, key))
    && (Unique(a.lots) ==> Unique(b.lots)) && (Unique(a.balances) ==> Unique(b.balances))
  }

  /** Adding to `reserved` alone leaves every on-hand quantity and every on-hand total alone. */
  lemma {:induction false} ReservedPostKeepsOnHand<K>(rows: seq<Row<K>>, k: K, reserved: int)
    ensures var after := Post(rows, k, 0, reserved);
            && (forall other :: OnHand(after, other) == OnHand(rows, other))
            && (Unique(rows) ==> Unique(after))
  {
    forall other ensures OnHand(Post(rows, k, 0, reserved), other) == OnHand(rows, other) {
      PostChangesOneKey(rows, k, 0, reserved, other);
    }
    PostKeepsKeys(rows, k, 0, reserved);
  }

  lemma {:induction false} HoldKeepsStock(a: Inventory, b: Inventory, place: Place, key: LotKey, amount: int)
    requires b.balances == a.balances || b.balances == Post(a.balances, place, 0, amount)
    requires b.lots == a.lots || b.lots == Post(a.lots, key, 0, amount)
    requires b == a.(balances := b.balances, lots := b.lots, reservations := b.reservations)
    ensures SameStock(a, b)
  {
    ReservedPostKeepsOnHand(a.balances, place, amount);
    ReservedPostKeepsOnHand(a.lots, key, amount);
    forall p ensures TotalOnHand(a, p) == TotalOnHand(b, p) {
      PostChangesSum(a.balances, place, 0, amount, ProductOf, p);
    }
    forall at: SerialKey ensures SumOnHand(a.lots, SerialAt, at) == SumOnHand(b.lots, SerialAt, at) {
      PostChangesSum(a.lots, key, 0, amount, SerialAt, at);
    }
  }

  lemma {:induction false} ReleaseFromKeepsStock(inv: Inventory, ref: Ref, i: nat)
    ensures SameStock(inv, H.ReleaseFrom(inv, ref, i))
    decreases |inv.reservations| - i
  {
    if i < |inv.reservations| {
      var r := inv.reservations[i];
      if H.Wanted(r, ref) {
        HoldKeepsStock(inv, H.ReleaseRow(inv, i), r.place, LotKey(r.place, r.tag), -r.qty);
        ReleaseFromKeepsStock(H.ReleaseRow(inv, i), ref, i + 1);
      } else {
        ReleaseFromKeepsStock(inv, ref, i + 1);
      }
    }
  }

  lemma {:induction false} ConsumeFromKeepsStock(inv: Inventory, ref: Ref, remaining: Option<int>, i: nat, n: nat,
      now: int)
    requires n <= |inv.reservations|
    ensures SameStock(inv, H.ConsumeFrom(inv, ref, remaining, i, n, now).inv)
    decreases n - i
  {
    if i < n {
      var r := inv.reservations[i];
      var take := H.TakeOf(r, ref, remaining);
      if take <= 0 {
        ConsumeFromKeepsStock(inv, ref, remaining, i + 1, n, now);
      } else {
        var next := H.ConsumeRow(inv, i, take, now);
        HoldKeepsStock(inv, next, r.place, LotKey(r.place, r.tag), -take);
        ConsumeFromKeepsStock(next, ref, H.Less(remaining, take), i + 1, n, now);
      }
    }
  }

  lemma {:induction false} ReleaseAllKeepsStock(inv: Inventory, refs: seq<Ref>)
    ensures SameStock(inv, H.ReleaseAll(inv, refs).inv)
    decreases |refs|
  {
    if refs != [] {
      ReleaseFromKeepsStock(inv, refs[0], 0);
      ReleaseAllKeepsStock(H.Release(inv, refs[0]), refs[1..]);
    }
  }

  /** Only an accepted movement changes stock, layers, averages, the ledger or the issue-cost trail. */
  lemma {:induction false} OnlyMovementsMoveStock(t: Tenant, inv: Inventory, op: Op)
    ensures !Accepted(t, inv, op) ==> SameStock(inv, Step(t, inv, op))
    ensures Accepted(t, inv, op) ==>
      && op.m.place.product in t.products
      && Step(t, inv, op) == Book(inv, op.m, CostingOf(t, inv, op.m))
  {
    match op
    case Move(m) =>
    case Reserve(place, tag, qty, ref, now) =>
      HoldKeepsStock(inv, Step(t, inv, op), place, LotKey(place, tag), qty);
    case Release(ref) => ReleaseFromKeepsStock(inv, ref, 0);
    case Consume(ref, qty, now) => ConsumeFromKeepsStock(inv, ref, qty, 0, |inv.reservations|, now);
    case Expire(cutoff) => ReleaseAllKeepsStock(inv, H.StaleRefs(inv.reservations, cutoff));
  }

  // ---- The ledger and the balances agree ----

  /** The balances a movement posts to. */
  datatype Account = Company(product: ProductId) | AtPlace(place: Place) | InLot(lot: LotKey) | InBin(bin: BinKey)

  predicate Kept(a: Account) {
    a.InLot? ==> IsTagged(a.lot.tag)
  }

  predicate PostsTo(place: Place, tag: Tag, bin: Option<BinId>, a: Account) {
    match a
    case Company(product) => place.product == product
    case AtPlace(p) => place == p
    case InLot(lot) => IsTagged(tag) && LotKey(place, tag) == lot
    case InBin(key) => bin == Some(key.bin) && place == key.place
  }

  function Balance(inv: Inventory, a: Account): int {
    match a
    case Company(product) => TotalOnHand(inv, product)
    case AtPlace(place) => OnHand(inv.balances, place)
    case InLot(lot) => OnHand(inv.lots, lot)
    case InBin(bin) => OnHand(inv.bins, bin)
  }

  function LedgerSum(ms: seq<Movement>, a: Account): int {
    if ms == [] then 0
    else
      var m := ms[|ms| - 1];
      LedgerSum(ms[..|ms| - 1], a) + (if PostsTo(m.place, m.tag, m.bin, a) then m.qty else 0)
  }

  ghost predicate LedgerAgrees(inv: Inventory) {
    forall a: Account :: Kept(a) ==> Balance(inv, a) == LedgerSum(inv.movements, a)
  }

  lemma {:induction false} BookMovesBalances(inv: Inventory, m: Request, c: Costing, a: Account)
    requires Kept(a)
    ensures Balance(Book(inv, m, c), a) == Balance(inv, a) + (if PostsTo(m.place, m.tag, m.bin, a) then m.qty else 0)
    ensures LedgerSum(Book(inv, m, c).movements, a)
         == LedgerSum(inv.movements, a) + (if PostsTo(m.place, m.tag, m.bin, a) then m.qty else 0)
  {
    match a {
      case Company(product) => PostChangesSum(inv.balances, m.place, m.qty, 0, ProductOf, product);
      case AtPlace(place) => PostChangesOneKey(inv.balances, m.place, m.qty, 0, place);
      case InLot(lot) => PostChangesOneKey(inv.lots, LotKey(m.place, m.tag), m.qty, 0, lot);
      case InBin(bin) =>
        if m.bin.Some? { PostChangesOneKey(inv.bins, BinKey(m.place, m.bin.value), m.qty, 0, bin); }
    }
    assert (inv.movements + [Entry(m, c)])[..|inv.movements|] == inv.movements;
  }

  lemma {:induction false} StepKeepsLedgerAgreement(t: Tenant, inv: Inventory, op: Op)
    requires LedgerAgrees(inv)
    ensures LedgerAgrees(Step(t, inv, op))
  {
    OnlyMovementsMoveStock(t, inv, op);
    if Accepted(t, inv, op) {
      forall a: Account | Kept(a) ensures Balance(Step(t, inv, op), a) == LedgerSum(Step(t, inv, op).movements, a) {
        BookMovesBalances(inv, op.m, CostingOf(t, inv, op.m), a);
      }
    }
  }

  /** In every reachable state each company-wide, location, tagged-lot and bin balance is the sum of its
      ledger movements. */
  lemma {:induction false} LedgerAlwaysAgrees(t: Tenant, ops: seq<Op>)
    ensures LedgerAgrees(Run(t, Empty, ops))
  {
    if ops == [] {
      assert forall a: Account :: LedgerSum([], a) == 0;
    } else {
      LedgerAlwaysAgrees(t, ops[..|ops| - 1]);
      StepKeepsLedgerAgreement(t, Run(t, Empty, ops[..|ops| - 1]), ops[|ops| - 1]);
    }
  }

  ghost predicate NeverNegative(inv: Inventory) {
    forall a: Account :: Kept(a) && !a.Company? ==> 0 <= Balance(inv, a)
  }

  /** In strict mode no location, lot or bin balance that starts non-negative ever goes negative. */
  lemma {:induction false} StrictModeNeverNegative(t: Tenant, inv: Inventory, ops: seq<Op>)
    requires t.blockNegative && NeverNegative(inv)
    ensures NeverNegative(Run(t, inv, ops))
  {
    if ops != [] {
      var front := Run(t, inv, ops[..|ops| - 1]);
      StrictModeNeverNegative(t, inv, ops[..|ops| - 1]);
      StrictStepNeverNegative(t, front, ops[|ops| - 1]);
    }
  }

  lemma {:induction false} StrictStepNeverNegative(t: Tenant, inv: Inventory, op: Op)
    requires t.blockNegative && NeverNegative(inv)
    ensures NeverNegative(Step(t, inv, op))
  {
    OnlyMovementsMoveStock(t, inv, op);
    if Accepted(t, inv, op) {
      forall a: Account | Kept(a) && !a.Company? ensures 0 <= Balance(Step(t, inv, op), a) {
        BookMovesBalances(inv, op.m, CostingOf(t, inv, op.m), a);
        assert 0 <= Balance(inv, a);
      }
    }
  }

  /** Strict mode refuses a movement exactly when booking it would leave some balance negative. */
  lemma {:induction false} StrictRefusesExactly(t: Tenant, inv: Inventory, m: Request, c: Costing)
    requires t.blockNegative && NeverNegative(inv)
    ensures StockProblem(t, inv, m).None? <==> NeverNegative(Book(inv, m, c))
  {
    var after := Book(inv, m, c);
    forall a: Account | Kept(a)
      ensures Balance(after, a) == Balance(inv, a) + (if PostsTo(m.place, m.tag, m.bin, a) then m.qty else 0)
    {
      BookMovesBalances(inv, m, c, a);
    }
    assert Balance(after, AtPlace(m.place)) == OnHand(inv.balances, m.place) + m.qty;
    if IsTagged(m.tag) {
      var lot := LotKey(m.place, m.tag);
      assert Balance(after, InLot(lot)) == OnHand(inv.lots, lot) + m.qty;
    }
    if m.bin.Some? {
      var bin := BinKey(m.place, m.bin.value);
      assert Balance(after, InBin(bin)) == OnHand(inv.bins, bin) + m.qty;
    }
    if StockProblem(t, inv, m).None? {
      forall a: Account | Kept(a) && !a.Company? ensures 0 <= Balance(after, a) {
        assert 0 <= Balance(inv, a);
      }
    }
  }

  // ---- Holds agree with reservations over whole runs ----

  lemma {:induction false} StepKeepsHolds(t: Tenant, inv: Inventory, op: Op)
    requires H.HoldsAgree(inv)
    ensures H.HoldsAgree(Step(t, inv, op))
  {
    match op
    case Move(m) =>
      if Accepted(t, inv, op) {
        BookKeepsHolds(inv, m, CostingOf(t, inv, m));
      }
    case Reserve(place, tag, qty, ref, now) => H.ReserveKeepsAgreement(t, inv, place, tag, qty, ref, now);
    case Release(ref) => H.ReleaseFromRows(inv, ref, 0);
    case Consume(ref, qty, now) => H.ConsumeFromKeepsAgreement(inv, ref, qty, 0, |inv.reservations|, now);
    case Expire(cutoff) => ReleaseAllKeepsHolds(inv, H.StaleRefs(inv.reservations, cutoff));
  }

  lemma {:induction false} ReleaseAllKeepsHolds(inv: Inventory, refs: seq<Ref>)
    requires H.HoldsAgree(inv)
    ensures H.HoldsAgree(H.ReleaseAll(inv, refs).inv)
    decreases |refs|
  {
    if refs != [] {
      H.ReleaseFromRows(inv, refs[0], 0);
      ReleaseAllKeepsHolds(H.Release(inv, refs[0]), refs[1..]);
    }
  }

  lemma {:induction false} BookKeepsHolds(inv: Inventory, m: Request, c: Costing)
    requires H.HoldsAgree(inv)
    ensures H.HoldsAgree(Book(inv, m, c))
  {
    var after := Book(inv, m, c);
    forall place ensures Reserved(after.balances, place) == Reserved(inv.balances, place) {
      PostChangesOneKey(inv.balances, m.place, m.qty, 0, place);
    }
    forall key ensures Reserved(after.lots, key) == Reserved(inv.lots, key) {
      PostChangesOneKey(inv.lots, LotKey(m.place, m.tag), m.qty, 0, key);
    }
  }

  /** Over any run of reservations, releases, consumptions, expiries and movements, `reserved` on every
      balance is the sum of its active reservations, all of them positive. */
  lemma {:induction false} HoldsAlwaysAgree(t: Tenant, ops: seq<Op>)
    ensures H.HoldsAgree(Run(t, Empty, ops))
  {
    if ops != [] {
      HoldsAlwaysAgree(t, ops[..|ops| - 1]);
      StepKeepsHolds(t, Run(t, Empty, ops[..|ops| - 1]), ops[|ops| - 1]);
    }
  }
}
