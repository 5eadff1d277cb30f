/** Serial numbers: a tracked serial is one physical unit, so its stock at a location is 0 or 1. */
module Serials {
  import opened Records
  import opened Tables
  import opened Ledger
  import opened Runs

  predicate Tracked(t: Tenant, place: Place) {
    place.product in t.products && t.products[place.product].trackSerial
  }

  /** Every lot row of a tracked serial is non-negative, and the rows of one serial at one location sum to
      at most one unit across lots and expiries. */
  ghost predicate Exclusive(t: Tenant, inv: Inventory) {
    && Unique(inv.lots)
    && (forall key: LotKey :: Tracked(t, key.place) && Given(key.tag.serial) ==> 0 <= OnHand(inv.lots, key))
    && (forall place, s :: Tracked(t, place) && Given(s) ==> SumOnHand(inv.lots, SerialAt, SerialKey(place, s)) <= ONE)
  }

  /** The serial's stock is a whole number of units everywhere. */
  ghost predicate WholeUnits(t: Tenant, inv: Inventory) {
    forall place, s :: Tracked(t, place) && Given(s) ==> SumOnHand(inv.lots, SerialAt, SerialKey(place, s)) % ONE == 0
  }

  lemma {:induction false} BookKeepsExclusive(t: Tenant, inv: Inventory, m: Request, c: Costing)
    requires Exclusive(t, inv) && m.place.product in t.products
    requires SerialProblem(t.products[m.place.product], inv.lots, m).None?
    ensures Exclusive(t, Book(inv, m, c))
  {
    if IsTagged(m.tag) {
      var key := LotKey(m.place, m.tag);
      var after := Post(inv.lots, key, m.qty, 0);
      PostKeepsKeys(inv.lots, key, m.qty, 0);
      forall other: LotKey | Tracked(t, other.place) && Given(other.tag.serial) ensures 0 <= OnHand(after, other) {
        PostChangesOneKey(inv.lots, key, m.qty, 0, other);
      }
      forall place, s | Tracked(t, place) && Given(s) ensures SumOnHand(after, SerialAt, SerialKey(place, s)) <= ONE {
        PostChangesSum(inv.lots, key, m.qty, 0, SerialAt, SerialKey(place, s));
      }
    }
  }

  /** The guard lets a movement of a tracked product through exactly when it names a serial and leaves every
      serial exclusive. */
  lemma {:induction false} GuardRefusesExactly(t: Tenant, inv: Inventory, m: Request, c: Costing)
    requires Exclusive(t, inv) && Tracked(t, m.place) && m.qty != 0
    ensures SerialProblem(t.products[m.place.product], inv.lots, m).None?
            <==> Given(m.tag.serial) && Exclusive(t, Book(inv, m, c))
  {
    var key := LotKey(m.place, m.tag);
    if SerialProblem(t.products[m.place.product], inv.lots, m).None? {
      BookKeepsExclusive(t, inv, m, c);
    } else if Given(m.tag.serial) {
      PostChangesOneKey(inv.lots, key, m.qty, 0, key);
      PostChangesSum(inv.lots, key, m.qty, 0, SerialAt, SerialKey(m.place, m.tag.serial));
      assert Book(inv, m, c).lots == Post(inv.lots, key, m.qty, 0);
    }
  }

  lemma {:induction false} StepKeepsExclusive(t: Tenant, inv: Inventory, op: Op)
    requires Exclusive(t, inv)
    ensures Exclusive(t, Step(t, inv, op))
  {
    OnlyMovementsMoveStock(t, inv, op);
    if Accepted(t, inv, op) {
      BookKeepsExclusive(t, inv, op.m, CostingOf(t, inv, op.m));
    }
  }

  /** In every reachable state, whatever the strict-mode flag, the stock of a tracked serial at a location is
      between zero and one unit, and so is each of its lot rows. */
  lemma {:induction false} SerialsStayExclusive(t: Tenant, ops: seq<Op>)
    ensures Exclusive(t, Run(t, Empty, ops))
    ensures forall key: LotKey :: Tracked(t, key.place) && Given(key.tag.serial) ==>
      0 <= OnHand(Run(t, Empty, ops).lots, key)
        <= SumOnHand(Run(t, Empty, ops).lots, SerialAt, SerialKey(key.place, key.tag.serial)) <= ONE
  {
    if ops != [] {
      SerialsStayExclusive(t, ops[..|ops| - 1]);
      StepKeepsExclusive(t, Run(t, Empty, ops[..|ops| - 1]), ops[|ops| - 1]);
    }
    var inv := Run(t, Empty, ops);
    forall key: LotKey | Tracked(t, key.place) && Given(key.tag.serial)
      ensures 0 <= OnHand(inv.lots, key) <= SumOnHand(inv.lots, SerialAt, SerialKey(key.place, key.tag.serial)) <= ONE
    {
      RowWithinTotal(inv.lots, SerialAt, SerialKey(key.place, key.tag.serial), key);
    }
  }

  /** Every movement of a tracked product is of whole units. */
  ghost predicate MovesWholeUnits(t: Tenant, ops: seq<Op>) {
    forall op :: op in ops && op.Move? && Tracked(t, op.m.place) ==> op.m.qty % ONE == 0
  }

  lemma {:induction false} WholeSum(a: int, b: int)
    requires a % ONE == 0 && b % ONE == 0
    ensures (a + b) % ONE == 0
  {
  }

  lemma {:induction false} StepKeepsWhole(t: Tenant, inv: Inventory, op: Op)
    requires WholeUnits(t, inv)
    requires op.Move? && Tracked(t, op.m.place) ==> op.m.qty % ONE == 0
    ensures WholeUnits(t, Step(t, inv, op))
  {
    OnlyMovementsMoveStock(t, inv, op);
    if Accepted(t, inv, op) {
      forall place, s | Tracked(t, place) && Given(s)
        ensures SumOnHand(Step(t, inv, op).lots, SerialAt, SerialKey(place, s)) % ONE == 0
      {
        PostChangesSum(inv.lots, LotKey(op.m.place, op.m.tag), op.m.qty, 0, SerialAt, SerialKey(place, s));
        if op.m.place == place {
          WholeSum(SumOnHand(inv.lots, SerialAt, SerialKey(place, s)), op.m.qty);
        }
      }
    }
  }

  lemma {:induction false} WholeUnitsStayWhole(t: Tenant, ops: seq<Op>)
    requires MovesWholeUnits(t, ops)
    ensures WholeUnits(t, Run(t, Empty, ops))
  {
    if ops != [] {
      WholeUnitsStayWhole(t, ops[..|ops| - 1]);
      StepKeepsWhole(t, Run(t, Empty, ops[..|ops| - 1]), ops[|ops| - 1]);
    }
  }

  /** With whole-unit movements a serial's stock at a location is exactly 0 or 1. */
  lemma {:induction false} SerialIsThereOrNot(t: Tenant, ops: seq<Op>, place: Place, serial: Option<string>)
    requires MovesWholeUnits(t, ops) && Tracked(t, place) && Given(serial)
    ensures var stock := SumOnHand(Run(t, Empty, ops).lots, SerialAt, SerialKey(place, serial));
            stock == 0 || stock == ONE
  {
    SerialsStayExclusive(t, ops);
    WholeUnitsStayWhole(t, ops);
    RowWithinTotal(Run(t, Empty, ops).lots, SerialAt, SerialKey(place, serial), LotKey(place, Tag(None, serial, None)));
  }

  // ---- Company-wide, the guard looks at one location only ----

  /** The serial's stock at other locations than `place`. */
  function Elsewhere(lots: seq<Row<LotKey>>, place: Place, serial: Option<string>): int {
    SumOnHand(lots, UnitOf, SerialUnit(place.product, serial)) - SumOnHand(lots, SerialAt, SerialKey(place, serial))
  }

  datatype SerialUnit = SerialUnit(product: ProductId, serial: Option<string>)

  /** A serial, wherever it is. */
  function UnitOf(key: LotKey): SerialUnit {
    SerialUnit(key.place.product, key.tag.serial)
  }

  /** A whole-unit receipt that the guard accepts leaves one unit of the serial in the company exactly when
      no other location held it before. */
  lemma {:induction false} OneUnitCompanyWideIff(t: Tenant, inv: Inventory, m: Request, c: Costing)
    requires Exclusive(t, inv) && WholeUnits(t, inv) && Tracked(t, m.place)
    requires m.qty > 0 && m.qty % ONE == 0 && MovementProblem(t, inv, m).None?
    ensures Given(m.tag.serial)
    ensures SumOnHand(Book(inv, m, c).lots, UnitOf, SerialUnit(m.place.product, m.tag.serial)) == ONE
            <==> Elsewhere(inv.lots, m.place, m.tag.serial) == 0
  {
    var key := LotKey(m.place, m.tag);
    RowWithinTotal(inv.lots, SerialAt, SerialKey(m.place, m.tag.serial), key);
    PostChangesSum(inv.lots, key, m.qty, 0, UnitOf, SerialUnit(m.place.product, m.tag.serial));
    assert SumOnHand(inv.lots, SerialAt, SerialKey(m.place, m.tag.serial)) == 0;
  }

  /** One serial received at two locations: both receipts are accepted. */
  lemma {:induction false} SameSerialAtTwoLocations()
    ensures var t := Tenant(map[1 := Product(FIFO, true, 0)], true);
            var first := Request(Receive, Place(1, 1), None, Tag(None, Some("SN1"), None), ONE, None,
                                 Ref(OTHER(""), ""), 0);
            var second := first.(place := Place(1, 2));
            var inv := Run(t, Empty, [Move(first)]);
            && Accepted(t, Empty, Move(first)) && Accepted(t, inv, Move(second))
            && SumOnHand(Step(t, inv, Move(second)).lots, UnitOf, SerialUnit(1, Some("SN1"))) == 2 * ONE
  {
    var t := Tenant(map[1 := Product(FIFO, true, 0)], true);
    var first := Request(Receive, Place(1, 1), None, Tag(None, Some("SN1"), None), ONE, None,
                                 Ref(OTHER(""), ""), 0);
    var second := first.(place := Place(1, 2));
    assert [Move(first)][..0] == [];
    var inv := Run(t, Empty, [Move(first)]);
    OnlyMovementsMoveStock(t, Empty, Move(first));
    PostChangesSum(Empty.lots, LotKey(first.place, first.tag), ONE, 0, SerialAt, SerialKey(second.place, Some("SN1")));
    PostChangesSum(Empty.lots, LotKey(first.place, first.tag), ONE, 0, UnitOf, SerialUnit(1, Some("SN1")));
    OnlyMovementsMoveStock(t, inv, Move(second));
    PostChangesSum(inv.lots, LotKey(second.place, second.tag), ONE, 0, UnitOf, SerialUnit(1, Some("SN1")));
  }
}
