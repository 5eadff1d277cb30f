/** Strict mode and FIFO: runs whose layers never fall short of the stock they cost. */
module FifoStrict {
  import opened Rounding
  import opened Records
  import opened Tables
  import opened Fifo
  import opened Ledger
  import opened Runs
  import opened FifoCosting
  import opened LotTrail

  /** No FIFO issue names a lot. */
  predicate IssuesUntagged(t: Tenant, ops: seq<Op>) {
    forall op :: op in ops && op.Move? && IsFifo(t, op.m.place) && op.m.qty < 0 ==> !IsTagged(op.m.tag)
  }

  /** Every FIFO movement names a lot. */
  predicate AllTagged(t: Tenant, ops: seq<Op>) {
    forall op :: op in ops && op.Move? && IsFifo(t, op.m.place) ==> IsTagged(op.m.tag)
  }

  /** An issue falls short exactly when the layers it may draw on hold less than it takes. */
  lemma {:induction false} ShortfallOfIssue(t: Tenant, inv: Inventory, m: Request)
    requires IsFifo(t, m.place) && NoneNegative(inv.layers)
    ensures UncoveredQty(CostingOf(t, inv, m).takes)
         == if m.qty > 0 then 0 else Max(0, -m.qty - Quantity(inv.layers, ScopeOf(m.place, m.tag)))
  {
    if m.qty <= 0 {
      FifoIssueCosting(t, inv, m);
    }
  }

  // ---- Issues untagged ----

  lemma {:induction false} UntaggedIssuesAreCovered(t: Tenant, ops: seq<Op>)
    requires t.blockNegative && IssuesUntagged(t, ops)
    ensures AllCovered(t, Empty, ops)
  {
    if ops != [] {
      UntaggedIssuesAreCovered(t, ops[..|ops| - 1]);
    }
  }

  /** Strict mode, issues untagged: no issue ever falls short, so the layers hold exactly what is on hand. */
  lemma {:induction false} UntaggedIssuesNeverFallShort(t: Tenant, ops: seq<Op>)
    requires t.blockNegative && IssuesUntagged(t, ops)
    ensures NoShortfall(t, Run(t, Empty, ops))
    ensures forall place :: IsFifo(t, place) ==>
      Quantity(Run(t, Empty, ops).layers, Everything(place)) == OnHand(Run(t, Empty, ops).balances, place)
  {
    UntaggedIssuesAreCovered(t, ops);
    NeverShortIff(t, ops);
    LayersEqualStockPlusShortfall(t, ops);
  }

  // ---- Every movement tagged: lot by lot ----

  ghost predicate RowsTagged(rows: seq<IssueCost>) {
    forall row :: row in rows ==> IsTagged(row.tag)
  }

  lemma {:induction false} TaggedRowsDrawNothing(rows: seq<IssueCost>, layers: seq<Layer>, key: LotKey)
    requires RowsTagged(rows)
    ensures Drawn(rows, layers, key) == 0
  {
    if rows != [] {
      assert rows[0] in rows;
      TaggedRowsDrawNothing(rows[1..], layers, key);
    }
  }

  lemma {:induction false} TaggedRunsLeaveTaggedRows(t: Tenant, ops: seq<Op>)
    requires AllTagged(t, ops)
    ensures RowsTagged(Run(t, Empty, ops).issueCosts)
  {
    if ops != [] {
      var before, op := Run(t, Empty, ops[..|ops| - 1]), ops[|ops| - 1];
      TaggedRunsLeaveTaggedRows(t, ops[..|ops| - 1]);
      OnlyMovementsMoveStock(t, before, op);
      if Accepted(t, before, op) {
        RowsOfTakes(|before.movements|, op.m.tag, CostingOf(t, before, op.m).takes);
      }
    }
  }

  /** Lot by lot, the layers hold what is on hand plus the shortfall recorded for the lot. */
  lemma {:induction false} LotLayersEqualLotStockPlusShortfall(t: Tenant, ops: seq<Op>)
    requires AllTagged(t, ops)
    ensures forall key: LotKey :: FifoLot(t, key) ==>
      LotLayers(Run(t, Empty, ops), key)
      == OnHand(Run(t, Empty, ops).lots, key) + LotShortfall(Run(t, Empty, ops), key)
  {
    var inv := Run(t, Empty, ops);
    LotLayersAreTraced(t, ops);
    TaggedRunsLeaveTaggedRows(t, ops);
    forall key: LotKey | FifoLot(t, key) ensures LotLayers(inv, key) == OnHand(inv.lots, key) + LotShortfall(inv, key) {
      TaggedRowsDrawNothing(inv.issueCosts, inv.layers, key);
    }
  }

  lemma {:induction false} TaggedIssuesAreCovered(t: Tenant, ops: seq<Op>)
    requires t.blockNegative && AllTagged(t, ops)
    ensures AllCovered(t, Empty, ops)
  {
    if ops != [] {
      var before, op := Run(t, Empty, ops[..|ops| - 1]), ops[|ops| - 1];
      TaggedIssuesAreCovered(t, ops[..|ops| - 1]);
      TaggedRunsLeaveTaggedRows(t, ops[..|ops| - 1]);
      if Accepted(t, before, op) {
        TaggedRowsDrawNothing(before.issueCosts, before.layers, LotKey(op.m.place, op.m.tag));
      }
    }
  }

  /** Strict mode, every movement tagged: no issue falls short, and each lot's layers hold exactly what the
      lot has on hand. */
  lemma {:induction false} TaggedIssuesNeverFallShort(t: Tenant, ops: seq<Op>)
    requires t.blockNegative && AllTagged(t, ops)
    ensures NoShortfall(t, Run(t, Empty, ops))
    ensures forall key: LotKey :: FifoLot(t, key) ==>
      LotShortfall(Run(t, Empty, ops), key) == 0
      && LotLayers(Run(t, Empty, ops), key) == OnHand(Run(t, Empty, ops).lots, key)
  {
    var inv := Run(t, Empty, ops);
    TaggedIssuesAreCovered(t, ops);
    NeverShortIff(t, ops);
    LotLayersAreTraced(t, ops);
    LotLayersEqualLotStockPlusShortfall(t, ops);
    forall key: LotKey | FifoLot(t, key) ensures LotShortfall(inv, key) == 0 {
      LotShortfallWithinLocation(inv.issueCosts, inv.movements, key);
    }
  }

  // ---- Tagged and untagged issues mixed ----

  /** A movement of ten, either way, at 2.00 a unit. */
  function Ten(tag: Tag, qty: int, at: int): Request {
    Request(Adjustment, Shelf, None, tag, qty, Some(20000), Ref(OTHER(""), ""), at)
  }

  const StrictTenant := Tenant(map[1 := Product(FIFO, false, 0)], true)
  const Shelf := Place(1, 1)

  function LotNamed(name: string): Tag {
    Tag(Some(name), None, None)
  }

  const LayerA := Layer(0, Shelf, LotNamed("A"), 1, 1000, 1000, 20000, Ref(OTHER(""), ""))
  const LayerB := Layer(1, Shelf, LotNamed("B"), 2, 1000, 1000, 20000, Ref(OTHER(""), ""))

  const ReceiveA := Ten(LotNamed("A"), 1000, 1)
  const ReceiveB := Ten(LotNamed("B"), 1000, 2)
  const IssueAny := Ten(Untagged, -1000, 3)
  const IssueA := Ten(LotNamed("A"), -1000, 4)

  function Applied(inv: Inventory, m: Request): Inventory {
    Step(StrictTenant, inv, Move(m))
  }

  lemma {:induction false} FirstLotTables()
    ensures Accepted(StrictTenant, Empty, Move(ReceiveA))
    ensures var one := Applied(Empty, ReceiveA);
            && one.layers == [LayerA] && one.balances == [Row(Shelf, 1000, 0)]
            && one.lots == [Row(LotKey(Shelf, LotNamed("A")), 1000, 0)]
  {
    assert |"A"| == 1 && IsTagged(LotNamed("A"));
  }

  lemma {:induction false} SecondLotTables(one: Inventory)
    requires one.layers == [LayerA] && one.balances == [Row(Shelf, 1000, 0)]
    requires one.lots == [Row(LotKey(Shelf, LotNamed("A")), 1000, 0)]
    ensures Accepted(StrictTenant, one, Move(ReceiveB))
    ensures var two := Applied(one, ReceiveB);
            && two.layers == [LayerA, LayerB] && two.balances == [Row(Shelf, 2000, 0)]
            && two.lots == [one.lots[0], Row(LotKey(Shelf, LotNamed("B")), 1000, 0)]
  {
    var keyB := LotKey(Shelf, LotNamed("B"));
    assert one.layers[1..] == [] && one.balances[1..] == [] && one.lots[1..] == [];
    assert Insert([LayerA], LayerB) == [LayerA, LayerB];
    assert |"B"| == 1 && IsTagged(LotNamed("B")) && one.lots[0].key != keyB;
    assert Post(one.lots, keyB, 1000, 0) == [one.lots[0]] + [Row(keyB, 1000, 0)];
  }

  lemma {:induction false} UntaggedIssueTables(two: Inventory)
    requires two.layers == [LayerA, LayerB] && two.balances == [Row(Shelf, 2000, 0)]
    ensures Accepted(StrictTenant, two, Move(IssueAny))
    ensures var after := Applied(two, IssueAny);
            && after.layers == [LayerA.(qtyRemaining := 0), LayerB]
            && after.balances == [Row(Shelf, 1000, 0)]
            && after.lots == two.lots
  {
    assert two.layers[1..] == [LayerB] && two.balances[1..] == [];
    RelieveNothing([LayerB], Everything(Shelf), 0);
    FifoIssueIsItsRelief(StrictTenant, two, IssueAny);
  }

  lemma {:induction false} MixedRun()
    ensures Run(StrictTenant, Empty, [Move(ReceiveA), Move(ReceiveB), Move(IssueAny)])
         == Applied(Applied(Applied(Empty, ReceiveA), ReceiveB), IssueAny)
  {
    var one, two := [Move(ReceiveA)], [Move(ReceiveA), Move(ReceiveB)];
    assert two + [Move(IssueAny)] == [Move(ReceiveA), Move(ReceiveB), Move(IssueAny)];
    assert one + [Move(ReceiveB)] == two && [] + one == one;
    RunOfAppend(StrictTenant, Empty, two, Move(IssueAny));
    RunOfAppend(StrictTenant, Empty, one, Move(ReceiveB));
    RunOfAppend(StrictTenant, Empty, [], Move(ReceiveA));
  }

  /** The first lot has ten on hand and no layer left: strict mode lets its issue through, uncovered. */
  lemma {:induction false} LastIssueFallsShort(inv: Inventory)
    requires inv.layers == [LayerA.(qtyRemaining := 0), LayerB] && inv.balances == [Row(Shelf, 1000, 0)]
    requires |inv.lots| > 0 && inv.lots[0] == Row(LotKey(Shelf, LotNamed("A")), 1000, 0)
    ensures Accepted(StrictTenant, inv, Move(IssueA))
    ensures OnHand(inv.lots, LotKey(Shelf, LotNamed("A"))) == 1000 && LotLayers(inv, LotKey(Shelf, LotNamed("A"))) == 0
    ensures UncoveredQty(CostingOf(StrictTenant, inv, IssueA).takes) == 1000
  {
    assert |"A"| == 1 && IsTagged(LotNamed("A"));
    assert inv.layers[1..] == [LayerB] && [LayerB][1..] == [];
    assert Quantity([LayerB], OneLot(Shelf, LotNamed("A"))) == Quantity([], OneLot(Shelf, LotNamed("A")));
    ShortfallOfIssue(StrictTenant, inv, IssueA);
  }

  /** Strict mode receives ten into each of two lots and issues ten naming neither, which drains the first
      lot's layer. The first lot's ten are still on hand: strict mode accepts issuing them too, and no layer
      covers that issue. */
  lemma {:induction false} MixedIssuesFallShort()
    ensures var inv := Run(StrictTenant, Empty, [Move(ReceiveA), Move(ReceiveB), Move(IssueAny)]);
            && Accepted(StrictTenant, Empty, Move(ReceiveA))
            && Accepted(StrictTenant, Applied(Empty, ReceiveA), Move(ReceiveB))
            && Accepted(StrictTenant, Applied(Applied(Empty, ReceiveA), ReceiveB), Move(IssueAny))
            && Accepted(StrictTenant, inv, Move(IssueA))
            && OnHand(inv.lots, LotKey(Shelf, LotNamed("A"))) == 1000
            && LotLayers(inv, LotKey(Shelf, LotNamed("A"))) == 0
            && UncoveredQty(CostingOf(StrictTenant, inv, IssueA).takes) == 1000
  {
    var one := Applied(Empty, ReceiveA);
    var two := Applied(one, ReceiveB);
    MixedRun();
    FirstLotTables();
    SecondLotTables(one);
    UntaggedIssueTables(two);
    LastIssueFallsShort(Applied(two, IssueAny));
  }
}
