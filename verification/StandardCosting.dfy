/** Standard costing over whole runs: stock is carried at the standard, whatever was paid for it. */
module StandardCosting {
  import opened Rounding
  import opened Records
  import opened Tables
  import opened Ledger
  import opened Runs
  import A = AverageCosting

  function CountOf(ms: seq<Movement>, product: ProductId): nat {
    if ms == [] then 0
    else CountOf(ms[..|ms| - 1], product) + (if ms[|ms| - 1].place.product == product then 1 else 0)
  }

  predicate Received(ms: seq<Movement>, product: ProductId) {
    exists i :: 0 <= i < |ms| && ms[i].place.product == product && ms[i].qty > 0
  }

  function StandardCost(t: Tenant, product: ProductId): int
    requires product in t.products
  {
    t.products[product].standardCost
  }

  /** The average shown is the standard once anything was received, and nothing before. */
  ghost predicate ShowsStandard(t: Tenant, inv: Inventory, product: ProductId)
    requires product in t.products
  {
    Average(inv, product) == if Received(inv.movements, product) then StandardCost(t, product) else 0
  }

  /** The ledger value is on-hand stock at standard, to within half a cent for each movement. */
  ghost predicate ValuedAtStandard(t: Tenant, inv: Inventory, product: ProductId)
    requires product in t.products
  {
    2 * Abs(Millionths(A.ValueOf(inv.movements, product)) - TotalOnHand(inv, product) * StandardCost(t, product))
      <= Millionths(CountOf(inv.movements, product))
  }

  /** Where no standard is set, the average an issue falls back on is zero as well. */
  predicate StandardKnown(t: Tenant, inv: Inventory, product: ProductId)
    requires product in t.products
  {
    Average(inv, product) == 0 || Average(inv, product) == StandardCost(t, product)
  }

  lemma {:induction false} RowAppended(ms: seq<Movement>, row: Movement, product: ProductId)
    ensures CountOf(ms + [row], product) == CountOf(ms, product) + (if row.place.product == product then 1 else 0)
    ensures A.ValueOf(ms + [row], product)
         == A.ValueOf(ms, product) + (if row.place.product == product then row.value else 0)
    ensures Received(ms + [row], product)
        <==> Received(ms, product) || (row.place.product == product && row.qty > 0)
  {
    assert (ms + [row])[..|ms|] == ms;
    if row.place.product == product && row.qty > 0 {
      assert (ms + [row])[|ms|] == row;
    }
    if i :| 0 <= i < |ms| && ms[i].place.product == product && ms[i].qty > 0 {
      assert (ms + [row])[i] == ms[i];
    }
  }

  /** Whichever way the goods go, and whatever price is quoted, the movement is valued at standard. */
  lemma {:induction false} MovementAtStandard(t: Tenant, inv: Inventory, m: Request)
    requires m.place.product in t.products && t.products[m.place.product].costMethod == STANDARD
    requires StandardKnown(t, inv, m.place.product)
    ensures var c, standard := CostingOf(t, inv, m), StandardCost(t, m.place.product);
            && c.value == Cents(m.qty * standard)
            && c.average == if m.qty > 0 then standard else Average(inv, m.place.product)
  {
  }

  lemma {:induction false} StepKeepsStandard(t: Tenant, inv: Inventory, op: Op, product: ProductId)
    requires product in t.products && t.products[product].costMethod == STANDARD
    requires ShowsStandard(t, inv, product) && ValuedAtStandard(t, inv, product)
    ensures ShowsStandard(t, Step(t, inv, op), product) && ValuedAtStandard(t, Step(t, inv, op), product)
  {
    OnlyMovementsMoveStock(t, inv, op);
    if Accepted(t, inv, op) {
      var m, c := op.m, CostingOf(t, inv, op.m);
      RowAppended(inv.movements, Entry(m, c), product);
      PostChangesSum(inv.balances, m.place, m.qty, 0, ProductOf, product);
      if m.place.product == product {
        MovementAtStandard(t, inv, m);
        A.UncostedMovementGap(A.ValueOf(inv.movements, product), TotalOnHand(inv, product),
                              StandardCost(t, product), m.qty);
      }
    } else {
      assert TotalOnHand(Step(t, inv, op), product) == TotalOnHand(inv, product);
    }
  }

  /** STANDARD costing, whole runs, through negative stock and all. */
  lemma {:induction false} StandardTracksLedger(t: Tenant, ops: seq<Op>, product: ProductId)
    requires product in t.products && t.products[product].costMethod == STANDARD
    ensures ShowsStandard(t, Run(t, Empty, ops), product) && ValuedAtStandard(t, Run(t, Empty, ops), product)
  {
    if ops != [] {
      StandardTracksLedger(t, ops[..|ops| - 1], product);
      StepKeepsStandard(t, Run(t, Empty, ops[..|ops| - 1]), ops[|ops| - 1], product);
    }
  }
}
