/** Moving weighted-average costing over whole runs. */
module AverageCosting {
  import opened Rounding
  import opened Records
  import opened Tables
  import opened Ledger
  import opened Runs

  /** The ledger value of a product, in cents. */
  function ValueOf(ms: seq<Movement>, product: ProductId): int {
    if ms == [] then 0
    else
      ValueOf(ms[..|ms| - 1], product)
      + (if ms[|ms| - 1].place.product == product then ms[|ms| - 1].value else 0)
  }

  /** Ledger value less on-hand stock at the current average, in millionths. */
  function Gap(inv: Inventory, product: ProductId): int {
    Millionths(ValueOf(inv.movements, product)) - TotalOnHand(inv, product) * Average(inv, product)
  }

  /** An accepted movement of `product`. */
  predicate Touches(t: Tenant, inv: Inventory, op: Op, product: ProductId) {
    Accepted(t, inv, op) && op.m.place.product == product
  }

  predicate CostedReceipt(op: Op) {
    op.Move? && op.m.qty > 0 && op.m.unitCost.Some?
  }

  /** Twice the rounding one operation may add: a cent for a movement, and one average step for each unit
      in stock after a costed receipt. */
  function StepAllowance(t: Tenant, before: Inventory, op: Op, product: ProductId): int {
    if !Touches(t, before, op, product) then 0
    else CENT + (if CostedReceipt(op) then Max(0, TotalOnHand(before, product) + op.m.qty) else 0)
  }

  function Allowance(t: Tenant, inv: Inventory, ops: seq<Op>, product: ProductId): int {
    if ops == [] then 0
    else
      Allowance(t, inv, ops[..|ops| - 1], product)
      + StepAllowance(t, Run(t, inv, ops[..|ops| - 1]), ops[|ops| - 1], product)
  }

  /** The value a costed receipt brings in while stock stays at or below zero: the average ignores it. */
  function StepUnabsorbed(t: Tenant, before: Inventory, op: Op, product: ProductId): int {
    if Touches(t, before, op, product) && CostedReceipt(op) && TotalOnHand(before, product) + op.m.qty <= 0
    then op.m.qty * (op.m.unitCost.value - Average(before, product)) else 0
  }

  function Unabsorbed(t: Tenant, inv: Inventory, ops: seq<Op>, product: ProductId): int {
    if ops == [] then 0
    else
      Unabsorbed(t, inv, ops[..|ops| - 1], product)
      + StepUnabsorbed(t, Run(t, inv, ops[..|ops| - 1]), ops[|ops| - 1], product)
  }

  lemma {:induction false} BookGap(inv: Inventory, m: Request, c: Costing)
    ensures Gap(Book(inv, m, c), m.place.product)
         == Millionths(ValueOf(inv.movements, m.place.product) + c.value)
            - (TotalOnHand(inv, m.place.product) + m.qty) * c.average
  {
    PostChangesSum(inv.balances, m.place, m.qty, 0, ProductOf, m.place.product);
    assert (inv.movements + [Entry(m, c)])[..|inv.movements|] == inv.movements;
  }

  /** An operation that is not an accepted movement of the product leaves its valuation alone. */
  lemma {:induction false} OtherStepsKeepValuation(t: Tenant, inv: Inventory, op: Op, product: ProductId)
    requires !Touches(t, inv, op, product)
    ensures var after := Step(t, inv, op);
            && TotalOnHand(after, product) == TotalOnHand(inv, product)
            && Average(after, product) == Average(inv, product)
            && ValueOf(after.movements, product) == ValueOf(inv.movements, product)
            && ReceiptCosts(after.movements, product) == ReceiptCosts(inv.movements, product)
  {
    OnlyMovementsMoveStock(t, inv, op);
    if Accepted(t, inv, op) {
      PostChangesSum(inv.balances, op.m.place, op.m.qty, 0, ProductOf, product);
      var entry := Entry(op.m, CostingOf(t, inv, op.m));
      assert (inv.movements + [entry])[..|inv.movements|] == inv.movements;
    } else {
      assert TotalOnHand(inv, product) == TotalOnHand(Step(t, inv, op), product);
    }
  }

  /** One movement of an AVERAGE product at the current average opens the gap by at most half a cent. */
  lemma {:induction false} UncostedMovementGap(value: int, stock: int, average: int, qty: int)
    ensures var gap := Millionths(value + Cents(qty * average)) - (stock + qty) * average;
            -CENT <= 2 * (gap - (Millionths(value) - stock * average)) <= CENT
  {
    assert (stock + qty) * average == stock * average + qty * average;
  }

  /** A costed receipt that leaves stock above zero also rounds the average: half a step per unit in stock. */
  lemma {:induction false} CostedReceiptGap(value: int, stock: int, average: int, qty: int, cost: int)
    requires stock + qty > 0
    ensures var after := NewAverage(stock, average, qty, cost);
            var gap := Millionths(value + Cents(qty * cost)) - (stock + qty) * after;
            -(CENT + stock + qty) <= 2 * (gap - (Millionths(value) - stock * average)) <= CENT + stock + qty
  {
    var after := NewAverage(stock, average, qty, cost);
    RoundsToNearest(stock * average + qty * cost, stock + qty);
  }

  lemma {:induction false} UnabsorbedReceiptGap(value: int, stock: int, average: int, qty: int, cost: int)
    ensures var gap := Millionths(value + Cents(qty * cost)) - (stock + qty) * average;
            -CENT <= 2 * (gap - (Millionths(value) - stock * average) - qty * (cost - average)) <= CENT
  {
    assert (stock + qty) * average == stock * average + qty * average;
    assert qty * (cost - average) == qty * cost - qty * average;
  }

  lemma {:induction false} TouchingStepGap(t: Tenant, inv: Inventory, op: Op, product: ProductId)
    requires product in t.products && t.products[product].costMethod == AVERAGE
    requires Touches(t, inv, op, product)
    ensures GapWithin(t, inv, op, product)
  {
    var m := op.m;
    var value, stock, average := ValueOf(inv.movements, product), TotalOnHand(inv, product), Average(inv, product);
    OnlyMovementsMoveStock(t, inv, op);
    BookGap(inv, m, CostingOf(t, inv, m));
    if !CostedReceipt(op) {
      UncostedMovementGap(value, stock, average, m.qty);
    } else if stock + m.qty > 0 {
      CostedReceiptGap(value, stock, average, m.qty, m.unitCost.value);
    } else {
      UnabsorbedReceiptGap(value, stock, average, m.qty, m.unitCost.value);
    }
  }

  /** One operation opens the gap by what it leaves unabsorbed, to within its rounding allowance. */
  ghost predicate GapWithin(t: Tenant, inv: Inventory, op: Op, product: ProductId) {
    var change := Gap(Step(t, inv, op), product) - Gap(inv, product) - StepUnabsorbed(t, inv, op, product);
    -StepAllowance(t, inv, op, product) <= 2 * change <= StepAllowance(t, inv, op, product)
  }

  lemma {:induction false} StepGap(t: Tenant, inv: Inventory, op: Op, product: ProductId)
    requires product in t.products && t.products[product].costMethod == AVERAGE
    ensures GapWithin(t, inv, op, product)
  {
    if Touches(t, inv, op, product) {
      TouchingStepGap(t, inv, op, product);
    } else {
      OtherStepsKeepValuation(t, inv, op, product);
    }
  }

  /** AVERAGE costing, whole runs, through negative stock and all: the gap between the ledger value and
      stock at average is exactly what receipts into negative stock failed to bring into the average, to
      within half a cent per movement and half an average step per unit in stock after a costed receipt. */
  lemma {:induction false} AverageTracksLedger(t: Tenant, inv: Inventory, ops: seq<Op>, product: ProductId)
    requires product in t.products && t.products[product].costMethod == AVERAGE
    ensures var change := Gap(Run(t, inv, ops), product) - Gap(inv, product) - Unabsorbed(t, inv, ops, product);
            -Allowance(t, inv, ops, product) <= 2 * change <= Allowance(t, inv, ops, product)
  {
    if ops != [] {
      var front, op := ops[..|ops| - 1], ops[|ops| - 1];
      var before := Run(t, inv, front);
      AverageTracksLedger(t, inv, front, product);
      StepGap(t, before, op, product);
      assert Run(t, inv, ops) == Step(t, before, op);
    }
  }

  /** Every costed receipt of the product leaves company-wide stock above zero. */
  predicate ReceiptsLeaveStock(t: Tenant, inv: Inventory, ops: seq<Op>, product: ProductId) {
    ops == [] ||
    (var before, op := Run(t, inv, ops[..|ops| - 1]), ops[|ops| - 1];
     && ReceiptsLeaveStock(t, inv, ops[..|ops| - 1], product)
     && (Touches(t, before, op, product) && CostedReceipt(op) ==> TotalOnHand(before, product) + op.m.qty > 0))
  }

  lemma {:induction false} NothingUnabsorbed(t: Tenant, inv: Inventory, ops: seq<Op>, product: ProductId)
    requires ReceiptsLeaveStock(t, inv, ops, product)
    ensures Unabsorbed(t, inv, ops, product) == 0
  {
    if ops != [] {
      NothingUnabsorbed(t, inv, ops[..|ops| - 1], product);
    }
  }

  /** From an empty inventory, when every costed receipt leaves stock above zero, the ledger value is the
      on-hand stock at the moving average, up to the rounding allowance. */
  lemma {:induction false} LedgerValueIsStockAtAverage(t: Tenant, ops: seq<Op>, product: ProductId)
    requires product in t.products && t.products[product].costMethod == AVERAGE
    requires ReceiptsLeaveStock(t, Empty, ops, product)
    ensures var inv := Run(t, Empty, ops);
            2 * Abs(Millionths(ValueOf(inv.movements, product)) - TotalOnHand(inv, product) * Average(inv, product))
              <= Allowance(t, Empty, ops, product)
  {
    AverageTracksLedger(t, Empty, ops, product);
    NothingUnabsorbed(t, Empty, ops, product);
  }

  // ---- The average stays within the receipt costs ----

  /** The unit costs of the product's receipts so far. */
  function ReceiptCosts(ms: seq<Movement>, product: ProductId): seq<int> {
    if ms == [] then []
    else
      var m := ms[|ms| - 1];
      ReceiptCosts(ms[..|ms| - 1], product)
      + (if m.place.product == product && m.qty > 0 && m.unitCost.Some? then [m.unitCost.value] else [])
  }

  function Least(costs: seq<int>): int
    requires costs != []
  {
    if |costs| == 1 then costs[0] else Min(Least(costs[..|costs| - 1]), costs[|costs| - 1])
  }

  function Greatest(costs: seq<int>): int
    requires costs != []
  {
    if |costs| == 1 then costs[0] else Max(Greatest(costs[..|costs| - 1]), costs[|costs| - 1])
  }

  /** Company-wide stock of the product is never negative, and each of its receipts states a cost. */
  predicate CostedAndCovered(t: Tenant, inv: Inventory, ops: seq<Op>, product: ProductId) {
    && 0 <= TotalOnHand(Run(t, inv, ops), product)
    && (ops == [] ||
        (var before, op := Run(t, inv, ops[..|ops| - 1]), ops[|ops| - 1];
         && CostedAndCovered(t, inv, ops[..|ops| - 1], product)
         && (Touches(t, before, op, product) && op.m.qty > 0 ==> op.m.unitCost.Some?)))
  }

  ghost predicate AverageInRange(inv: Inventory, product: ProductId) {
    var costs := ReceiptCosts(inv.movements, product);
    if costs == [] then TotalOnHand(inv, product) <= 0
    else Least(costs) <= Average(inv, product) <= Greatest(costs)
  }

  lemma {:induction false} WeightedMeanInRange(stock: int, average: int, qty: int, cost: int, lo: int, hi: int)
    requires 0 <= stock && 0 < qty
    requires lo <= cost <= hi && (0 < stock ==> lo <= average <= hi)
    ensures lo <= NewAverage(stock, average, qty, cost) <= hi
  {
    MulMonotone(lo, cost, qty);
    MulMonotone(cost, hi, qty);
    if 0 < stock {
      MulMonotone(lo, average, stock);
      MulMonotone(average, hi, stock);
    }
    assert lo * (stock + qty) == lo * stock + lo * qty && hi * (stock + qty) == hi * stock + hi * qty;
    RoundStaysBetween(stock * average + qty * cost, stock + qty, lo, hi);
  }

  lemma {:induction false} ExtremesOfAppend(costs: seq<int>, cost: int)
    ensures Least(costs + [cost]) == if costs == [] then cost else Min(Least(costs), cost)
    ensures Greatest(costs + [cost]) == if costs == [] then cost else Max(Greatest(costs), cost)
  {
    assert (costs + [cost])[..|costs|] == costs;
  }

  lemma {:induction false} StepKeepsRange(t: Tenant, inv: Inventory, op: Op, product: ProductId)
    requires product in t.products && t.products[product].costMethod != STANDARD
    requires AverageInRange(inv, product) && 0 <= TotalOnHand(inv, product)
    requires Touches(t, inv, op, product) && (op.m.qty > 0 ==> op.m.unitCost.Some?)
    ensures AverageInRange(Step(t, inv, op), product)
  {
    var m, entry := op.m, Entry(op.m, CostingOf(t, inv, op.m));
    var costs := ReceiptCosts(inv.movements, product);
    OnlyMovementsMoveStock(t, inv, op);
    assert (inv.movements + [entry])[..|inv.movements|] == inv.movements;
    PostChangesSum(inv.balances, m.place, m.qty, 0, ProductOf, product);
    if m.qty > 0 {
      var cost := m.unitCost.value;
      ExtremesOfAppend(costs, cost);
      assert ReceiptCosts(inv.movements + [entry], product) == costs + [cost];
      WeightedMeanInRange(TotalOnHand(inv, product), Average(inv, product), m.qty, cost,
                          Least(costs + [cost]), Greatest(costs + [cost]));
    } else {
      assert ReceiptCosts(inv.movements + [entry], product) == costs;
    }
  }

  /** While stock is never negative and every receipt states its cost, the moving average of a product that
      is not at standard cost lies between the least and the greatest receipt cost so far. */
  lemma {:induction false} AverageStaysInRange(t: Tenant, ops: seq<Op>, product: ProductId)
    requires product in t.products && t.products[product].costMethod != STANDARD
    requires CostedAndCovered(t, Empty, ops, product)
    ensures AverageInRange(Run(t, Empty, ops), product)
  {
    if ops != [] {
      var front, op := ops[..|ops| - 1], ops[|ops| - 1];
      var before := Run(t, Empty, front);
      AverageStaysInRange(t, front, product);
      if Touches(t, before, op, product) {
        StepKeepsRange(t, before, op, product);
      } else {
        OtherStepsKeepValuation(t, before, op, product);
      }
    }
  }

  lemma {:induction false} BalancesStayUnique(t: Tenant, ops: seq<Op>)
    ensures Unique(Run(t, Empty, ops).balances)
  {
    if ops != [] {
      var before, op := Run(t, Empty, ops[..|ops| - 1]), ops[|ops| - 1];
      BalancesStayUnique(t, ops[..|ops| - 1]);
      OnlyMovementsMoveStock(t, before, op);
      if Accepted(t, before, op) {
        PostKeepsKeys(before.balances, op.m.place, op.m.qty, 0);
      }
    }
  }

  lemma {:induction false} StrictStockIsCovered(t: Tenant, ops: seq<Op>, product: ProductId)
    requires t.blockNegative
    ensures 0 <= TotalOnHand(Run(t, Empty, ops), product)
  {
    var inv := Run(t, Empty, ops);
    StrictModeNeverNegative(t, Empty, ops);
    BalancesStayUnique(t, ops);
    forall place ensures 0 <= OnHand(inv.balances, place) {
      assert 0 <= Balance(inv, AtPlace(place));
    }
    RowWithinTotal(inv.balances, ProductOf, product, Place(product, 0));
  }

  predicate ReceiptsCosted(ops: seq<Op>, product: ProductId) {
    forall op :: op in ops && op.Move? && op.m.place.product == product && op.m.qty > 0 ==> op.m.unitCost.Some?
  }

  /** In strict mode it is enough that every receipt states its cost. */
  lemma {:induction false} StrictRunsAreCovered(t: Tenant, ops: seq<Op>, product: ProductId)
    requires t.blockNegative && ReceiptsCosted(ops, product)
    ensures CostedAndCovered(t, Empty, ops, product)
  {
    StrictStockIsCovered(t, ops, product);
    if ops != [] {
      StrictRunsAreCovered(t, ops[..|ops| - 1], product);
    }
  }

  /** The receipt of `qty` at `cost` moves the average to a point between the old average and `cost` exactly
      when prior stock is not negative, or the revaluation of the prior shortfall rounds away. */
  lemma {:induction false} NewAverageBetweenIff(stock: int, average: int, qty: int, cost: int)
    requires 0 < qty && 0 < stock + qty
    ensures var shift := stock * (average - cost);
            Min(average, cost) <= NewAverage(stock, average, qty, cost) <= Max(average, cost)
            <==> || 0 <= stock
                 || 2 * Abs(shift) < stock + qty
                 || (2 * Abs(shift) == stock + qty && (shift < 0 < cost || cost < 0 < shift))
  {
    if 0 <= stock {
      WeightedMeanInRange(stock, average, qty, cost, Min(average, cost), Max(average, cost));
    } else {
      ShortfallShiftsAverage(stock, average, qty, cost);
    }
  }

  lemma {:induction false} MeanAsShift(stock: int, average: int, qty: int, cost: int)
    ensures stock * average + qty * cost == cost * (stock + qty) + stock * (average - cost)
  {
  }

  lemma {:induction false} ShortfallShiftsAverage(stock: int, average: int, qty: int, cost: int)
    requires stock < 0 < qty && 0 < stock + qty
    ensures var shift := stock * (average - cost);
            Min(average, cost) <= NewAverage(stock, average, qty, cost) <= Max(average, cost)
            <==> || 2 * Abs(shift) < stock + qty
                 || (2 * Abs(shift) == stock + qty && (shift < 0 < cost || cost < 0 < shift))
  {
    var n, shift := stock + qty, stock * (average - cost);
    MeanAsShift(stock, average, qty, cost);
    RoundsToCentreIff(cost, n, shift);
    RoundLeans(cost, n, shift);
    if cost <= average {
      assert shift <= 0 by { MulMonotone(stock, 0, average - cost); }
    } else {
      assert 0 <= shift by { MulMonotone(stock, 0, cost - average); }
    }
  }

  lemma {:induction false} OffsetSign(k: int, n: int, r: int)
    requires 0 < n
    ensures var offset := n * r - k * n;
            (r == k ==> offset == 0) && (k < r ==> n <= offset) && (r < k ==> offset <= -n)
  {
    Distribute(n, r, k);
    if k < r { MulMonotone(1, r - k, n); }
    if r < k { MulMonotone(r - k, -1, n); }
  }

  /** How far the rounding of a shifted multiple of `n` lies from the multiple. */
  lemma {:induction false} RoundOffset(k: int, n: int, shift: int) returns (offset: int)
    requires 0 < n
    ensures var r := RoundHalfUp(k * n + shift, n);
            && -n <= 2 * offset - 2 * shift <= n
            && (0 <= k * n + shift ==> -n < 2 * offset - 2 * shift)
            && (k * n + shift <= 0 ==> 2 * offset - 2 * shift < n)
            && (r == k ==> offset == 0) && (k < r ==> n <= offset) && (r < k ==> offset <= -n)
  {
    var r := RoundHalfUp(k * n + shift, n);
    offset := n * r - k * n;
    RoundsToNearest(k * n + shift, n);
    OffsetSign(k, n, r);
  }

  lemma {:induction false} RoundLeans(k: int, n: int, shift: int)
    requires 0 < n
    ensures shift <= 0 ==> RoundHalfUp(k * n + shift, n) <= k
    ensures 0 <= shift ==> k <= RoundHalfUp(k * n + shift, n)
  {
    var offset := RoundOffset(k, n, shift);
  }

  /** A shifted multiple of `n` rounds back to the multiple exactly when the shift is less than half a step,
      or half a step towards zero. */
  lemma {:induction false} RoundsToCentreIff(k: int, n: int, shift: int)
    requires 0 < n
    ensures RoundHalfUp(k * n + shift, n) == k
            <==> 2 * Abs(shift) < n || (2 * Abs(shift) == n && (shift < 0 < k || k < 0 < shift))
  {
    var offset := RoundOffset(k, n, shift);
    if 0 < k { MulMonotone(1, k, n); }
    if k < 0 { MulMonotone(k, -1, n); }
  }

  // ---- A run on which the average leaves the range of its receipts ----

  const LooseTenant := Tenant(map[1 := Product(AVERAGE, false, 0)], false)

  function Adjust(qty: int, unitCost: Option<int>): Op {
    Move(Request(Adjustment, Place(1, 1), None, Untagged, qty, unitCost, Ref(OTHER(""), ""), 0))
  }

  lemma {:induction false} AdjustMoves(inv: Inventory, qty: int, unitCost: Option<int>)
    ensures Accepted(LooseTenant, inv, Adjust(qty, unitCost))
    ensures var after, stock := Step(LooseTenant, inv, Adjust(qty, unitCost)), TotalOnHand(inv, 1);
            && TotalOnHand(after, 1) == stock + qty
            && Average(after, 1) == if qty > 0 && unitCost.Some?
                                    then NewAverage(stock, Average(inv, 1), qty, unitCost.value) else Average(inv, 1)
  {
    PostChangesSum(inv.balances, Place(1, 1), qty, 0, ProductOf, 1);
  }

  /** One received at 10.00, ten issued, ten received at 5.00: the average ends at -40.00. */
  lemma {:induction false} ShortfallDrivesAverageNegative()
    ensures var ops := [Adjust(100, Some(100000)), Adjust(-1000, None), Adjust(1000, Some(50000))];
            Average(Run(LooseTenant, Empty, ops), 1) == -400000
  {
    var first, second := Adjust(100, Some(100000)), Adjust(-1000, None);
    var third := Adjust(1000, Some(50000));
    var one := Step(LooseTenant, Empty, first);
    assert [] + [first] == [first] && [first] + [second] == [first, second];
    assert [first, second] + [third] == [first, second, third];
    RunOfAppend(LooseTenant, Empty, [], first);
    RunOfAppend(LooseTenant, Empty, [first], second);
    RunOfAppend(LooseTenant, Empty, [first, second], third);
    AdjustMoves(Empty, 100, Some(100000));
    AdjustMoves(one, -1000, None);
    AdjustMoves(Step(LooseTenant, one, second), 1000, Some(50000));
    RoundExact(100000, 100);
    RoundExact(-400000, 100);
  }
}
