/** The inventory service over its tables, updating them in place.
    A request that is refused part way is rolled back by the transaction it runs in. */
module Stockroom {
  import opened Rounding
  import opened Records
  import opened Tables
  import opened Fifo
  import opened Ledger
  import H = Holds
  import S = Serials

  class Service {
    const tenant: Tenant
    var balances: seq<Row<Place>>
    var lots: seq<Row<LotKey>>
    var bins: seq<Row<BinKey>>
    var layers: seq<Layer>
    var averages: map<ProductId, int>
    var movements: seq<Movement>
    var issueCosts: seq<IssueCost>
    var reservations: seq<Reservation>

    function Stored(): Inventory
      reads this
    {
      Inventory(balances, lots, bins, layers, averages, movements, issueCosts, reservations)
    }

    constructor (t: Tenant)
      ensures tenant == t && Stored() == Empty
    {
      tenant := t;
      balances, lots, bins, layers := [], [], [], [];
      averages, movements, issueCosts, reservations := map[], [], [], [];
    }

    /** What the enclosing transaction does when a request raises. */
    method RollBack(saved: Inventory)
      modifies this
      ensures Stored() == saved
    {
      balances, lots, bins, layers := saved.balances, saved.lots, saved.bins, saved.layers;
      averages, movements := saved.averages, saved.movements;
      issueCosts, reservations := saved.issueCosts, saved.reservations;
    }

    /** Draw `qty` from the layers in scope, oldest first. */
    method ConsumeFifoLayers(place: Place, tag: Tag, qty: nat, fallback: int)
      returns (cost: int, consumed: seq<Take>)
      modifies this`layers
      ensures var relief := Relieve(old(layers), ScopeOf(place, tag), qty);
              layers == relief.layers && consumed == AllTakes(relief, fallback)
      ensures cost == TakenCost(consumed)
      ensures NoneNegative(old(layers)) ==> cost == PopCost(Units(old(layers), ScopeOf(place, tag)), qty, fallback)
    {
      ghost var before := layers;
      var scope := ScopeOf(place, tag);
      var remaining, i := qty, 0;
      cost, consumed := 0, [];
      while i < |layers| && remaining > 0
        invariant 0 <= remaining
        invariant Walking(before, scope, qty, layers, i, consumed, remaining)
        invariant cost == TakenCost(consumed)
        decreases |layers| - i
      {
        var layer := layers[i];
        if InScope(layer, scope) && layer.qtyRemaining > 0 {
          var take := Min(remaining, layer.qtyRemaining);
          WalkTakes(before, scope, qty, layers, i, consumed, remaining);
          TakenOfConcat(consumed, [Take(Some(layer.id), take, layer.unitCost)]);
          cost := cost + take * layer.unitCost;
          layers := layers[i := layer.(qtyRemaining := layer.qtyRemaining - take)];
          consumed := consumed + [Take(Some(layer.id), take, layer.unitCost)];
          remaining := remaining - take;
        } else {
          WalkSkips(before, scope, qty, layers, i, consumed, remaining);
        }
        i := i + 1;
      }
      WalkEnds(before, scope, qty, layers, i, consumed, remaining);
      if remaining > 0 {
        TakenOfConcat(consumed, [Take(None, remaining, fallback)]);
        cost := cost + remaining * fallback;
        consumed := consumed + [Take(None, remaining, fallback)];
      }
      if NoneNegative(before) {
        RelieveCostsThePoppedUnits(before, scope, qty, fallback);
      }
    }

    /** The guard that runs before any balance is written. While serials are exclusive it lets a movement of a
        tracked product through exactly when it names a serial and booking it, at whatever cost, leaves every
        serial exclusive; movements of other products, and of nothing, always pass. */
    method GuardSerialMovement(m: Request) returns (problem: Option<Problem>)
      requires m.place.product in tenant.products
      ensures problem == SerialProblem(tenant.products[m.place.product], lots, m)
      ensures !S.Tracked(tenant, m.place) || m.qty == 0 ==> problem.None?
      ensures S.Tracked(tenant, m.place) && m.qty != 0 && S.Exclusive(tenant, Stored()) ==>
        forall c :: problem.None? <==> Given(m.tag.serial) && S.Exclusive(tenant, Book(Stored(), m, c))
    {
      if S.Tracked(tenant, m.place) && m.qty != 0 && S.Exclusive(tenant, Stored()) {
        forall c ensures SerialProblem(tenant.products[m.place.product], lots, m).None?
                         <==> Given(m.tag.serial) && S.Exclusive(tenant, Book(Stored(), m, c))
        {
          S.GuardRefusesExactly(tenant, Stored(), m, c);
        }
      }
      if !tenant.products[m.place.product].trackSerial || m.qty == 0 {
        return None;
      }
      if !Given(m.tag.serial) {
        return Some(SerialRequired);
      }
      if m.qty > 0 {
        var onHand := SumOnHand(lots, SerialAt, SerialKey(m.place, m.tag.serial));
        problem := if onHand + m.qty > ONE then Some(SerialInStock) else None;
      } else {
        var current := OnHand(lots, LotKey(m.place, m.tag));
        problem := if current + m.qty < 0 then Some(SerialNotAvailable) else None;
      }
    }

    /** Value an accepted movement, maintaining the average and the layers. */
    method ValueMovement(m: Request, prior: int) returns (moveUnitCost: int, value: int, consumed: seq<Take>)
      requires m.place.product in tenant.products
      modifies this`layers, this`averages
      ensures var c := Cost(tenant.products[m.place.product], prior, old(Average(Stored(), m.place.product)),
                            old(layers), m);
              && moveUnitCost == c.unitCost && value == c.value && consumed == c.takes
              && layers == c.layers && averages == old(averages)[m.place.product := c.average]
    {
      var product := m.place.product;
      var spec := tenant.products[product];
      var priorAverage := Average(Stored(), product);
      var average := priorAverage;
      consumed := [];
      if m.qty > 0 {
        if spec.costMethod == STANDARD {
          average := spec.standardCost;
          moveUnitCost := spec.standardCost;
        } else {
          moveUnitCost := if m.unitCost.Some? then m.unitCost.value else priorAverage;
          if m.unitCost.Some? {
            average := NewAverage(prior, priorAverage, m.qty, moveUnitCost);
          }
          if spec.costMethod == FIFO {
            layers := Insert(layers, NewLayer(layers, m, moveUnitCost));
          }
        }
        value := Cents(m.qty * moveUnitCost);
      } else if spec.costMethod == FIFO {
        var cost;
        cost, consumed := ConsumeFifoLayers(m.place, m.tag, -m.qty, priorAverage);
        value := Cents(-cost);
        moveUnitCost := if m.qty != 0 then RoundHalfUp(cost, -m.qty) else priorAverage;
      } else {
        moveUnitCost := if spec.costMethod == STANDARD && spec.standardCost != 0 then spec.standardCost
                        else priorAverage;
        value := Cents(m.qty * moveUnitCost);
      }
      averages := averages[product := average];
    }

    /** Post to the location balance, then to the lot and bin balances the request names. */
    method MoveBalances(m: Request) returns (problem: Option<Problem>)
      modifies this
      ensures problem == StockProblem(tenant, old(Stored()), m)
      ensures Stored() == if problem.Some? then old(Stored()) else WithStockMoved(old(Stored()), m)
    {
      var saved := Stored();
      if Refused(tenant, m.qty, OnHand(balances, m.place)) {
        return Some(StockShort);
      }
      balances := Post(balances, m.place, m.qty, 0);
      if IsTagged(m.tag) {
        if Refused(tenant, m.qty, OnHand(lots, LotKey(m.place, m.tag))) {
          RollBack(saved);
          return Some(LotShort);
        }
        lots := Post(lots, LotKey(m.place, m.tag), m.qty, 0);
      }
      if m.bin.Some? {
        if Refused(tenant, m.qty, OnHand(bins, BinKey(m.place, m.bin.value))) {
          RollBack(saved);
          return Some(BinShort);
        }
        bins := Post(bins, BinKey(m.place, m.bin.value), m.qty, 0);
      }
      problem := None;
    }

    method ApplyMovement(m: Request) returns (r: Result<Movement, Problem>)
      modifies this
      ensures match Apply(tenant, old(Stored()), m)
              case Ok(after) => Stored() == after && movements != [] && r == Ok(movements[|movements| - 1])
              case Err(problem) => Stored() == old(Stored()) && r == Err(problem)
    {
      if m.place.product !in tenant.products {
        return Err(NoSuchProduct);
      }
      var serial := GuardSerialMovement(m);
      if serial.Some? {
        return Err(serial.value);
      }
      var prior := TotalOnHand(Stored(), m.place.product);
      var short := MoveBalances(m);
      if short.Some? {
        return Err(short.value);
      }
      var moveUnitCost, value, consumed := ValueMovement(m, prior);
      var movement := Movement(m.kind, m.place, m.bin, m.tag, m.qty, Some(moveUnitCost), value, m.ref, m.at);
      var id := |movements|;
      movements := movements + [movement];
      RecordIssueCosts(id, m.tag, consumed);
      r := Ok(movement);
    }

    /** Append the issue-cost trail of one movement. */
    method RecordIssueCosts(movement: nat, tag: Tag, consumed: seq<Take>)
      modifies this`issueCosts
      ensures issueCosts == old(issueCosts) + IssueRows(movement, tag, consumed)
    {
      var i := 0;
      while i < |consumed|
        invariant 0 <= i <= |consumed|
        invariant issueCosts + IssueRows(movement, tag, consumed[i..])
               == old(issueCosts) + IssueRows(movement, tag, consumed)
      {
        var take := consumed[i];
        assert consumed[i..][1..] == consumed[i + 1..];
        var row := IssueCost(movement, tag, take, Cents(take.qty * take.unitCost));
        assert issueCosts + [row] + IssueRows(movement, tag, consumed[i + 1..])
            == issueCosts + ([row] + IssueRows(movement, tag, consumed[i + 1..]));
        issueCosts := issueCosts + [row];
        i := i + 1;
      }
      assert consumed[i..] == [];
    }

    method ReserveStock(place: Place, tag: Tag, qty: int, ref: Ref, now: int) returns (problem: Option<Problem>)
      modifies this
      ensures match H.Reserve(tenant, old(Stored()), place, tag, qty, ref, now)
              case Ok(after) => Stored() == after && problem.None?
              case Err(e) => Stored() == old(Stored()) && problem == Some(e)
    {
      if qty <= 0 {
        return None;
      }
      if tenant.blockNegative {
        var available := OnHand(balances, place) - Reserved(balances, place);
        if qty > available {
          return Some(NotAvailableToPromise);
        }
      }
      balances := Post(balances, place, 0, qty);
      if IsTagged(tag) {
        lots := Post(lots, LotKey(place, tag), 0, qty);
      }
      reservations := reservations + [Reservation(place, tag, qty, Active, ref, now)];
      problem := None;
    }

    method Unhold(r: Reservation, amount: int)
      modifies this`balances, this`lots
      ensures Stored() == H.Unhold(old(Stored()), r, amount)
    {
      if Has(balances, r.place) {
        balances := Post(balances, r.place, 0, -amount);
      }
      if IsTagged(r.tag) && Has(lots, LotKey(r.place, r.tag)) {
        lots := Post(lots, LotKey(r.place, r.tag), 0, -amount);
      }
    }

    method ReleaseReservations(ref: Ref)
      modifies this
      ensures Stored() == H.Release(old(Stored()), ref)
    {
      var i := 0;
      while i < |reservations|
        invariant 0 <= i <= |reservations|
        invariant H.ReleaseFrom(Stored(), ref, i) == H.Release(old(Stored()), ref)
        decreases |reservations| - i
      {
        var r := reservations[i];
        if H.Wanted(r, ref) {
          Unhold(r, r.qty);
          reservations := reservations[i := r.(status := Released)];
        }
        i := i + 1;
      }
    }

    method ConsumeReservations(ref: Ref, qty: Option<int>, now: int) returns (consumedTotal: int)
      modifies this
      ensures var c := H.Consume(old(Stored()), ref, qty, now); Stored() == c.inv && consumedTotal == c.total
    {
      var remaining := qty;
      var n, i := |reservations|, 0;
      consumedTotal := 0;
      ghost var whole := H.Consume(Stored(), ref, qty, now);
      while i < n && !(remaining.Some? && remaining.value <= 0)
        invariant 0 <= i <= n <= |reservations|
        invariant H.ConsumeFrom(Stored(), ref, remaining, i, n, now)
               == H.Consumption(whole.inv, whole.total - consumedTotal)
      {
        var r := reservations[i];
        if H.Wanted(r, ref) {
          var take := if remaining.None? then r.qty else Min(remaining.value, r.qty);
          if take > 0 {
            Unhold(r, take);
            if take >= r.qty {
              reservations := reservations[i := r.(status := Consumed)];
            } else {
              reservations := reservations[i := r.(qty := r.qty - take)]
                + [r.(qty := take, status := Consumed, createdAt := now)];
            }
            consumedTotal := consumedTotal + take;
            remaining := H.Less(remaining, take);
          }
        }
        i := i + 1;
      }
      ConsumeNothing(Stored(), ref, remaining, i, n, now);
    }

    method ExpireStaleReservations(cutoff: int) returns (count: nat)
      modifies this
      ensures var e := H.Expire(old(Stored()), cutoff); Stored() == e.inv && count == e.count
    {
      var stale := H.StaleRefs(reservations, cutoff);
      var i := 0;
      count := 0;
      ghost var whole := H.ReleaseAll(Stored(), stale);
      while i < |stale|
        invariant 0 <= i <= |stale|
        invariant H.ReleaseAll(Stored(), stale[i..]).inv == whole.inv
        invariant count + H.ReleaseAll(Stored(), stale[i..]).count == whole.count
      {
        assert stale[i..][0] == stale[i] && stale[i..][1..] == stale[i + 1..];
        count := count + H.ActiveRows(reservations, stale[i]);
        ReleaseReservations(stale[i]);
        i := i + 1;
      }
    }
  }

  /** The walk over `before` has reached row `i`: the rows it passed are as it left them in `now`, and going
      on from there gives what relieving `before` gives. */
  ghost predicate Walking(before: seq<Layer>, scope: Scope, qty: int, now: seq<Layer>, i: nat,
                          consumed: seq<Take>, remaining: int)
  {
    && i <= |now| == |before| && now[i..] == before[i..]
    && (var rest := Relieve(before[i..], scope, remaining);
        Relieve(before, scope, qty) == Relief(now[..i] + rest.layers, consumed + rest.takes, rest.uncovered))
  }

  lemma {:induction false} WalkTakes(before: seq<Layer>, scope: Scope, qty: int, now: seq<Layer>, i: nat,
      consumed: seq<Take>, remaining: int)
    requires i < |now| && 0 < remaining && Walking(before, scope, qty, now, i, consumed, remaining)
    requires InScope(now[i], scope) && now[i].qtyRemaining > 0
    ensures var take := Min(remaining, now[i].qtyRemaining);
            Walking(before, scope, qty, now[i := now[i].(qtyRemaining := now[i].qtyRemaining - take)], i + 1,
                    consumed + [Take(Some(now[i].id), take, now[i].unitCost)], remaining - take)
  {
    var take := Min(remaining, now[i].qtyRemaining);
    var kept := now[i].(qtyRemaining := now[i].qtyRemaining - take);
    assert before[i] == now[i] by { assert before[i..][0] == now[i..][0]; }
    assert before[i..][1..] == before[i + 1..];
    assert now[i := kept][..i + 1] == now[..i] + [kept];
    assert now[i := kept][i + 1..] == now[i..][1..];
    RegroupStep(now[..i], consumed, kept, [Take(Some(now[i].id), take, now[i].unitCost)],
                Relieve(before[i + 1..], scope, remaining - take));
  }

  lemma {:induction false} WalkSkips(before: seq<Layer>, scope: Scope, qty: int, now: seq<Layer>, i: nat,
      consumed: seq<Take>, remaining: int)
    requires i < |now| && Walking(before, scope, qty, now, i, consumed, remaining)
    requires !(InScope(now[i], scope) && now[i].qtyRemaining > 0)
    ensures Walking(before, scope, qty, now, i + 1, consumed, remaining)
  {
    assert before[i] == now[i] by { assert before[i..][0] == now[i..][0]; }
    assert before[i..][1..] == before[i + 1..];
    assert now[..i + 1] == now[..i] + [now[i]];
    assert now[i + 1..] == now[i..][1..];
    RegroupStep(now[..i], consumed, now[i], [], Relieve(before[i + 1..], scope, remaining));
  }

  lemma {:induction false} WalkEnds(before: seq<Layer>, scope: Scope, qty: int, now: seq<Layer>, i: nat,
      consumed: seq<Take>, remaining: int)
    requires Walking(before, scope, qty, now, i, consumed, remaining) && (i == |now| || remaining <= 0)
    ensures Relieve(before, scope, qty) == Relief(now, consumed, remaining)
  {
    if remaining <= 0 {
      RelieveNothing(before[i..], scope, remaining);
    }
    assert now == now[..i] + before[i..];
    assert consumed + [] == consumed;
  }

  lemma {:induction false} RegroupStep(done: seq<Layer>, takes: seq<Take>, layer: Layer, more: seq<Take>, rest: Relief)
    ensures done + ([layer] + rest.layers) == done + [layer] + rest.layers
    ensures takes + (more + rest.takes) == takes + more + rest.takes
  {
  }

  /** Once nothing remains to be consumed, or no row is left, consumption stops. */
  lemma {:induction false} ConsumeNothing(inv: Inventory, ref: Ref, remaining: Option<int>, i: nat, n: nat, now: int)
    requires n <= |inv.reservations| && (i >= n || (remaining.Some? && remaining.value <= 0))
    ensures H.ConsumeFrom(inv, ref, remaining, i, n, now) == H.Consumption(inv, 0)
    decreases n - i
  {
    if i < n {
      ConsumeNothing(inv, ref, remaining, i + 1, n, now);
    }
  }
}
