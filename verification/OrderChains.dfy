/** Chains of purchase-order versions, each superseding an older one, and the walk back to the original. */
module OrderChains {
  import opened Records

  type OrderId = nat

  /** An order version, and the one it supersedes. */
  datatype Order = Order(supersedes: Option<OrderId>, version: int)

  // ---- The chain of versions ----

  /** The order `po` supersedes, when that order is there. */
  function Next(pos: map<OrderId, Order>, po: OrderId): Option<OrderId> {
    if po in pos && pos[po].supersedes.Some? && pos[po].supersedes.value in pos then pos[po].supersedes else None
  }

  /** Walk from `cur`, stopping at an order with no predecessor or already seen. */
  function Walk(pos: map<OrderId, Order>, cur: OrderId, seen: set<OrderId>): OrderId
    decreases pos.Keys - seen
  {
    if cur in seen || Next(pos, cur).None? then cur else Walk(pos, Next(pos, cur).value, seen + {cur})
  }

  function ChainRoot(pos: map<OrderId, Order>, po: OrderId): OrderId {
    Walk(pos, po, {})
  }

  /** `chain_root`: it stops on any map, cycles included, since each turn sees one more order. */
  method FindChainRoot(pos: map<OrderId, Order>, po: OrderId) returns (root: OrderId)
    ensures root == ChainRoot(pos, po)
  {
    var seen: set<OrderId> := {};
    root := po;
    while root !in seen
      invariant Walk(pos, root, seen) == ChainRoot(pos, po)
      invariant root in pos || seen == {}
      decreases pos.Keys - seen, root !in seen
    {
      var sup := if root in pos then pos[root].supersedes else None;
      if sup.None? || sup.value !in pos {
        return;
      }
      seen := seen + {root};
      root := sup.value;
    }
  }

  /** `po` leads back in `n` steps to `root`, which supersedes nothing. */
  ghost predicate LeadsTo(pos: map<OrderId, Order>, po: OrderId, root: OrderId, n: nat)
    decreases n
  {
    if n == 0 then po == root && Next(pos, po).None?
    else Next(pos, po).Some? && LeadsTo(pos, Next(pos, po).value, root, n - 1)
  }

  lemma {:induction false} LeadsToOnce(pos: map<OrderId, Order>, po: OrderId, r1: OrderId, n1: nat, r2: OrderId,
      n2: nat)
    requires LeadsTo(pos, po, r1, n1) && LeadsTo(pos, po, r2, n2)
    ensures n1 == n2 && r1 == r2
    decreases n1
  {
    if n1 > 0 && n2 > 0 {
      LeadsToOnce(pos, Next(pos, po).value, r1, n1 - 1, r2, n2 - 1);
    }
  }

  lemma {:induction false} WalkFindsRoot(pos: map<OrderId, Order>, cur: OrderId, seen: set<OrderId>, root: OrderId,
      n: nat)
    requires LeadsTo(pos, cur, root, n)
    requires forall x, k: nat :: x in seen && k <= n ==> !LeadsTo(pos, x, root, k)
    ensures Walk(pos, cur, seen) == root
    decreases n
  {
    if n > 0 {
      forall x, k: nat | x in seen + {cur} && k <= n - 1 ensures !LeadsTo(pos, x, root, k) {
        if x == cur && LeadsTo(pos, cur, root, k) {
          LeadsToOnce(pos, cur, root, n, root, k);
        }
      }
      WalkFindsRoot(pos, Next(pos, cur).value, seen + {cur}, root, n - 1);
    }
  }

  /** On a chain that ends, the root is the order that supersedes nothing. */
  lemma {:induction false} ChainRootIsTheOriginal(pos: map<OrderId, Order>, po: OrderId, root: OrderId, n: nat)
    requires LeadsTo(pos, po, root, n)
    ensures ChainRoot(pos, po) == root
  {
    WalkFindsRoot(pos, po, {}, root, n);
  }

  // ---- Cycles ----

  /** The order `n` steps back. */
  function Ancestor(pos: map<OrderId, Order>, po: OrderId, n: nat): Option<OrderId>
    decreases n
  {
    if n == 0 then Some(po)
    else if Next(pos, po).None? then None else Ancestor(pos, Next(pos, po).value, n - 1)
  }

  lemma {:induction false} AncestorOfAncestor(pos: map<OrderId, Order>, po: OrderId, a: nat, b: nat)
    requires Ancestor(pos, po, a).Some?
    ensures Ancestor(pos, po, a + b) == Ancestor(pos, Ancestor(pos, po, a).value, b)
    decreases a
  {
    if a > 0 {
      AncestorOfAncestor(pos, Next(pos, po).value, a - 1, b);
    }
  }

  /** An order that is never met again may be left out of what has been seen. */
  lemma {:induction false} WalkIgnoresUnmet(pos: map<OrderId, Order>, cur: OrderId, seen: set<OrderId>, x: OrderId)
    requires forall n: nat :: Ancestor(pos, cur, n) != Some(x)
    ensures Walk(pos, cur, seen + {x}) == Walk(pos, cur, seen)
    decreases pos.Keys - seen
  {
    assert Ancestor(pos, cur, 0) == Some(cur);
    if cur !in seen && Next(pos, cur).Some? {
      var next := Next(pos, cur).value;
      forall n: nat ensures Ancestor(pos, next, n) != Some(x) {
        assert Ancestor(pos, cur, n + 1) == Ancestor(pos, next, n);
      }
      WalkIgnoresUnmet(pos, next, seen + {cur}, x);
      assert seen + {x} + {cur} == seen + {cur} + {x};
    }
  }

  /** A walk that comes back to a seen order, meeting no other seen order first, stops there. */
  lemma {:induction false} WalkStopsAtSeen(pos: map<OrderId, Order>, cur: OrderId, seen: set<OrderId>, x: OrderId,
      n: nat)
    requires x in seen && Ancestor(pos, cur, n) == Some(x)
    requires forall k: nat :: k < n ==> Ancestor(pos, cur, k).Some? && Ancestor(pos, cur, k).value !in seen
    ensures Walk(pos, cur, seen) == x
    decreases n
  {
    if n > 0 {
      var next := Next(pos, cur).value;
      assert Ancestor(pos, cur, 0) == Some(cur);
      forall k: nat | k < n - 1
        ensures Ancestor(pos, next, k).Some? && Ancestor(pos, next, k).value !in seen + {cur}
      {
        assert Ancestor(pos, cur, k + 1) == Ancestor(pos, next, k);
        if Ancestor(pos, next, k) == Some(cur) {
          AncestorOfAncestor(pos, cur, k + 1, n - (k + 1));
        }
      }
      WalkStopsAtSeen(pos, next, seen + {cur}, x, n - 1);
    }
  }

  ghost predicate OnCycle(pos: map<OrderId, Order>, po: OrderId) {
    exists n: nat :: n > 0 && Ancestor(pos, po, n) == Some(po)
  }

  lemma {:induction false} FirstReturn(pos: map<OrderId, Order>, cur: OrderId, x: OrderId, n: nat) returns (m: nat)
    requires Ancestor(pos, cur, n) == Some(x)
    ensures Ancestor(pos, cur, m) == Some(x)
    ensures forall k: nat :: k < m ==> Ancestor(pos, cur, k).Some? && Ancestor(pos, cur, k).value != x
    decreases n
  {
    if cur == x {
      m := 0;
    } else {
      var next := Next(pos, cur).value;
      var rest := FirstReturn(pos, next, x, n - 1);
      m := rest + 1;
      forall k: nat | k < m ensures Ancestor(pos, cur, k).Some? && Ancestor(pos, cur, k).value != x {
        assert k > 0 ==> Ancestor(pos, cur, k) == Ancestor(pos, next, k - 1);
      }
    }
  }

  lemma {:induction false} CycleIsItsOwnRoot(pos: map<OrderId, Order>, po: OrderId)
    requires OnCycle(pos, po)
    ensures ChainRoot(pos, po) == po
  {
    var n: nat :| n > 0 && Ancestor(pos, po, n) == Some(po);
    var next := Next(pos, po).value;
    var m := FirstReturn(pos, next, po, n - 1);
    WalkStopsAtSeen(pos, next, {po}, po, m);
    assert {} + {po} == {po};
  }

  /** An amendment keeps the chain root of the order it supersedes exactly when it is not on a cycle with it
      (superseding itself aside). */
  lemma {:induction false} AmendmentKeepsRootIff(pos: map<OrderId, Order>, po: OrderId)
    requires Next(pos, po).Some?
    ensures ChainRoot(pos, po) == ChainRoot(pos, Next(pos, po).value)
            <==> !OnCycle(pos, po) || Next(pos, po) == Some(po)
  {
    var next := Next(pos, po).value;
    assert {} + {po} == {po};
    if OnCycle(pos, po) {
      CycleIsItsOwnRoot(pos, po);
      NextIsOnCycle(pos, po);
      CycleIsItsOwnRoot(pos, next);
    } else {
      forall n: nat ensures Ancestor(pos, next, n) != Some(po) {
        assert Ancestor(pos, po, n + 1) == Ancestor(pos, next, n);
      }
      WalkIgnoresUnmet(pos, next, {}, po);
    }
  }

  lemma {:induction false} NextIsOnCycle(pos: map<OrderId, Order>, po: OrderId)
    requires OnCycle(pos, po) && Next(pos, po).Some?
    ensures OnCycle(pos, Next(pos, po).value)
  {
    var next := Next(pos, po).value;
    var n: nat :| n > 0 && Ancestor(pos, po, n) == Some(po);
    AncestorOfAncestor(pos, po, n, 1);
    assert Ancestor(pos, po, 1) == Ancestor(pos, next, 0) == Some(next);
    assert Ancestor(pos, po, n + 1) == Ancestor(pos, next, n) == Some(next);
  }

  /** Two orders that supersede each other: each is its own root. */
  lemma {:induction false} CycleSplitsItsOrders()
    ensures var pos := map[1 := Order(Some(2), 1), 2 := Order(Some(1), 2)];
            Next(pos, 2) == Some(1) && ChainRoot(pos, 1) == 1 && ChainRoot(pos, 2) == 2
  {
    var pos := map[1 := Order(Some(2), 1), 2 := Order(Some(1), 2)];
    assert Ancestor(pos, 2, 1) == Some(1) && Ancestor(pos, 1, 1) == Some(2);
    assert Ancestor(pos, 1, 2) == Some(1) && Ancestor(pos, 2, 2) == Some(2);
    CycleIsItsOwnRoot(pos, 1);
    CycleIsItsOwnRoot(pos, 2);
  }
}
