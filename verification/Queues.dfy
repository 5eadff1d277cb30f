/** A queue written out one unit at a time: the reference against which the greedy loops are proved. */
module Queues {
  import opened Rounding

  function Copies<T>(x: T, n: int): (run: seq<T>)
    ensures |run| == Max(0, n)
    ensures forall i :: 0 <= i < |run| ==> run[i] == x
  {
    if n <= 0 then [] else [x] + Copies(x, n - 1)
  }

  /** Popping `qty` units from a run of `n` equal units followed by `rest`. */
  lemma {:induction false} PopCopies<T>(x: T, n: nat, rest: seq<T>, qty: nat)
    ensures var queue := Copies(x, n) + rest;
            var take, popped := Min(qty, n), Min(qty, |queue|);
            && take <= popped <= |queue| && popped - take == Min(qty - take, |rest|)
            && queue[..popped] == Copies(x, take) + rest[..popped - take]
            && queue[popped..] == Copies(x, n - take) + rest[popped - take..]
  {
    if qty <= n {
      SplitCopies(x, n, qty, rest);
      assert rest[..0] == [];
    } else {
      assert (Copies(x, n) + rest)[n..] == rest;
      assert Copies(x, 0) == [];
    }
  }

  lemma {:induction false} SplitCopies<T>(x: T, n: nat, take: nat, rest: seq<T>)
    requires take <= n
    ensures (Copies(x, n) + rest)[..take] == Copies(x, take)
    ensures (Copies(x, n) + rest)[take..] == Copies(x, n - take) + rest
  {
  }
}
