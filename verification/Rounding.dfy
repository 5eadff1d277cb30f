/** Decimal rounding on scaled integers.
    Quantities are counted in 1/100, unit costs in 1/10000, so a product of the two is counted in
    1/1000000; a ledger value is that product rounded to cents. */
module Rounding {
  /** One cent, counted in millionths. */
  const CENT := 10000

  function Abs(x: int): (a: nat)
    ensures a == x || a == -x
  {
    if x < 0 then -x else x
  }

  function Min(x: int, y: int): int {
    if x <= y then x else y
  }

  function Max(x: int, y: int): int {
    if x <= y then y else x
  }

  /** How many times `d` goes into `n`. */
  function Quotient(n: int, d: int): nat
    requires 0 < d
    decreases n
  {
    if n < d then 0 else 1 + Quotient(n - d, d)
  }

  /** `n / d` to the nearest integer, ties away from zero: Python's ROUND_HALF_UP. */
  function RoundHalfUp(n: int, d: int): int
    requires 0 < d
  {
    if 0 <= n then Quotient(2 * n + d, 2 * d) else 0 - Quotient(d - 2 * n, 2 * d)
  }

  /** An amount in cents, counted in millionths. */
  function Millionths(cents: int): int {
    10000 * cents
  }

  /** Millionths rounded to cents, ties away from zero. */
  function Cents(millionths: int): (cents: int)
    ensures -10000 <= 20000 * cents - 2 * millionths <= 10000
    ensures 0 <= millionths ==> -10000 < 20000 * cents - 2 * millionths
    ensures millionths <= 0 ==> 20000 * cents - 2 * millionths < 10000
  {
    if 0 <= millionths then (millionths + 5000) / 10000 else -((5000 - millionths) / 10000)
  }

  // ---- What rounding to the nearest promises ----

  lemma {:induction false} QuotientBounds(n: nat, d: int)
    requires 0 < d
    ensures d * Quotient(n, d) <= n < d * Quotient(n, d) + d
    decreases n
  {
    if d <= n {
      QuotientBounds(n - d, d);
    }
  }

  /** `r` is an integer nearest to `n / d`, and the one further out of two. */
  predicate IsNearest(n: int, d: int, r: int) {
    var twice := 2 * (d * r);
    && -d <= twice - 2 * n <= d
    && (0 <= n ==> -d < twice - 2 * n) && (n <= 0 ==> twice - 2 * n < d)
  }

  lemma {:induction false} RoundsToNearest(n: int, d: int)
    requires 0 < d
    ensures IsNearest(n, d, RoundHalfUp(n, d))
  {
    var r := RoundHalfUp(n, d);
    QuotientBounds(2 * Abs(n) + d, 2 * d);
  }

  /** Only one integer is nearest in that sense. */
  lemma {:induction false} NearestIsUnique(n: int, d: int, r: int)
    requires 0 < d && IsNearest(n, d, r)
    ensures r == RoundHalfUp(n, d)
  {
    var nearest := RoundHalfUp(n, d);
    RoundsToNearest(n, d);
    if r < nearest {
      MulMonotone(1, nearest - r, d);
      Distribute(d, nearest, r);
    } else if nearest < r {
      MulMonotone(1, r - nearest, d);
      Distribute(d, r, nearest);
    }
  }

  lemma {:induction false} Distribute(d: int, x: int, y: int)
    ensures (x - y) * d == d * x - d * y
  {
  }

  /** Rounding to cents is the same rounding, by a divisor of one cent. */
  lemma {:induction false} CentsAreRoundedHalfUp(millionths: int)
    ensures Cents(millionths) == RoundHalfUp(millionths, 10000)
  {
    NearestIsUnique(millionths, 10000, Cents(millionths));
  }

  /** The size of an amount in cents, counted in two-millionths. */
  function TwoMillionths(cents: int): nat {
    20000 * Abs(cents)
  }

  /** Rounding is symmetric in sign. */
  lemma {:induction false} RoundIsOdd(n: int, d: int)
    requires 0 < d
    ensures RoundHalfUp(-n, d) == -RoundHalfUp(n, d)
  {
    if n == 0 {
      assert Quotient(d, 2 * d) == 0;
    }
  }

  /** Rounding never leaves an interval with integer end points. */
  lemma {:induction false} RoundStaysBetween(n: int, d: int, lo: int, hi: int)
    requires 0 < d
    requires lo * d <= n <= hi * d
    ensures lo <= RoundHalfUp(n, d) <= hi
  {
    var r := RoundHalfUp(n, d);
    RoundsToNearest(n, d);
    if r < lo {
      MulMonotone(1, lo - r, d);
      Distribute(d, lo, r);
    } else if hi < r {
      MulMonotone(1, r - hi, d);
      Distribute(d, r, hi);
    }
  }

  lemma {:induction false} MulMonotone(a: int, b: int, d: int)
    requires 0 <= d && a <= b
    ensures a * d <= b * d
  {
  }

  lemma {:induction false} RoundExact(k: int, d: int)
    requires 0 < d
    ensures RoundHalfUp(k * d, d) == k
  {
    RoundStaysBetween(k * d, d, k, k);
  }

  // ---- Sums ----

  function Sum(xs: seq<int>): int {
    if xs == [] then 0 else xs[0] + Sum(xs[1..])
  }

  lemma {:induction false} SumOfTail(xs: seq<int>, ys: seq<int>)
    requires xs != [] && xs[1..] == ys
    ensures Sum(xs) == xs[0] + Sum(ys)
  {
  }

  lemma {:induction false} SumOfAppend(xs: seq<int>, x: int)
    ensures Sum(xs + [x]) == Sum(xs) + x
  {
    if xs == [] {
      assert [x][1..] == [];
    } else {
      assert (xs + [x])[1..] == xs[1..] + [x];
      SumOfAppend(xs[1..], x);
    }
  }
}
