/** Ids written out as text. */
module Numerals {
  function Numeral(n: nat): string
    decreases n
  {
    if n < 10 then [Digit(n)] else Numeral(n / 10) + [Digit(n % 10)]
  }

  function Digit(d: nat): char
    requires d < 10
  {
    "0123456789"[d]
  }

  /** Different ids are written differently. */
  lemma {:induction false} NumeralsDiffer(a: nat, b: nat)
    requires Numeral(a) == Numeral(b)
    ensures a == b
    decreases a
  {
    var x, y := Numeral(a), Numeral(b);
    assert x[|x| - 1] == y[|y| - 1];
    if a >= 10 && b >= 10 {
      assert x[..|x| - 1] == Numeral(a / 10) && y[..|y| - 1] == Numeral(b / 10);
      NumeralsDiffer(a / 10, b / 10);
    }
  }
}
