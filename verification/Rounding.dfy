/** Decimal quantisation, half to even, counted in whole quanta. */
module Rounding {
  import opened Numbers

  /** The whole number nearest to x; a tie goes to the even neighbour. */
  function HalfEven(x: real): (n: int)
    ensures -0.5 <= n as real - x <= 0.5
    ensures n as real - x == 0.5 || n as real - x == -0.5 ==> n % 2 == 0
  {
    var down := x.Floor;
    var part := x - down as real;
    if part < 0.5 then down
    else if part > 0.5 then down + 1
    else if down % 2 == 0 then down else down + 1
  }

  /** Those two facts single the result out. */
  lemma HalfEvenUnique(x: real, n: int)
    requires -0.5 <= n as real - x <= 0.5
    requires n as real - x == 0.5 || n as real - x == -0.5 ==> n % 2 == 0
    ensures n == HalfEven(x)
  {
    var m := HalfEven(x);
    assert -1.0 <= (n - m) as real <= 1.0;
  }

  lemma HalfEvenOfWhole(n: int)
    ensures HalfEven(n as real) == n
  {
    HalfEvenUnique(n as real, n);
  }

  /** The sum of the rounded values. */
  function RoundedTotal(xs: seq<real>): int {
    if xs == [] then 0 else RoundedTotal(xs[..|xs| - 1]) + HalfEven(xs[|xs| - 1])
  }

  lemma {:induction false} ErrorsAddUp(xs: seq<real>)
    ensures -(|xs| as real / 2.0) <= RoundedTotal(xs) as real - Sum(xs) <= |xs| as real / 2.0
  {
    if xs != [] {
      ErrorsAddUp(xs[..|xs| - 1]);
      assert |xs| as real / 2.0 == (|xs| - 1) as real / 2.0 + 0.5;
    }
  }

  /** Rounding each of n values and rounding their sum differ by at most (n + 1)/2 quanta. */
  lemma RoundingGap(xs: seq<real>)
    ensures -(|xs| + 1) <= 2 * (RoundedTotal(xs) - HalfEven(Sum(xs))) <= |xs| + 1
  {
    ErrorsAddUp(xs);
    var gap := RoundedTotal(xs) - HalfEven(Sum(xs));
    assert -((|xs| + 1) as real) <= 2.0 * gap as real <= (|xs| + 1) as real;
  }
}
