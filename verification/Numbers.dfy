/** Small numeric helpers shared by the models. */
module Numbers {
  function Max(a: real, b: real): (r: real)
    ensures a <= r && b <= r && (r == a || r == b)
  {
    if a >= b then a else b
  }

  function Min(a: real, b: real): (r: real)
    ensures r <= a && r <= b && (r == a || r == b)
  {
    if a <= b then a else b
  }

  function AtLeastZero(n: int): (r: nat)
    ensures n <= r && (r == n || r == 0)
  {
    if n < 0 then 0 else n
  }

  function Sum(xs: seq<real>): real {
    if xs == [] then 0.0 else Sum(xs[..|xs| - 1]) + xs[|xs| - 1]
  }

  function Power2(n: nat): (power: nat)
    ensures power >= 1
  {
    if n == 0 then 1 else 2 * Power2(n - 1)
  }
}
