/** Multiples of `1 / denom`: every finite set of floating-point values has such a denominator. */
module Rationals {

  ghost predicate Grid(x: real, denom: nat)
  {
    x * denom as real == ((x * denom as real).Floor) as real
  }

  ghost predicate Rational(x: real)
  {
    exists denom: nat :: denom > 0 && Grid(x, denom)
  }

  lemma IsGrid(x: real, denom: nat, n: int)
    requires x * denom as real == n as real
    ensures Grid(x, denom)
  {
  }

  lemma Spread(x: real, y: real, d: real)
    ensures (x + y) * d == x * d + y * d && (x - y) * d == x * d - y * d
  {
  }

  lemma GridSum(x: real, y: real, denom: nat)
    requires Grid(x, denom) && Grid(y, denom)
    ensures Grid(x + y, denom) && Grid(x - y, denom)
  {
    var a, b := (x * denom as real).Floor, (y * denom as real).Floor;
    Spread(x, y, denom as real);
    IsGrid(x + y, denom, a + b);
    IsGrid(x - y, denom, a - b);
  }

  lemma GridPositive(x: real, denom: nat)
    requires Grid(x, denom) && x > 0.0 && denom > 0
    ensures x * denom as real >= 1.0
  {
    assert x * denom as real > 0.0;
  }

  lemma GridFiner(x: real, denom: nat, times: nat)
    requires Grid(x, denom)
    ensures Grid(x, denom * times)
  {
    var n := (x * denom as real).Floor;
    calc {
      x * (denom * times) as real;
      { assert (denom * times) as real == denom as real * times as real; }
      x * (denom as real * times as real);
      (x * denom as real) * times as real;
      n as real * times as real;
      (n * times) as real;
    }
    IsGrid(x, denom * times, n * times);
  }

  lemma {:induction false} CommonDenominator(xs: seq<real>) returns (denom: nat)
    requires forall i :: 0 <= i < |xs| ==> Rational(xs[i])
    ensures denom > 0 && forall i :: 0 <= i < |xs| ==> Grid(xs[i], denom)
    decreases |xs|
  {
    if xs == [] {
      denom := 1;
    } else {
      var n := |xs| - 1;
      var before := CommonDenominator(xs[..n]);
      var own: nat :| own > 0 && Grid(xs[n], own);
      denom := before * own;
      forall i | 0 <= i < n
        ensures Grid(xs[i], denom)
      {
        assert Grid(xs[..n][i], before);
        GridFiner(xs[i], before, own);
      }
      GridFiner(xs[n], own, before);
      assert own * before == before * own;
    }
  }

  /** The quotient of two multiples of the same unit is rational. */
  lemma RatioRational(x: real, y: real, denom: nat)
    requires denom > 0 && Grid(x, denom) && Grid(y, denom) && y > 0.0
    ensures Rational(x / y)
  {
    GridPositive(y, denom);
    var a, n: nat := Units(x, denom), Units(y, denom);
    Cancel(x, y, denom as real);
    assert (x / y) * n as real == a as real;
    IsGrid(x / y, n, a);
  }

  ghost function Units(x: real, denom: nat): (n: int)
    requires Grid(x, denom)
    ensures n as real == x * denom as real
  {
    (x * denom as real).Floor
  }

  lemma Cancel(x: real, y: real, d: real)
    requires y > 0.0
    ensures (x / y) * (y * d) == x * d
  {
    assert (x / y) * y == x;
    assert (x / y) * (y * d) == ((x / y) * y) * d;
  }
}
