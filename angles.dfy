/** Angle reduction as both thing encapsulators write it, over exact reals. The period is
    `2 * Math.PI`: the exact value of that double, which prints as 6.283185307179586. */
module Angles {
  import opened JsValues

  /** `2 * Math.PI` as JavaScript evaluates it: twice the double nearest pi (doubling is
      exact), written out in full. */
  const Turn: real := 6.28318530717958623199592693708837032318115234375

  /** `Math.trunc`: the whole part of `x`, rounded toward zero. */
  function Trunc(x: real): (t: int)
    ensures x >= 0.0 ==> t as real <= x < t as real + 1.0
    ensures x <= 0.0 ==> t as real - 1.0 < x <= t as real
  {
    if x >= 0.0 then x.Floor else -((-x).Floor)
  }

  /** `d` is a whole number of turns. */
  predicate Multiple(d: real)
  {
    IsWhole(d / Turn)
  }

  lemma WholeSum(x: real, y: real)
    requires IsWhole(x) && IsWhole(y)
    ensures IsWhole(x + y)
  {
    assert x + y == (x.Floor + y.Floor) as real;
  }

  lemma MultipleSum(x: real, y: real)
    requires Multiple(x) && Multiple(y)
    ensures Multiple(x + y)
  {
    WholeSum(x / Turn, y / Turn);
    assert (x + y) / Turn == x / Turn + y / Turn;
  }

  lemma MultipleNeg(x: real)
    requires Multiple(x)
    ensures Multiple(-x)
  {
    assert (-x) / Turn == (-(x / Turn).Floor) as real;
  }

  lemma MultipleTurn()
    ensures Multiple(Turn) && Multiple(-Turn) && Multiple(0.0)
  {
    assert Turn / Turn == 1.0 && (-Turn) / Turn == -1.0;
  }

  /** The only multiple strictly inside (-Turn, Turn) is 0. */
  lemma MultipleSmall(x: real)
    requires Multiple(x) && -Turn < x < Turn
    ensures x == 0.0
  {
    var k := (x / Turn).Floor;
    assert -1 < k < 1;
  }

  /** JavaScript's `a % (2 * Math.PI)`: the remainder of the division rounded toward zero.
      It keeps the sign of `a`, stays strictly inside (-Turn, Turn) and differs from `a`
      by a whole number of turns. */
  function TruncatedRemainder(a: real): (r: real)
    ensures -Turn < r < Turn
    ensures a >= 0.0 ==> r >= 0.0
    ensures a <= 0.0 ==> r <= 0.0
    ensures Multiple(a - r)
  {
    var t := Trunc(a / Turn);
    assert (a - (a - Turn * t as real)) / Turn == t as real;
    a - Turn * t as real
  }

  /** The angle of a Box2D thing (src/makeWorld.js): `a % Turn`, then `(a + Turn) % Turn`.
      The result lies in [0, Turn) and differs from `a` by a whole number of turns. */
  function NormalizedAngle(a: real): (r: real)
    ensures 0.0 <= r < Turn
    ensures Multiple(a - r)
  {
    var r1 := TruncatedRemainder(a);
    var r := TruncatedRemainder(r1 + Turn);
    MultipleTurn();
    MultipleSum(a - r1, r1 + Turn - r);
    MultipleSum(a - r1 + (r1 + Turn - r), -Turn);
    assert a - r1 + (r1 + Turn - r) + -Turn == a - r;
    r
  }

  /** Any value in [0, Turn) that differs from `a` by whole turns is the normalized angle,
      so the normalization is the canonical representative of `a` modulo a turn. */
  lemma NormalizedAngleUnique(a: real, r: real)
    requires 0.0 <= r < Turn && Multiple(a - r)
    ensures r == NormalizedAngle(a)
  {
    var n := NormalizedAngle(a);
    MultipleNeg(a - n);
    MultipleSum(a - r, -(a - n));
    assert a - r + -(a - n) == n - r;
    MultipleSmall(n - r);
  }

  /** Normalizing twice changes nothing. */
  lemma NormalizedAngleIdempotent(a: real)
    ensures NormalizedAngle(NormalizedAngle(a)) == NormalizedAngle(a)
  {
    var n := NormalizedAngle(a);
    MultipleTurn();
    NormalizedAngleUnique(n, n);
  }

  /** Adding a full turn does not change the normalized angle. */
  lemma NormalizedAnglePeriodic(a: real)
    ensures NormalizedAngle(a + Turn) == NormalizedAngle(a)
  {
    var n := NormalizedAngle(a);
    MultipleTurn();
    MultipleSum(a - n, Turn);
    assert a - n + Turn == a + Turn - n;
    NormalizedAngleUnique(a + Turn, n);
  }

  /** The p2 encapsulator's plain `a % Turn` leaves a negative angle in (-Turn, 0) as it
      is, whereas the Box2D normalization moves it up by one turn into [0, Turn). */
  lemma NegativeAngleReductions(a: real)
    requires -Turn < a < 0.0
    ensures TruncatedRemainder(a) == a
    ensures NormalizedAngle(a) == a + Turn
  {
    var r := TruncatedRemainder(a);
    MultipleSmall(a - r);
    MultipleTurn();
    assert a - (a + Turn) == -Turn;
    NormalizedAngleUnique(a, a + Turn);
  }
}
