/**
 * The few JavaScript number operations the application relies on, written out
 * over exact integers and reals.
 */
module JsMath {

  function Min(a: real, b: real): (r: real)
    ensures r <= a && r <= b && (r == a || r == b)
  {
    if a <= b then a else b
  }

  function Max(a: real, b: real): (r: real)
    ensures r >= a && r >= b && (r == a || r == b)
  {
    if a >= b then a else b
  }

  /** `Math.round`: the nearest integer, halves rounded up (towards positive infinity). */
  function Round(x: real): (r: int)
    ensures r as real <= x + 0.5 < r as real + 1.0
  {
    (x + 0.5).Floor
  }

  /** `Math.trunc`: drops the fraction, towards zero. */
  function Trunc(x: real): (r: int)
    ensures x >= 0.0 ==> r as real <= x < r as real + 1.0
    ensures x < 0.0 ==> r as real - 1.0 < x <= r as real
  {
    if x >= 0.0 then x.Floor else -((-x).Floor)
  }

  /** The integer `%` of JavaScript: the remainder takes the sign of the dividend. */
  function JsRem(a: int, b: int): (r: int)
    requires b > 0
    ensures a >= 0 ==> 0 <= r < b && a == b * (a / b) + r
    ensures a < 0 ==> -b < r <= 0 && a == -(b * ((-a) / b)) + r
  {
    if a >= 0 then a % b else -((-a) % b)
  }

  lemma MulLeft(b: real, x: real, y: real)
    requires b > 0.0 && x <= y
    ensures b * x <= b * y
  {
    assert b * y - b * x == b * (y - x);
  }

  lemma MulLeftStrict(b: real, x: real, y: real)
    requires b > 0.0 && x < y
    ensures b * x < b * y
  {
    assert b * y - b * x == b * (y - x);
  }

  /** The real `%` of JavaScript (C's `fmod`): `a - b * trunc(a / b)`. */
  function JsRemReal(a: real, b: real): (r: real)
    requires b > 0.0
    ensures a >= 0.0 ==> 0.0 <= r < b
    ensures a < 0.0 ==> -b < r <= 0.0
  {
    RemRealBounds(a, b);
    a - b * Trunc(a / b) as real
  }

  lemma RemRealBounds(a: real, b: real)
    requires b > 0.0
    ensures var r := a - b * Trunc(a / b) as real;
      (a >= 0.0 ==> 0.0 <= r < b) && (a < 0.0 ==> -b < r <= 0.0)
  {
    var q := a / b;
    assert b * q == a;
    Bracket(a, b, q, Trunc(q) as real);
  }

  lemma Bracket(a: real, b: real, q: real, t: real)
    requires b > 0.0 && b * q == a
    requires a >= 0.0 ==> t <= q < t + 1.0
    requires a < 0.0 ==> t - 1.0 < q <= t
    ensures a >= 0.0 ==> 0.0 <= a - b * t < b
    ensures a < 0.0 ==> -b < a - b * t <= 0.0
  {
    if a >= 0.0 {
      MulLeft(b, t, q);
      MulLeftStrict(b, q, t + 1.0);
      calc {
        a;
        == b * q;
        < b * (t + 1.0);
        == b * t + b;
      }
    } else {
      MulLeftStrict(b, t - 1.0, q);
      MulLeft(b, q, t);
      calc {
        b * t - b;
        == b * (t - 1.0);
        < b * q;
        == a;
      }
    }
  }
}
