/** Real-number helpers shared by the whole model: numpy's `pi`, float modulo by
    2*pi as Python computes it (floor semantics), and the guarded division the
    model uses where numpy would produce inf or nan. */
module Numerics {

  /** numpy's `pi` and `2 * pi`, as the doubles they are. */
  const PI: real := 3.141592653589793
  const TWO_PI: real := 6.283185307179586

  function Abs(x: real): real { if x < 0.0 then -x else x }

  /** Division; a zero divisor gives 0 (numpy gives inf or nan, which reals lack). */
  function Div(x: real, y: real): real { if y == 0.0 then 0.0 else x / y }

  /** Python's `x % (2 * pi)`: the remainder of floor division, in [0, 2*pi). */
  function Mod2Pi(x: real): (r: real)
    ensures 0.0 <= r < TWO_PI
  {
    x - (x / TWO_PI).Floor as real * TWO_PI
  }

  /** `M[M > pi] -= 2 * pi`: a mean anomaly moved into (-pi, pi] when it came from [0, 2*pi). */
  function WrapPi(m: real): (r: real)
    ensures m <= PI ==> r == m
    ensures m > PI ==> r == m - TWO_PI
    ensures 0.0 <= m < TWO_PI ==> -PI < r <= PI
  {
    if m > PI then m - TWO_PI else m
  }

  /** Adding whole turns does not change the reduced angle. */
  lemma {:induction false} Mod2PiShift(x: real, k: int)
    ensures Mod2Pi(x + k as real * TWO_PI) == Mod2Pi(x)
  {
    var y := x + k as real * TWO_PI;
    assert y / TWO_PI == x / TWO_PI + k as real;
    var f := (x / TWO_PI).Floor;
    assert (y / TWO_PI).Floor == f + k;
  }

  /** An angle already in [0, 2*pi) is its own reduction. */
  lemma Mod2PiOfReduced(x: real)
    requires 0.0 <= x < TWO_PI
    ensures Mod2Pi(x) == x
  {
    assert (x / TWO_PI).Floor == 0;
  }

  /** Reducing an operand first does not change the reduced sum. */
  lemma {:induction false} Mod2PiOfSum(x: real, y: real)
    ensures Mod2Pi(Mod2Pi(x) + y) == Mod2Pi(x + y)
  {
    var k := (x / TWO_PI).Floor;
    assert Mod2Pi(x) + y == (x + y) + (-k) as real * TWO_PI;
    Mod2PiShift(x + y, -k);
  }

  /** Adding an angle and then taking it away again recovers any angle in [0, 2*pi):
      the reduced sum and the reduced difference are inverse to each other. */
  lemma {:induction false} SumThenDifference(x: real, y: real)
    requires 0.0 <= x < TWO_PI
    ensures Mod2Pi(Mod2Pi(x + y) - y) == x
  {
    Mod2PiOfSum(x + y, -y);
    assert x + y + -y == x;
    Mod2PiOfReduced(x);
  }

  /** Taking an angle away and adding it back recovers any angle in [0, 2*pi). */
  lemma {:induction false} DifferenceThenSum(x: real, y: real)
    requires 0.0 <= x < TWO_PI
    ensures Mod2Pi(y + Mod2Pi(x - y)) == x
  {
    Mod2PiOfSum(x - y, y);
    assert Mod2Pi(x - y) + y == y + Mod2Pi(x - y);
    assert x - y + y == x;
    Mod2PiOfReduced(x);
  }
}
