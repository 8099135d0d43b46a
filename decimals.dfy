/** `Math.Round(x, 2)` on `decimal`: to the nearest hundredth, ties to the even
    hundredth (banker's rounding, .NET's default midpoint rule). */
module Decimals {

  /** Nearest integer to `y`, ties to the even one. */
  function RoundHalfEven(y: real): (n: int)
    ensures y - 0.5 <= n as real <= y + 0.5
  {
    var f := y.Floor;
    var frac := y - f as real;
    if frac < 0.5 then f
    else if frac > 0.5 then f + 1
    else if f % 2 == 0 then f
    else f + 1
  }

  function Round2(x: real): (r: real)
    ensures x - 0.005 <= r <= x + 0.005
  {
    RoundHalfEven(x * 100.0) as real / 100.0
  }

  /** Banker's rounding is symmetric about zero. */
  lemma RoundHalfEvenOdd(y: real)
    ensures RoundHalfEven(-y) == -RoundHalfEven(y)
  {
    var f := y.Floor;
    var frac := y - f as real;
    if frac == 0.0 {
      assert (-y).Floor == -f;
    } else {
      assert (-y).Floor == -f - 1;
      assert -y - (-f - 1) as real == 1.0 - frac;
      if frac == 0.5 {
        assert (-f - 1) % 2 == 0 <==> f % 2 != 0;
      }
    }
  }

  lemma Round2Odd(x: real)
    ensures Round2(-x) == -Round2(x)
  {
    RoundHalfEvenOdd(x * 100.0);
    assert -x * 100.0 == -(x * 100.0);
  }

  /** Rounding keeps zero and keeps the sign of what it rounds. */
  lemma Round2Sign(x: real)
    ensures x == 0.0 ==> Round2(x) == 0.0
    ensures x >= 0.0 ==> Round2(x) >= 0.0
    ensures x <= 0.0 ==> Round2(x) <= 0.0
  {
    if x == 0.0 {
      assert (x * 100.0).Floor == 0;
    }
  }
}
