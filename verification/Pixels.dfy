/** The arithmetic of one pixel in uvc/main.c: 8-bit fixed point, an arithmetic right shift and a
    clamp, together with the ITU-T T.871 (JFIF) values it approximates. */
module Pixels {
  import opened Prelude

  /** `minmax` (uvc/main.c:220-222). */
  function MinMax(min: int, v: int, max: int): (r: int)
    ensures min <= max ==> min <= r <= max
    ensures min <= v <= max ==> r == v
  {
    if v < min then min else if max < v then max else v
  }

  /** `x >> 8` on a C int: an arithmetic shift, which rounds towards minus infinity. */
  function ShiftRight8(x: int): (r: int)
    ensures 256 * r <= x < 256 * r + 256
  {
    x / 256
  }

  /** The six conversions of uvc/main.c:233-238: channel c of a pixel with luma y and chroma (u, v).
      Green is the formula of the source, which is not the one of T.871. */
  function Convert(c: nat, y: byte, u: byte, v: byte): byte
    requires c < 3
  {
    var luma := y * 256;
    var du := u - 128;
    var dv := v - 128;
    MinMax(0,
           ShiftRight8(if c == 0 then luma + 359 * dv
                       else if c == 1 then luma + 88 * dv - 183 * du
                       else luma + 454 * du),
           255)
  }

  /** `minmax` picks the point of [min, max] nearest to v. */
  lemma MinMaxIsNearest(min: int, v: int, max: int, w: int)
    requires min <= w <= max
    ensures var r := MinMax(min, v, max);
            (if r < v then v - r else r - v) <= (if w < v then v - w else w - v)
  {
  }

  /** With neutral chroma every channel is the luma. */
  lemma NeutralChroma(c: nat, y: byte)
    requires c < 3
    ensures Convert(c, y, 128, 128) == y
  {
    assert ShiftRight8(y * 256) == y;
  }

  /** With the chroma fixed, every channel grows with the luma. */
  lemma ConvertMonotone(c: nat, y0: byte, y1: byte, u: byte, v: byte)
    requires c < 3 && y0 <= y1
    ensures Convert(c, y0, u, v) <= Convert(c, y1, u, v)
  {
  }

  // ----- Accuracy against section 7 of ITU-T T.871 -----

  function ClampReal(x: real): (r: real)
    ensures 0.0 <= r <= 255.0
  {
    if x < 0.0 then 0.0 else if 255.0 < x then 255.0 else x
  }

  /** Rounding to the nearest integer, halves upwards. */
  function Round(x: real): (n: int)
    ensures n as real - 0.5 <= x < n as real + 0.5
  {
    (x + 0.5).Floor
  }

  /** The unrounded red and blue of T.871. */
  function ExactRed(y: byte, v: byte): real {
    y as real + 1.402 * (v - 128) as real
  }

  function ExactBlue(y: byte, u: byte): real {
    y as real + 1.772 * (u - 128) as real
  }

  ghost predicate Within(n: int, exact: real, below: real, above: real) {
    exact - below < n as real <= exact + above
  }

  /** Clamping is monotone and never moves two values apart, so an error interval that contains
      zero survives it. */
  lemma ClampKeepsError(n: int, exact: real, below: real, above: real)
    requires below > 0.0 && above >= 0.0
    requires Within(n, exact, below, above)
    ensures Within(MinMax(0, n, 255), ClampReal(exact), below, above)
  {
  }

  /** The error before clamping: the coefficient error, at most slack, plus the loss of the shift,
      at least 0 and less than 1. */
  lemma ShiftError(y: byte, k: int, d: int, exact: real, slack: real)
    requires -slack <= k as real * d as real / 256.0 - (exact - y as real) <= slack
    ensures Within(ShiftRight8(y * 256 + k * d), exact, 1.0 + slack, slack)
  {
    var x := y * 256 + k * d;
    var n := ShiftRight8(x);
    assert (256 * n) as real <= x as real < (256 * n + 256) as real;
    assert x as real == y as real * 256.0 + k as real * d as real by {
      assert (k * d) as real == k as real * d as real;
    }
    assert n as real <= y as real + k as real * d as real / 256.0 < n as real + 1.0;
  }

  lemma RedShift(y: byte, v: byte)
    ensures Within(ShiftRight8(y * 256 + 359 * (v - 128)), ExactRed(y, v), 1.05, 0.05)
  {
    ShiftError(y, 359, v - 128, ExactRed(y, v), 0.045);
  }

  lemma BlueShift(y: byte, u: byte)
    ensures Within(ShiftRight8(y * 256 + 454 * (u - 128)), ExactBlue(y, u), 1.19, 0.19)
  {
    ShiftError(y, 454, u - 128, ExactBlue(y, u), 0.19);
  }

  /** Red is less than 1.05 below and at most 0.05 above the clamped exact value, blue less than
      1.19 below and at most 0.19 above. */
  lemma AccuracyT871(y: byte, u: byte, v: byte)
    ensures Within(Convert(0, y, u, v), ClampReal(ExactRed(y, v)), 1.05, 0.05)
    ensures Within(Convert(2, y, u, v), ClampReal(ExactBlue(y, u)), 1.19, 0.19)
  {
    RedShift(y, v);
    ClampKeepsError(ShiftRight8(y * 256 + 359 * (v - 128)), ExactRed(y, v), 1.05, 0.05);
    BlueShift(y, u);
    ClampKeepsError(ShiftRight8(y * 256 + 454 * (u - 128)), ExactBlue(y, u), 1.19, 0.19);
  }

  /** The green of the source without rounding. Its coefficients are not those of T.871. */
  function ExactGreen(y: byte, u: byte, v: byte): real {
    y as real + 0.34375 * (v - 128) as real - 0.71484375 * (u - 128) as real
  }

  /** Green is that value rounded down: less than 1 below and never above, after clamping. */
  lemma GreenRoundsDown(y: byte, u: byte, v: byte)
    ensures Within(Convert(1, y, u, v), ClampReal(ExactGreen(y, u, v)), 1.0, 0.0)
  {
    var x := y * 256 + 88 * (v - 128) - 183 * (u - 128);
    var n := ShiftRight8(x);
    assert x as real == 256.0 * ExactGreen(y, u, v);
    assert (256 * n) as real <= x as real < (256 * n + 256) as real;
    ClampKeepsError(n, ExactGreen(y, u, v), 1.0, 0.0);
  }

  /** The bytes T.871 prescribes: round first, then clamp. */
  function StandardRed(y: byte, v: byte): byte {
    MinMax(0, Round(ExactRed(y, v)), 255)
  }

  function StandardBlue(y: byte, u: byte): byte {
    MinMax(0, Round(ExactBlue(y, u)), 255)
  }

  /** The conversion truncates where T.871 rounds, so a red or blue byte is the prescribed one or
      exactly one less. */
  lemma OffByAtMostOne(y: byte, u: byte, v: byte)
    ensures StandardRed(y, v) - 1 <= Convert(0, y, u, v) <= StandardRed(y, v)
    ensures StandardBlue(y, u) - 1 <= Convert(2, y, u, v) <= StandardBlue(y, u)
  {
    RedShift(y, v);
    BlueShift(y, u);
  }

  /** When truncating and rounding y + d * num / 1000 give the same byte, where the code approximates
      num / 1000 by k / 256: both saturate at the same end, or what the shift drops is less than half a
      unit, corrected by the error of the coefficient. */
  predicate SameByte(y: byte, chroma: byte, k: int, num: int) {
    var d := chroma as int - 128;
    || 256 * y + k * d >= 65280
    || 1000 * y + num * d < 500
    || 1000 * ((k * d) % 256) < 128000 + (1000 * k - 256 * num) * d
  }

  /** Red is exactly the prescribed byte for these inputs and no others, and so is blue. */
  lemma StandardExactly(y: byte, u: byte, v: byte)
    ensures Convert(0, y, u, v) == StandardRed(y, v) <==> SameByte(y, v, 359, 1402)
    ensures Convert(2, y, u, v) == StandardBlue(y, u) <==> SameByte(y, u, 454, 1772)
  {
    OffByAtMostOne(y, u, v);
    RedShift(y, v);
    BlueShift(y, u);
    RoundScaled(ExactRed(y, v), 1000 * y + 1402 * (v - 128));
    RoundScaled(ExactBlue(y, u), 1000 * y + 1772 * (u - 128));
    ShiftAndRound(y, v - 128, 359, 1402, Round(ExactRed(y, v)));
    ShiftAndRound(y, u - 128, 454, 1772, Round(ExactBlue(y, u)));
  }

  lemma RoundScaled(exact: real, thousandfold: int)
    requires thousandfold as real == 1000.0 * exact
    ensures 1000 * Round(exact) - 500 <= thousandfold < 1000 * Round(exact) + 500
  {
    var r := Round(exact);
    assert (1000 * r - 500) as real == 1000.0 * (r as real - 0.5);
    assert (1000 * r + 500) as real == 1000.0 * (r as real + 0.5);
  }

  /** Before clamping: the truncated value n reaches the rounded value r. */
  lemma ShiftAndRound(y: byte, d: int, k: int, num: int, r: int)
    requires 1000 * r - 500 <= 1000 * y + num * d < 1000 * r + 500
    ensures var n := ShiftRight8(y * 256 + k * d);
            n >= r <==> 1000 * ((k * d) % 256) < 128000 + (1000 * k - 256 * num) * d
  {
    var n, p, q := ShiftRight8(y * 256 + k * d), k * d, num * d;
    assert (1000 * k - 256 * num) * d == 1000 * p - 256 * q;
    assert n == y + p / 256;
  }

  /** Both happen: this pixel falls one short in red and in blue. */
  lemma OffByOneHappens()
    ensures Convert(0, 0, 129, 132) == StandardRed(0, 132) - 1
    ensures Convert(2, 0, 129, 132) == StandardBlue(0, 129) - 1
  {
    assert ExactRed(0, 132) == 5.608 && Round(5.608) == 6;
    assert ExactBlue(0, 129) == 1.772 && Round(1.772) == 2;
  }
}
