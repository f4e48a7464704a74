/**
 * Python's built-in `round(x, n)` on exact rational scores: `x` is taken to the
 * nearest multiple of `1 / scale` (with `scale == 10^n`), a tie going to the even
 * multiple.
 */
module Rounding {

  /** The integer nearest to `y`; a tie goes to the even neighbour. */
  function NearestEven(y: real): (k: int)
    ensures -0.5 <= k as real - y <= 0.5
  {
    var f := y.Floor;
    var frac := y - f as real;
    if frac > 0.5 then f + 1
    else if frac < 0.5 then f
    else if f % 2 == 0 then f
    else f + 1
  }

  /** Rounding to integers never reverses the order of two values. */
  lemma NearestEvenMonotone(x: real, y: real)
    requires x <= y
    ensures NearestEven(x) <= NearestEven(y)
  {
    var fx, fy := x.Floor, y.Floor;
    assert fx <= fy;
    if fx == fy {
      assert x - fx as real <= y - fy as real;
    } else {
      assert NearestEven(x) <= fx + 1 <= fy <= NearestEven(y);
    }
  }

  /** An integer is left as it is. */
  lemma NearestEvenOfInt(k: int)
    ensures NearestEven(k as real) == k
  {
    assert (k as real).Floor == k;
  }

  /**
   * `round(x, n)` where `scale == 10^n`: scaled back up, the result is the
   * integer nearest to `x * scale`, so it is a whole multiple of `1 / scale`.
   */
  function RoundTo(x: real, scale: nat): (r: real)
    requires scale > 0
    ensures r * (scale as real) == NearestEven(x * (scale as real)) as real
    ensures (r * (scale as real)).Floor as real == r * (scale as real)
  {
    (NearestEven(x * (scale as real)) as real) / (scale as real)
  }

  /** `round(x, 3)`: a multiple of 0.001 within half of it from `x`. */
  function Round3(x: real): (r: real)
    ensures (r * 1000.0).Floor as real == r * 1000.0
    ensures -0.0005 <= r - x <= 0.0005
  {
    RoundClose(x, 1000);
    RoundTo(x, 1000)
  }

  /** `round(x, 2)`: a multiple of 0.01 within half of it from `x`. */
  function Round2(x: real): (r: real)
    ensures (r * 100.0).Floor as real == r * 100.0
    ensures -0.005 <= r - x <= 0.005
  {
    RoundClose(x, 100);
    RoundTo(x, 100)
  }

  lemma RoundToUnfold(x: real, scale: nat)
    requires scale > 0
    ensures RoundTo(x, scale) == (NearestEven(x * (scale as real)) as real) / (scale as real)
  {
  }

  lemma ScaleMonotone(x: real, y: real, s: real)
    requires x <= y && s > 0.0
    ensures x * s <= y * s
  {
    assert y * s - x * s == (y - x) * s;
  }

  lemma DivideMonotone(a: real, b: real, s: real)
    requires a <= b && s > 0.0
    ensures a / s <= b / s
  {
  }

  /** `round(x, n)` is monotone: a larger score never rounds below a smaller one. */
  lemma RoundMonotone(x: real, y: real, scale: nat)
    requires scale > 0 && x <= y
    ensures RoundTo(x, scale) <= RoundTo(y, scale)
  {
    ScaleMonotone(x, y, scale as real);
    NearestEvenMonotone(x * (scale as real), y * (scale as real));
    DivideMonotone(NearestEven(x * (scale as real)) as real, NearestEven(y * (scale as real)) as real, scale as real);
    RoundToUnfold(x, scale);
    RoundToUnfold(y, scale);
  }

  /** A value that already has `n` decimals (`q == k / 10^n`) is left unchanged by `round(q, n)`. */
  lemma RoundExact(q: real, k: int, scale: nat)
    requires scale > 0 && q * (scale as real) == k as real
    ensures RoundTo(q, scale) == q
  {
    RoundToUnfold(q, scale);
    NearestEvenOfInt(k);
  }

  /** The result of `round(x, n)` is within half a unit of the last place from `x`. */
  lemma RoundClose(x: real, scale: nat)
    requires scale > 0
    ensures -0.5 / (scale as real) <= RoundTo(x, scale) - x <= 0.5 / (scale as real)
  {
    var d := NearestEven(x * (scale as real)) as real - x * (scale as real);
    assert -0.5 <= d <= 0.5;
    assert RoundTo(x, scale) - x == d / (scale as real);
    DivideMonotone(-0.5, d, scale as real);
    DivideMonotone(d, 0.5, scale as real);
  }

  /** A score in [0, 1] stays in [0, 1] after rounding, and the ends are kept exactly. */
  lemma RoundUnitInterval(x: real, scale: nat)
    requires scale > 0 && 0.0 <= x <= 1.0
    ensures 0.0 <= RoundTo(x, scale) <= 1.0
  {
    RoundExact(0.0, 0, scale);
    RoundExact(1.0, scale, scale);
    RoundMonotone(0.0, x, scale);
    RoundMonotone(x, 1.0, scale);
  }
}
