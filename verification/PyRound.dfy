/** Python's `round(x, nd)` over exact reals: round half to even on a decimal grid. */
module PyRound {

  /** The integer nearest to `y`; a tie goes to the even neighbour. */
  function HalfEven(y: real): (r: int)
    ensures -0.5 <= r as real - y <= 0.5
  {
    var f := y.Floor;
    var d := y - f as real;
    if d < 0.5 then f
    else if d > 0.5 then f + 1
    else if f % 2 == 0 then f
    else f + 1
  }

  /** `round(x, nd)` where `scale` is 10^nd. */
  function Round(x: real, scale: real): real
    requires scale > 0.0
  {
    HalfEven(x * scale) as real / scale
  }

  lemma {:induction false} HalfEvenMonotone(x: real, y: real)
    requires x <= y
    ensures HalfEven(x) <= HalfEven(y)
  {
    if x.Floor != y.Floor {
      assert x.Floor + 1 <= y.Floor;
    }
  }

  lemma {:induction false} HalfEvenOdd(x: real)
    ensures HalfEven(-x) == -HalfEven(x)
  {
    var f := x.Floor;
    if x == f as real {
      assert (-x).Floor == -f;
    } else {
      assert (-x).Floor == -f - 1;
    }
  }

  lemma {:induction false} DivMonotone(x: real, y: real, s: real)
    requires s > 0.0 && x <= y
    ensures x / s <= y / s
  {
    assert y / s - x / s == (y - x) / s;
  }

  /** Rounding moves a value by at most half a grid step. */
  lemma {:induction false} RoundError(x: real, scale: real)
    requires scale > 0.0
    ensures -(0.5 / scale) <= Round(x, scale) - x <= 0.5 / scale
  {
    var y := x * scale;
    var n := HalfEven(y) as real;
    var e := n - y;
    assert Round(x, scale) == n / scale;
    assert y / scale == x;
    assert n / scale - y / scale == e / scale;
    DivMonotone(e, 0.5, scale);
    DivMonotone(-0.5, e, scale);
    assert (-0.5) / scale == -(0.5 / scale);
  }

  lemma {:induction false} RoundMonotone(x: real, y: real, scale: real)
    requires scale > 0.0 && x <= y
    ensures Round(x, scale) <= Round(y, scale)
  {
    assert y * scale - x * scale == (y - x) * scale;
    HalfEvenMonotone(x * scale, y * scale);
    DivMonotone(HalfEven(x * scale) as real, HalfEven(y * scale) as real, scale);
  }

  /** Half-even rounding has no preferred sign. */
  lemma {:induction false} RoundOdd(x: real, scale: real)
    requires scale > 0.0
    ensures Round(-x, scale) == -Round(x, scale)
  {
    assert -x * scale == -(x * scale);
    HalfEvenOdd(x * scale);
  }
}
