/** How much the trust score moves the gate, and the win counts at which it does. */
module TrustCounts {
  import opened PyRound
  import opened Reals
  import opened TrustGate
  import opened TrustGateProofs

  // ----- the gate as a function of the score

  /** The threshold for a trust score, with the settings the pipeline uses. */
  function Bar(threshold: real, trust: real): real {
    EffectiveThreshold(threshold, trust, SENSITIVITY, MIN_THRESHOLD, MAX_THRESHOLD)
  }

  /** More trust strictly lowers the bar, unless both scores hit the same clamp, 0.4 or 0.9; between the clamps by 0.3
      for each unit of trust. */
  lemma {:induction false} TrustLowersTheBar(threshold: real, x: real, y: real)
    requires x < y
    ensures Bar(threshold, y) < Bar(threshold, x)
         || Bar(threshold, x) == Bar(threshold, y) == 0.4 || Bar(threshold, x) == Bar(threshold, y) == 0.9
    ensures 0.4 < Bar(threshold, x) < 0.9 && 0.4 < Bar(threshold, y) < 0.9 ==>
      Bar(threshold, x) - Bar(threshold, y) == 0.3 * (y - x)
    ensures 0.4 <= threshold <= 0.9 ==> Bar(threshold, 0.5) == threshold
  {
  }

  /** A threshold configured inside the clamps is lowered exactly by scores above 0.5, raised by those below. */
  lemma {:induction false} GateFollowsTheScore(threshold: real, wins: int, n: int, s: real)
    requires 0.4 < threshold < 0.9 && Roots(wins, n, s)
    ensures Gate(threshold, wins, n, s) < threshold <==> TrustScore(wins, n, 20, s) > 0.5
    ensures Gate(threshold, wins, n, s) > threshold <==> TrustScore(wins, n, 20, s) < 0.5
  {
    hide TrustScore, Roots;
  }

  // ----- when the bound exceeds a level

  lemma {:induction false} SquareAtMost(d: real, v: real)
    requires 0.0 <= d <= v
    ensures d * d <= d * v
  {
    assert d * v - d * d == d * (v - d);
  }

  lemma {:induction false} FactorOrder(x: real, y: real, w: real)
    requires w > 0.0
    ensures x * w <= y * w ==> x <= y
  {
    if x > y {
      assert (x - y) * w > 0.0;
      assert (x - y) * w == x * w - y * w;
    }
  }

  /** A rate that keeps its distance from the level is above it exactly when the bound's centre is. */
  lemma {:induction false} AboveTheLevel(p: real, c: real, x: real)
    requires x < p <= 1.0 && 0.0 < x < 1.0 && c > 0.0 && (p - x) * (p - x) >= c * x * (1.0 - x)
    ensures p + c / 2.0 - (x + c * x) > 0.0
  {
    SquareAtMost(p - x, 1.0 - x);
    FactorOrder(c * x, p - x, 1.0 - x);
  }

  lemma {:induction false} BelowTheLevel(p: real, c: real, x: real)
    requires 0.0 <= p <= x < 1.0 && 0.0 < x && c > 0.0 && (x - p) * (x - p) >= (c - c * x) * x
    ensures p + c / 2.0 - (x + c * x) < 0.0
  {
    var d, e := x - p, c - c * x;
    SquareAtMost(d, x);
    assert e * x <= d * x;
    FactorOrder(e, d, x);
    assert e <= d;
  }

  lemma {:induction false} SideOfTheLevel(p: real, c: real, x: real)
    requires 0.0 <= p <= 1.0 && 0.0 < x < 1.0 && c > 0.0
    requires Square(p - x) >= Product(c, Variance(x))
    ensures p + c / 2.0 - Product(x, 1.0 + c) > 0.0 <==> p > x
  {
    assert Product(x, 1.0 + c) == x + c * x;
    if p > x {
      assert c * (x * (1.0 - x)) == c * x * (1.0 - x);
      AboveTheLevel(p, c, x);
    } else {
      assert c * (x * (1.0 - x)) == (c - c * x) * x;
      assert (p - x) * (p - x) == (x - p) * (x - p);
      BelowTheLevel(p, c, x);
    }
  }

  /** The bound against a level is the centre's distance against the margin. */
  lemma {:induction false} LowerAgainst(p: real, c: real, m: real, x: real)
    requires c > 0.0
    ensures Lower(p, c, m) > x <==> p + c / 2.0 - Product(x, 1.0 + c) > m
    ensures Lower(p, c, m) >= x <==> p + c / 2.0 - Product(x, 1.0 + c) >= m
  {
    var l := Lower(p, c, m);
    Quotient(p + c / 2.0 - m, 1.0 + c);
    hide Product, Lower;
    ProductLess(x, l, 1.0 + c);
    ProductLess(l, x, 1.0 + c);
  }

  lemma {:induction false} SquareIsEven(x: real)
    ensures Square(-x) == Square(x)
  {
  }

  /** The centre's distance against the margin is their squares, and those differ as the rate's distance and the level's
      own margin do. */
  lemma {:induction false} DistanceAgainst(p: real, c: real, m: real, x: real)
    requires c > 0.0 && IsMargin(p, c, m) && p + c / 2.0 - Product(x, 1.0 + c) >= 0.0
    ensures p + c / 2.0 - Product(x, 1.0 + c) > m <==> Square(p - x) > Product(c, Variance(x))
    ensures p + c / 2.0 - Product(x, 1.0 + c) >= m <==> Square(p - x) >= Product(c, Variance(x))
  {
    var y, gap := p + c / 2.0 - Product(x, 1.0 + c), Square(p - x) - Product(c, Variance(x));
    SquareGap(p, c, m, x);
    assert Product(0.0, 1.0 + c) == 0.0;
    hide Square, Product, Variance;
    SquareIsEven(y);
    assert Product(x, 1.0 + c) - (p + c / 2.0) == -y;
    ProductLess(0.0, gap, 1.0 + c);
    ProductLess(gap, 0.0, 1.0 + c);
    SquaresOrder(m, y);
    SquaresOrder(y, m);
  }

  lemma {:induction false} MarginIsPositive(p: real, c: real, m: real)
    requires 0.0 <= p <= 1.0 && c > 0.0 && IsMargin(p, c, m)
    ensures m > 0.0
  {
    ProductSign(p, 1.0 - p);
    assert Variance(p) == Product(p, 1.0 - p);
    ProductSign(c, Variance(p));
    ProductSign(c, c);
  }

  /** The bound exceeds a level exactly when the rate does by more than the level's own margin. */
  lemma {:induction false} LowerClears(p: real, c: real, m: real, x: real)
    requires 0.0 <= p <= 1.0 && 0.0 < x < 1.0 && c > 0.0 && IsMargin(p, c, m)
    ensures Lower(p, c, m) > x <==> p > x && Square(p - x) > Product(c, Variance(x))
    ensures Lower(p, c, m) >= x <==> p > x && Square(p - x) >= Product(c, Variance(x))
  {
    var y := p + c / 2.0 - Product(x, 1.0 + c);
    LowerAgainst(p, c, m, x);
    MarginIsPositive(p, c, m);
    var wide := Square(p - x) >= Product(c, Variance(x));
    hide Square, Product, Variance, Lower, IsMargin;
    if wide {
      SideOfTheLevel(p, c, x);
      assert y > 0.0 <==> p > x;
    }
    if y >= 0.0 {
      DistanceAgainst(p, c, m, x);
    } else {
      assert wide ==> p <= x;
    }
  }

  // ----- in counts

  /** `wins` exceed their share `x` of `n` trades by more than the level's own margin. */
  predicate Clears(wins: int, n: int, x: real) {
    wins as real > x * n as real && Square(wins as real - x * n as real) > Z * Z * n as real * (x * (1.0 - x))
  }

  predicate Reaches(wins: int, n: int, x: real) {
    wins as real > x * n as real && Square(wins as real - x * n as real) >= Z * Z * n as real * (x * (1.0 - x))
  }

  lemma {:induction false} ScaleDistance(p: real, n: real, x: real)
    ensures Product(Square(p - x), n * n) == Square(Product(p, n) - x * n)
  {
  }

  lemma {:induction false} ScaleMargin(c: real, n: real, v: real)
    ensures Product(Product(c, v), n * n) == Product(c, n) * n * v
  {
  }

  lemma {:induction false} CountsClear(wins: int, n: int, x: real)
    requires n > 0 && 0.0 < x < 1.0
    ensures var p, c := Rate(wins, n), Z * Z / n as real;
      && (Clears(wins, n, x) <==> p > x && Square(p - x) > Product(c, Variance(x)))
      && (Reaches(wins, n, x) <==> p > x && Square(p - x) >= Product(c, Variance(x)))
  {
    var k := n as real;
    var p, c := Rate(wins, n), Z * Z / k;
    Quotient(wins as real, k);
    Quotient(Z * Z, k);
    ProductLess(x, p, k);
    ScaleDistance(p, k, x);
    ScaleMargin(c, k, Variance(x));
    assert Product(x, k) == x * k;
    assert Variance(x) == x * (1.0 - x);
    var a, b := Square(p - x), Product(c, Variance(x));
    hide Square, Product, Variance;
    ProductLess(a, b, k * k);
    ProductLess(b, a, k * k);
  }

  /** The Wilson bound against a level, in counts, without its root. */
  lemma {:induction false} WilsonClears(wins: int, n: int, s: real, x: real)
    requires 0 <= wins <= n && n > 0 && Roots(wins, n, s) && 0.0 < x < 1.0
    ensures Wilson(wins, n, s) > x <==> Clears(wins, n, x)
    ensures Wilson(wins, n, s) >= x <==> Reaches(wins, n, x)
  {
    hide Roots, Bound, Lower, IsMargin, Rate, Wilson, Clears, Reaches;
    WilsonBelowRate(wins, n, s);
    BoundIsLower(wins, n, s);
    RateOrder(wins, wins, n);
    LowerClears(Rate(wins, n), Z * Z / n as real, Z * s, x);
    CountsClear(wins, n, x);
  }

  // ----- rounding and sample weight

  /** How far from 0.5 the bound must be to show after the rounding to three digits, for the weight of `n` trades. */
  function Shows(n: int): real
    requires n > 0
  {
    if n >= 20 then 0.0005 else 0.01 / n as real
  }

  lemma {:induction false} RoundsAwayFromHalf(b: real)
    ensures Round(b, 1000.0) > 0.5 <==> b > 0.5005
    ensures Round(b, 1000.0) < 0.5 <==> b < 0.4995
  {
    var r := HalfEven(b * 1000.0);
    assert Round(b, 1000.0) == r as real / 1000.0;
    assert Round(b, 1000.0) > 0.5 <==> r > 500;
    assert Round(b, 1000.0) < 0.5 <==> r < 500;
  }

  lemma {:induction false} WeightIs(n: int)
    requires n > 0
    ensures Weight(n, 20) > 0.0 && Product(Shows(n), Weight(n, 20)) == 0.0005
    ensures 0.0 < Shows(n) <= 0.01
  {
    var k := n as real;
    if n < 20 {
      var x, w := 0.01 / k, k / 20.0;
      assert x * k == 0.01 && w * 20.0 == k;
      assert x * w * 20.0 == x * k;
      FactorOrder(x, 0.01, k);
      assert x > 0.0;
    } else {
      assert k / 20.0 >= 1.0;
    }
  }

  lemma {:induction false} ScoreAgainstHalf(wins: int, n: int, s: real)
    requires n > 0 && Roots(wins, n, s)
    ensures TrustScore(wins, n, 20, s) > 0.5 <==> Wilson(wins, n, s) > 0.5 + Shows(n)
    ensures TrustScore(wins, n, 20, s) < 0.5 <==> Wilson(wins, n, s) < 0.5 - Shows(n)
  {
    var w, l := Weight(n, 20), Wilson(wins, n, s);
    WeightIs(n);
    RoundsAwayFromHalf(Blended(w, l));
    assert Blended(w, l) == 0.5 + Product(l - 0.5, w);
    hide Roots, Wilson, Weight, Round, Shows;
    ProductLess(Shows(n), l - 0.5, w);
    ProductLess(l - 0.5, -Shows(n), w);
    assert Product(-Shows(n), w) == -Product(Shows(n), w);
  }

  /** End to end, for any number of trades and with the rounding: a threshold configured inside the clamps is lowered
      exactly when the wins clear a little more than half, and raised exactly when they do not reach a little less. */
  lemma {:induction false} WinsMoveTheGateIff(threshold: real, wins: int, n: int, s: real)
    requires 0.4 < threshold < 0.9 && 0 <= wins <= n && n > 0 && Roots(wins, n, s)
    ensures Gate(threshold, wins, n, s) < threshold <==> Clears(wins, n, 0.5 + Shows(n))
    ensures Gate(threshold, wins, n, s) > threshold <==> !Reaches(wins, n, 0.5 - Shows(n))
  {
    hide Roots, Wilson, Weight, Round, Shows, TrustScore, Gate, Clears, Reaches;
    GateFollowsTheScore(threshold, wins, n, s);
    ScoreAgainstHalf(wins, n, s);
    WeightIs(n);
    WilsonClears(wins, n, s, 0.5 + Shows(n));
    WilsonClears(wins, n, s, 0.5 - Shows(n));
  }

  /** Twenty wins in twenty trades earn a score of 0.839 and lower a threshold of 0.6 to 0.4983. */
  lemma {:induction false} SpotlessTwenty(s: real)
    requires Roots(20, 20, s)
    ensures TrustScore(20, 20, 20, s) == 0.839 && Gate(0.6, 20, 20, s) == 0.4983
  {
    SpotlessRecord(20, s);
    assert Weight(20, 20) == 1.0;
    var l := 20.0 / (20.0 + 1.96 * 1.96);
    assert 0.8385 < l < 0.8395;
    assert HalfEven(l * 1000.0) == 839;
    assert Blended(1.0, l) == l;
    hide Roots, Wilson;
  }
}
