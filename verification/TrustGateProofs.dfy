/** What the confidence gate guarantees about win counts. */
module TrustGateProofs {
  import opened PyRound
  import opened Reals
  import opened TrustGate

  lemma {:induction false} RateOrder(v: int, w: int, n: int)
    requires 0 <= v <= w <= n && n > 0
    ensures 0.0 <= Rate(v, n) <= Rate(w, n) <= 1.0
    ensures v < w ==> Rate(v, n) < Rate(w, n)
  {
    DivMonotone(0.0, v as real, n as real);
    DivMonotone(v as real, w as real, n as real);
    DivMonotone(w as real, n as real, n as real);
    if v < w {
      QuotientOrder(v as real, w as real, n as real);
    }
  }

  /** The bound lies between 0 and the win rate, so neither clamp acts. */
  lemma {:induction false} WilsonBelowRate(wins: int, n: int, s: real)
    requires 0 <= wins <= n && n > 0 && Roots(wins, n, s)
    ensures 0.0 <= Wilson(wins, n, s) <= Rate(wins, n) && Wilson(wins, n, s) == Bound(wins, n, s)
  {
    hide Roots, Bound, Lower, IsMargin, Rate;
    BoundIsLower(wins, n, s);
    RateOrder(wins, wins, n);
    LowerIsBelowRate(Rate(wins, n), Z * Z / n as real, Z * s);
  }

  /** With the number of trades fixed, one more win strictly raises the bound. */
  lemma {:induction false} WilsonIncreases(v: int, w: int, n: int, s: real, t: real)
    requires 0 <= v <= n && 0 <= w <= n && n > 0 && Roots(v, n, s) && Roots(w, n, t)
    ensures v < w <==> Wilson(v, n, s) < Wilson(w, n, t)
  {
    hide Roots, Wilson;
    if v < w {
      WilsonLess(v, w, n, s, t);
    } else if w < v {
      WilsonLess(w, v, n, t, s);
    } else {
      RootIsUnique(v, n, s, t);
    }
  }

  lemma {:induction false} WilsonLess(v: int, w: int, n: int, s: real, t: real)
    requires 0 <= v < w <= n && Roots(v, n, s) && Roots(w, n, t)
    ensures Wilson(v, n, s) < Wilson(w, n, t)
  {
    hide Roots, Bound, Lower, IsMargin, Rate, Wilson;
    WilsonBelowRate(v, n, s);
    WilsonBelowRate(w, n, t);
    BoundIsLower(v, n, s);
    BoundIsLower(w, n, t);
    RateOrder(v, w, n);
    LowerIncreases(Rate(v, n), Rate(w, n), Z * Z / n as real, Z * s, Z * t);
  }

  /** The witness is the square root: there is only one. */
  lemma {:induction false} RootIsUnique(wins: int, n: int, s: real, t: real)
    requires n > 0 && Roots(wins, n, s) && Roots(wins, n, t)
    ensures s == t
  {
    assert Square(s) == Square(t);
    hide Square;
    SquaresOrder(s, t);
    SquaresOrder(t, s);
  }

  /** The bound is the lower end point of the Wilson score interval, whose equation needs no square root. */
  lemma {:induction false} WilsonIsLowerEndPoint(wins: int, n: int, s: real, x: real)
    requires 0 <= wins <= n && n > 0 && Roots(wins, n, s)
    ensures EndPoint(Rate(wins, n), Z * Z / n as real, Wilson(wins, n, s))
    ensures EndPoint(Rate(wins, n), Z * Z / n as real, x) ==> Wilson(wins, n, s) <= x
  {
    hide Roots, Bound, Lower, IsMargin, Rate, EndPoint, Wilson;
    WilsonBelowRate(wins, n, s);
    BoundIsLower(wins, n, s);
    LowerIsEndPoint(Rate(wins, n), Z * Z / n as real, Z * s, x);
  }

  /** Wins exceed losses by more than z times the root of n. */
  predicate BeatsEven(wins: int, n: int) {
    2 * wins > n && Square((2 * wins - n) as real) > Z * Z * n as real
  }

  /** The bound says better than even exactly when wins exceed losses by more than z times the root of n. */
  lemma {:induction false} BetterThanEvenIff(wins: int, n: int, s: real)
    requires 0 <= wins <= n && n > 0 && Roots(wins, n, s)
    ensures Wilson(wins, n, s) > 0.5 <==> BeatsEven(wins, n)
  {
    WilsonBelowRate(wins, n, s);
    BoundIsLower(wins, n, s);
    LowerClearsHalf(Rate(wins, n), Z * Z / n as real, Z * s);
    hide Roots, Bound, Lower, IsMargin, Wilson;
    ScaleUp(wins as real, n as real);
  }

  lemma {:induction false} ScaleUp(w: real, n: real)
    requires n > 0.0
    ensures w / n > 0.5 <==> 2.0 * w > n
    ensures Square(w / n - 0.5) > Z * Z / n / 4.0 <==> Square(2.0 * w - n) > Z * Z * n
  {
    var p, c := w / n, Z * Z / n;
    Quotient(w, n);
    Quotient(Z * Z, n);
    ProductLess(0.5, p, n);
    ScaledSquare(p, n);
    ScaledConstant(c, n);
    ProductLess(c, 4.0 * Square(p - 0.5), n * n);
    hide Square;
  }

  lemma {:induction false} ScaledSquare(p: real, n: real)
    ensures Product(4.0 * Square(p - 0.5), n * n) == Square(2.0 * Product(p, n) - n)
  {
  }

  lemma {:induction false} ScaledConstant(c: real, n: real)
    ensures Product(c, n * n) == Product(Product(c, n), n)
  {
  }

  // ----- the sample size

  /** Two samples with the same win rate: `v` wins in `n` trades and `w` wins in the larger number `large`. */
  ghost predicate SameRate(v: int, n: int, w: int, large: int) {
    0 < v <= n < large && 0 < w <= large && v * large == w * n
  }

  lemma {:induction false} SameRateMeansSame(v: int, n: int, w: int, large: int)
    requires SameRate(v, n, w, large)
    ensures Rate(v, n) == Rate(w, large) && 0.0 < Rate(v, n) <= 1.0
  {
    RateOrder(v, v, n);
    var p, q := Rate(v, n), Rate(w, large);
    var x, y := n as real, large as real;
    assert p * x == v as real && q * y == w as real;
    assert v as real * y == w as real * x;
    assert p * (x * y) == v as real * y && q * (x * y) == w as real * x;
    EqualFactors(p, q, x * y);
    QuotientOrder(0.0, v as real, x);
  }

  lemma {:induction false} EqualFactors(p: real, q: real, d: real)
    requires p * d == q * d && d != 0.0
    ensures p == q
  {
    assert (p - q) * d == 0.0;
  }

  lemma {:induction false} MoreTradesLessDoubt(n: int, large: int)
    requires 0 < n < large
    ensures 0.0 < Z * Z / large as real < Z * Z / n as real
  {
    var c, d := Z * Z / large as real, Z * Z / n as real;
    Quotient(Z * Z, large as real);
    Quotient(Z * Z, n as real);
    Halves(large as real);
    ProductSign(c, (large - n) as real);
    assert Product(c, large as real) == Product(c, n as real) + Product(c, (large - n) as real);
    hide Product;
    ProductLess(c, d, n as real);
  }

  /** At the same positive win rate the bound of the smaller sample is strictly lower. */
  lemma {:induction false} WilsonFallsWithSample(v: int, n: int, w: int, large: int, s: real, t: real)
    requires SameRate(v, n, w, large) && Roots(v, n, s) && Roots(w, large, t)
    ensures Wilson(v, n, s) < Wilson(w, large, t)
  {
    SameRateMeansSame(v, n, w, large);
    WilsonBelowRate(v, n, s);
    WilsonBelowRate(w, large, t);
    BoundIsLower(v, n, s);
    BoundIsLower(w, large, t);
    MoreTradesLessDoubt(n, large);
    hide Roots, Bound, Lower, IsMargin, Rate, Wilson;
    LowerFallsWithSample(Rate(w, large), Z * Z / large as real, Z * t, Z * Z / n as real, Z * s);
  }

  /** What decides, from the counts alone, whether the smaller sample is nearer to 0.5; see `LeadOutweighs`. */
  predicate PullsTowardsHalf(v: int, n: int, large: int)
    requires n > 0 && large > 0
  {
    LeadOutweighs(Rate(v, n), Z * Z / n as real, Z * Z / large as real)
  }

  /** Shrinking the sample pulls the bound towards 0.5 exactly when the counts say so: always when the smaller sample is
      still better than even, never when the larger one is not. */
  lemma {:induction false} PulledTowardsHalfIff(v: int, n: int, w: int, large: int, s: real, t: real)
    requires SameRate(v, n, w, large) && Roots(v, n, s) && Roots(w, large, t)
    ensures Abs(Wilson(v, n, s) - 0.5) < Abs(Wilson(w, large, t) - 0.5) <==> PullsTowardsHalf(v, n, large)
    ensures BeatsEven(v, n) ==> PullsTowardsHalf(v, n, large)
    ensures !BeatsEven(w, large) ==> Abs(Wilson(v, n, s) - 0.5) > Abs(Wilson(w, large, t) - 0.5)
  {
    WilsonFallsWithSample(v, n, w, large, s, t);
    BetterThanEvenIff(v, n, s);
    BetterThanEvenIff(w, large, t);
    hide Roots, Wilson, BeatsEven, LeadOutweighs;
    NearerToHalfIff(Wilson(v, n, s), Wilson(w, large, t));
    SumFromCounts(v, n, w, large, s, t);
  }

  lemma {:induction false} SumFromCounts(v: int, n: int, w: int, large: int, s: real, t: real)
    requires SameRate(v, n, w, large) && Roots(v, n, s) && Roots(w, large, t)
    ensures Wilson(v, n, s) + Wilson(w, large, t) > 1.0 <==> PullsTowardsHalf(v, n, large)
  {
    hide Roots, Bound, Lower, IsMargin, Rate, Wilson, LeadOutweighs;
    SameRateMeansSame(v, n, w, large);
    WilsonBelowRate(v, n, s);
    WilsonBelowRate(w, large, t);
    BoundIsLower(v, n, s);
    BoundIsLower(w, large, t);
    SumOverOneIff(Rate(v, n), Z * Z / n as real, Z * s, Z * Z / large as real, Z * t);
  }

  /** A case that neither corollary decides: 7 of 10 does not beat even, 70 of 100 does, and the smaller is nearer. With
      the rate at 0.6, 6 of 10 is farther than 60 of 100. */
  lemma {:induction false} BetweenTheCorollaries()
    ensures !BeatsEven(7, 10) && BeatsEven(70, 100) && PullsTowardsHalf(7, 10, 100)
    ensures !BeatsEven(6, 10) && BeatsEven(60, 100) && !PullsTowardsHalf(6, 10, 100)
  {
  }

  /** Six wins in eight trades and three in four: the smaller sample is farther from 0.5, not nearer. With forty and
      twenty spotless trades it is nearer. */
  lemma {:induction false} PulledAwayFromHalf(s: real, t: real, u: real, x: real)
    requires Roots(3, 4, s) && Roots(6, 8, t) && Roots(20, 20, u) && Roots(40, 40, x)
    ensures Abs(Wilson(3, 4, s) - 0.5) > Abs(Wilson(6, 8, t) - 0.5)
    ensures Abs(Wilson(20, 20, u) - 0.5) < Abs(Wilson(40, 40, x) - 0.5)
  {
    hide Roots, Wilson;
    PulledTowardsHalfIff(3, 4, 6, 8, s, t);
    PulledTowardsHalfIff(20, 20, 40, 40, u, x);
  }

  /** A spotless record of n trades is worth n/(n + z*z), which is below 0.5 for n up to 3. */
  lemma {:induction false} SpotlessRecord(n: int, s: real)
    requires n > 0 && Roots(n, n, s)
    ensures Wilson(n, n, s) == n as real / (n as real + Z * Z)
  {
    var k := n as real;
    var c, x := Z * Z / k, k / (k + Z * Z);
    WilsonBelowRate(n, n, s);
    BoundIsLower(n, n, s);
    var m := Z * s;
    assert Rate(n, n) == 1.0;
    assert Square(m) == Square(c / 2.0);
    SquaresOrder(m, c / 2.0);
    SquaresOrder(c / 2.0, m);
    assert Lower(1.0, c, m) == 1.0 / (1.0 + c);
    SpotlessQuotient(k);
  }

  lemma {:induction false} SpotlessQuotient(k: real)
    requires k > 0.0
    ensures 1.0 / (1.0 + Z * Z / k) == k / (k + Z * Z)
  {
    var c := Z * Z / k;
    assert c * k == Z * Z;
    assert k * (1.0 + c) == k + Z * Z;
    var x := k / (k + Z * Z);
    assert x * (k * (1.0 + c)) == k;
    assert k * (x * (1.0 + c)) == k;
    assert x * (1.0 + c) == 1.0;
  }

  // ----- trust score

  lemma {:induction false} WeightRange(n: int, minSample: int)
    requires n > 0
    ensures 0.0 <= Weight(n, minSample) <= 1.0
  {
    if minSample > 0 {
      DivMonotone(0.0, n as real, minSample as real);
    }
  }

  lemma {:induction false} BlendOrder(weight: real, x: real, y: real)
    requires 0.0 <= weight <= 1.0 && x <= y
    ensures Blended(weight, x) <= Blended(weight, y)
  {
    ProductSign(y - x, weight);
    assert Blended(weight, y) - Blended(weight, x) == Product(y - x, weight);
  }

  /** With the number of trades fixed, more wins never lower the trust score. */
  lemma {:induction false} TrustIncreases(v: int, w: int, n: int, minSample: int, s: real, t: real)
    requires 0 <= v <= w <= n && Roots(v, n, s) && Roots(w, n, t)
    ensures TrustScore(v, n, minSample, s) <= TrustScore(w, n, minSample, t)
  {
    if n > 0 {
      WilsonIncreases(w, v, n, t, s);
      WeightRange(n, minSample);
      hide Wilson, Roots, Blended, Weight, Round;
      BlendOrder(Weight(n, minSample), Wilson(v, n, s), Wilson(w, n, t));
      RoundMonotone(Blended(Weight(n, minSample), Wilson(v, n, s)), Blended(Weight(n, minSample), Wilson(w, n, t)),
                    1000.0);
    }
  }

  /** The score stays in [0, 1], and within half the sample's weight of neutral, up to the rounding. */
  lemma {:induction false} TrustRange(wins: int, n: int, minSample: int, s: real)
    requires 0 <= wins <= n && Roots(wins, n, s)
    ensures 0.0 <= TrustScore(wins, n, minSample, s) <= 1.0
    ensures n > 0 ==> Abs(TrustScore(wins, n, minSample, s) - 0.5) <= 0.5 * Weight(n, minSample) + 0.0005
  {
    if n > 0 {
      WilsonBelowRate(wins, n, s);
      RateOrder(wins, wins, n);
      WeightRange(n, minSample);
      var weight, l := Weight(n, minSample), Wilson(wins, n, s);
      assert Round(0.0, 1000.0) == 0.0 && Round(1.0, 1000.0) == 1.0;
      BlendRange(weight, l);
      hide Wilson, Roots, Blended, Weight, Round, Rate;
      RoundMonotone(0.0, Blended(weight, l), 1000.0);
      RoundMonotone(Blended(weight, l), 1.0, 1000.0);
      RoundError(Blended(weight, l), 1000.0);
    }
  }

  lemma {:induction false} BlendRange(weight: real, l: real)
    requires 0.0 <= weight <= 1.0 && 0.0 <= l <= 1.0
    ensures 0.0 <= Blended(weight, l) <= 1.0
    ensures 0.5 - 0.5 * weight <= Blended(weight, l) <= 0.5 + 0.5 * weight
  {
    ProductSign(l, weight);
    ProductSign(1.0 - l, weight);
    assert Product(1.0 - l, weight) == weight - Product(l, weight);
    assert Blended(weight, l) == 0.5 - 0.5 * weight + Product(l, weight);
  }

  // ----- the gate

  /** With the number of trades fixed, more wins never raise the bar. */
  lemma {:induction false} MoreWinsNeverRaiseTheBar(threshold: real, v: int, w: int, n: int, s: real, t: real)
    requires 0 <= v <= w <= n && Roots(v, n, s) && Roots(w, n, t)
    ensures Gate(threshold, w, n, t) <= Gate(threshold, v, n, s)
  {
    hide TrustScore, Roots;
    TrustIncreases(v, w, n, MIN_SAMPLE, s, t);
  }

  /** The bar always stays in [0.4, 0.9], and within 0.15 of a configured threshold from that range. */
  lemma {:induction false} GateRange(threshold: real, wins: int, n: int, s: real)
    requires 0 <= wins <= n && Roots(wins, n, s)
    ensures n <= 0 ==> Wilson(wins, n, s) == TrustScore(wins, n, 20, s) == 0.5
    ensures 0.4 <= Gate(threshold, wins, n, s) <= 0.9
    ensures 0.4 <= threshold <= 0.9 ==> Abs(Gate(threshold, wins, n, s) - threshold) <= 0.15
    ensures n == 0 && 0.4 <= threshold <= 0.9 ==> Gate(threshold, wins, n, s) == threshold
  {
    assert n == 0 ==> TrustScore(wins, n, MIN_SAMPLE, s) == 0.5;
    hide TrustScore, Roots;
    TrustRange(wins, n, MIN_SAMPLE, s);
  }
}
