/** The confidence gate: Wilson bound, trust score and effective threshold. A square root enters as a witness. */
module TrustGate {
  import opened PyRound
  import opened Reals

  const Z := 1.96
  const MIN_SAMPLE: int := 20
  const SENSITIVITY := 0.3
  const MIN_THRESHOLD := 0.4
  const MAX_THRESHOLD := 0.9

  predicate IsRoot(s: real, x: real) {
    s >= 0.0 && s * s == x
  }

  function Rate(wins: int, n: int): real
    requires n > 0
  {
    wins as real / n as real
  }

  function Radicand(wins: int, n: int): real
    requires n > 0
  {
    var p := Rate(wins, n);
    (p * (1.0 - p) + Z * Z / (4 * n) as real) / n as real
  }

  /** `s` is the square root the formula takes. */
  predicate Roots(wins: int, n: int, s: real) {
    n > 0 ==> IsRoot(s, Radicand(wins, n))
  }

  /** The bound before the two clamps. */
  function Bound(wins: int, n: int, s: real): real
    requires n > 0
  {
    var denominator := 1.0 + Z * Z / n as real;
    var center := Rate(wins, n) + Z * Z / (2 * n) as real;
    (center - Z * s) / denominator
  }

  function Wilson(wins: int, n: int, s: real): real
    requires Roots(wins, n, s)
  {
    if n <= 0 then 0.5 else MaxR(0.0, MinR(1.0, Bound(wins, n, s)))
  }

  function Weight(n: int, minSample: int): real {
    if minSample > 0 then MinR(n as real / minSample as real, 1.0) else 1.0
  }

  function Blended(weight: real, bound: real): real {
    0.5 * (1.0 - weight) + bound * weight
  }

  function TrustScore(wins: int, n: int, minSample: int, s: real): real
    requires Roots(wins, n, s)
  {
    if n <= 0 then 0.5 else Round(Blended(Weight(n, minSample), Wilson(wins, n, s)), 1000.0)
  }

  function Adjusted(threshold: real, trust: real, sensitivity: real): real {
    threshold - (trust - 0.5) * sensitivity
  }

  function EffectiveThreshold(threshold: real, trust: real, sensitivity: real, least: real, most: real): real {
    MaxR(least, MinR(most, Adjusted(threshold, trust, sensitivity)))
  }

  /** The gate as the trading pipeline calls it. */
  function Gate(threshold: real, wins: int, n: int, s: real): real
    requires Roots(wins, n, s)
  {
    EffectiveThreshold(threshold, TrustScore(wins, n, MIN_SAMPLE, s), SENSITIVITY, MIN_THRESHOLD, MAX_THRESHOLD)
  }

  // ----- products and quotients, kept out of the other proofs

  function Product(x: real, y: real): real {
    x * y
  }

  function Square(x: real): real {
    x * x
  }

  /** The variance of one trade won with probability p. */
  function Variance(p: real): real {
    p * (1.0 - p)
  }

  lemma {:induction false} ProductSign(x: real, y: real)
    ensures x >= 0.0 && y >= 0.0 ==> Product(x, y) >= 0.0
    ensures x > 0.0 && y > 0.0 ==> Product(x, y) > 0.0
    ensures x < 0.0 && y > 0.0 ==> Product(x, y) < 0.0
  {
    if x < 0.0 && y > 0.0 {
      assert -x * y > 0.0;
    }
  }

  lemma {:induction false} DifferenceOfSquares(x: real, y: real)
    ensures Square(y) - Square(x) == Product(y - x, y + x)
  {
  }

  lemma {:induction false} SquaresOrder(x: real, y: real)
    requires x >= 0.0 && y >= 0.0
    ensures Square(x) < Square(y) <==> x < y
  {
    hide Square, Product;
    DifferenceOfSquares(x, y);
    DifferenceOfSquares(y, x);
    ProductSign(y - x, y + x);
    ProductSign(x - y, x + y);
  }

  lemma {:induction false} ProductsOrder(x: real, y: real, x': real, y': real)
    requires 0.0 <= x <= x' && 0.0 <= y <= y'
    ensures Product(x, y) <= Product(x', y')
  {
    ProductSign(x' - x, y');
    ProductSign(x, y' - y);
    assert Product(x', y') - Product(x, y) == Product(x' - x, y') + Product(x, y' - y);
  }

  lemma {:induction false} Quotient(x: real, d: real)
    requires d > 0.0
    ensures Product(x / d, d) == x
  {
  }

  lemma {:induction false} QuotientBetween(x: real, p: real, d: real)
    requires d > 0.0 && 0.0 <= x <= Product(p, d)
    ensures 0.0 <= x / d <= p
  {
    DivMonotone(x, p * d, d);
  }

  lemma {:induction false} QuotientOrder(x: real, y: real, d: real)
    requires d > 0.0 && x < y
    ensures x / d < y / d
  {
    assert y / d - x / d == (y - x) / d;
  }

  // ----- the bound in normal form: p the win rate, c = z*z/n, m = z*s

  ghost predicate IsMargin(p: real, c: real, m: real) {
    m >= 0.0 && Square(m) == Product(c, Variance(p)) + Square(c) / 4.0
  }

  function Lower(p: real, c: real, m: real): real
    requires c > 0.0
  {
    (p + c / 2.0 - m) / (1.0 + c)
  }

  /** The formula of the source in that form. */
  lemma {:induction false} BoundIsLower(wins: int, n: int, s: real)
    requires n > 0 && Roots(wins, n, s)
    ensures Z * Z / n as real > 0.0
    ensures var c := Z * Z / n as real;
      Bound(wins, n, s) == Lower(Rate(wins, n), c, Z * s) && IsMargin(Rate(wins, n), c, Z * s)
  {
    var p, k := Rate(wins, n), n as real;
    var c := Z * Z / k;
    Halves(k);
    var a := Variance(p);
    assert s * s == (a + c / 4.0) / k;
    MarginSquared(a, k, s);
  }

  lemma {:induction false} Halves(k: real)
    requires k > 0.0
    ensures Z * Z / (4.0 * k) == Z * Z / k / 4.0 && Z * Z / (2.0 * k) == Z * Z / k / 2.0 && Z * Z / k > 0.0
  {
    var c := Z * Z / k;
    assert c * k == Z * Z;
    assert (c / 4.0) * (4.0 * k) == c * k;
    assert (c / 2.0) * (2.0 * k) == c * k;
  }

  lemma {:induction false} MarginSquared(a: real, k: real, s: real)
    requires k > 0.0 && s * s == (a + Z * Z / k / 4.0) / k
    ensures var c := Z * Z / k; (Z * s) * (Z * s) == c * a + c * c / 4.0
  {
    var c := Z * Z / k;
    var x := a + c / 4.0;
    assert (Z * s) * (Z * s) == Z * Z * (s * s);
    assert Z * Z == c * k;
    assert c * k * (x / k) == c * x;
  }

  lemma {:induction false} CenterSquared(p: real, c: real)
    ensures Square(p + c / 2.0) == Product(c, Variance(p)) + Square(c) / 4.0 + Product(1.0 + c, Square(p))
  {
  }

  lemma {:induction false} GapSquared(p: real, c: real)
    ensures Product(c, Variance(p)) + Square(c) / 4.0 - Square(c / 2.0 - Product(c, p)) ==
            Product(1.0 + c, Product(c, Variance(p)))
  {
  }

  lemma {:induction false} RateTimes(p: real, c: real)
    ensures Product(p, 1.0 + c) == p + Product(c, p)
  {
  }

  /** The bound lies between 0 and the observed win rate. */
  lemma {:induction false} LowerIsBelowRate(p: real, c: real, m: real)
    requires 0.0 <= p <= 1.0 && c > 0.0 && IsMargin(p, c, m)
    ensures 0.0 <= Lower(p, c, m) <= p
  {
    VarianceSign(p, c);
    SquareSign(p);
    var gap := c / 2.0 - Product(c, p);
    hide Square, Product, Variance;
    CenterSquared(p, c);
    ProductSign(1.0 + c, Square(p));
    SquaresOrder(p + c / 2.0, m);
    GapSquared(p, c);
    ProductSign(1.0 + c, Product(c, Variance(p)));
    if gap >= 0.0 {
      SquaresOrder(m, gap);
    }
    RateTimes(p, c);
    QuotientBetween(p + c / 2.0 - m, p, 1.0 + c);
  }

  lemma {:induction false} SquareSign(x: real)
    ensures Square(x) >= 0.0
  {
    if x < 0.0 {
      ProductSign(-x, -x);
    }
  }

  lemma {:induction false} VarianceSign(p: real, c: real)
    requires 0.0 <= p <= 1.0 && c > 0.0
    ensures Product(c, Variance(p)) >= 0.0
  {
    ProductSign(p, 1.0 - p);
    ProductSign(c, Variance(p));
  }

  lemma {:induction false} MarginAtLeast(p: real, c: real, m: real)
    requires 0.0 <= p <= 1.0 && c > 0.0 && IsMargin(p, c, m)
    ensures m >= c / 2.0
  {
    assert Square(c / 2.0) == Square(c) / 4.0;
    hide Square, Product, Variance;
    VarianceSign(p, c);
    SquaresOrder(m, c / 2.0);
  }

  lemma {:induction false} VarianceDifference(p: real, q: real, c: real)
    ensures Product(c, Variance(q)) - Product(c, Variance(p)) == Product(c, q - p) - Product(Product(c, q - p), p + q)
  {
  }

  /** A higher win rate over the same number of trades has a strictly higher bound. */
  lemma {:induction false} LowerIncreases(p: real, q: real, c: real, m: real, k: real)
    requires 0.0 <= p < q <= 1.0 && c > 0.0 && IsMargin(p, c, m) && IsMargin(q, c, k)
    ensures Lower(p, c, m) < Lower(q, c, k)
  {
    hide Square, Product, Variance;
    MarginAtLeast(p, c, m);
    MarginAtLeast(q, c, k);
    var d := q - p;
    VarianceDifference(p, q, c);
    ProductSign(c, d);
    ProductSign(Product(c, d), p + q);
    assert Square(k) - Square(m) < Product(c, d);
    DifferenceOfSquares(m, k);
    ProductCommutes(c, d);
    if k - m >= d {
      ProductsOrder(d, c, k - m, k + m);
      assert false;
    }
    QuotientOrder(p + c / 2.0 - m, q + c / 2.0 - k, 1.0 + c);
  }

  lemma {:induction false} ProductCommutes(x: real, y: real)
    ensures Product(x, y) == Product(y, x)
  {
  }

  /** `x` is an end point of Wilson's interval: its squared distance to the rate is z*z times the variance of a mean
      of n trades won with probability x. */
  ghost predicate EndPoint(p: real, c: real, x: real) {
    Square(p - x) == Product(c, Variance(x))
  }

  lemma {:induction false} SplitSquare(a: real, b: real, d: real)
    ensures Square(a + Product(d, b)) == Square(a) + Product(d, 2.0 * Product(a, b)) + Product(d, Product(d, Square(b)))
  {
  }

  lemma {:induction false} CrossTerm(p: real, x: real)
    ensures 2.0 * Product(x - p, x - 0.5) == Square(x - p) - Variance(x) + Variance(p)
  {
  }

  lemma {:induction false} HalfSquared(x: real)
    ensures Square(x - 0.5) == 0.25 - Variance(x)
  {
  }

  lemma {:induction false} Distributes(d: real, x: real, y: real)
    ensures Product(d, x + y) == Product(d, x) + Product(d, y) && Product(d, x - y) == Product(d, x) - Product(d, y)
    ensures Product(x, 1.0 + d) == x + Product(d, x)
  {
  }

  lemma {:induction false} ConstantTerms(d: real, x: real)
    ensures Square(d) / 4.0 == Product(d, Product(d, 0.25)) && Product(d, x - 0.5) == Product(d, x) - d / 2.0
  {
  }

  /** How far `x` is from solving the interval's equation, as a difference of squares. */
  lemma {:induction false} SquareGap(p: real, d: real, k: real, x: real)
    requires IsMargin(p, d, k)
    ensures Square(Product(x, 1.0 + d) - (p + d / 2.0)) - Square(k)
         == Product(Square(p - x) - Product(d, Variance(x)), 1.0 + d)
  {
    var a, b, v, q := x - p, x - 0.5, Variance(x), Variance(p);
    hide Square, Product, Variance;
    ConstantTerms(d, x);
    SquareOfNegation(a);
    Distributes(d, x, 0.0);
    SplitSquare(a, b, d);
    CrossTerm(p, x);
    HalfSquared(x);
    Distributes(d, Square(a) - v, q);
    Distributes(d, Square(a), v);
    Distributes(d, 0.25, v);
    Distributes(d, Product(d, 0.25), Product(d, v));
    Distributes(d, Square(a) - Product(d, v), 0.0);
    Distributes(d, Square(a), Product(d, v));
  }

  lemma {:induction false} CompleteSquare(p: real, c: real, m: real, x: real)
    requires c > 0.0 && IsMargin(p, c, m)
    ensures Square(Product(x, 1.0 + c) - (p + c / 2.0)) == Square(m) <==> EndPoint(p, c, x)
  {
    SquareGap(p, c, m, x);
    var e := Square(p - x) - Product(c, Variance(x));
    hide Square, Variance;
    ProductLess(e, 0.0, 1.0 + c);
    ProductLess(0.0, e, 1.0 + c);
    assert Product(0.0, 1.0 + c) == 0.0;
  }

  /** The bound is the lower end point of Wilson's interval. */
  lemma {:induction false} LowerIsEndPoint(p: real, c: real, m: real, x: real)
    requires c > 0.0 && IsMargin(p, c, m)
    ensures EndPoint(p, c, Lower(p, c, m))
    ensures EndPoint(p, c, x) ==> Lower(p, c, m) <= x
  {
    var l := Lower(p, c, m);
    assert Square(-m) == Square(m);
    hide Square, Product, Variance;
    Quotient(p + c / 2.0 - m, 1.0 + c);
    assert Product(l, 1.0 + c) - (p + c / 2.0) == -m;
    CompleteSquare(p, c, m, l);
    CompleteSquare(p, c, m, x);
    if EndPoint(p, c, x) && x < l {
      var y := Product(x, 1.0 + c) - (p + c / 2.0);
      ProductLess(x, l, 1.0 + c);
      SquareOfNegation(y);
      SquaresOrder(m, -y);
      assert false;
    }
  }

  lemma {:induction false} SquareOfNegation(x: real)
    ensures Square(-x) == Square(x)
  {
  }

  lemma {:induction false} ProductLess(x: real, y: real, d: real)
    requires d > 0.0
    ensures x < y <==> Product(x, d) < Product(y, d)
  {
    ProductSign(y - x, d);
    ProductSign(x - y, d);
    assert Product(y, d) - Product(x, d) == Product(y - x, d);
    assert Product(x, d) - Product(y, d) == Product(x - y, d);
  }

  lemma {:induction false} ExcessSquared(p: real, c: real)
    ensures Square(p - 0.5) - Product(c, Variance(p)) - Square(c) / 4.0 == Product(Square(p - 0.5) - c / 4.0, 1.0 + c)
  {
  }

  /** The bound clears one half exactly when the rate does so by more than half of z over the root of n. */
  lemma {:induction false} LowerClearsHalf(p: real, c: real, m: real)
    requires c > 0.0 && IsMargin(p, c, m)
    ensures Lower(p, c, m) > 0.5 <==> p > 0.5 && Square(p - 0.5) > c / 4.0
  {
    var x, l := p - 0.5, Lower(p, c, m);
    RateTimes(0.5, c);
    ProductCommutes(c, 0.5);
    assert Product(0.5, 1.0 + c) == 0.5 + 0.5 * c;
    assert Product(0.0, 1.0 + c) == 0.0;
    hide Square, Product, Variance;
    Quotient(p + c / 2.0 - m, 1.0 + c);
    ProductLess(0.5, l, 1.0 + c);
    assert l > 0.5 <==> x > m;
    ExcessSquared(p, c);
    ProductLess(0.0, Square(x) - c / 4.0, 1.0 + c);
    if x > 0.0 {
      SquaresOrder(m, x);
    }
  }

  // ----- the bound and the sample size: a larger c is a smaller sample

  /** With wins, the bound is strictly between 0 and 1. */
  lemma {:induction false} LowerIsInside(p: real, c: real, m: real)
    requires 0.0 < p <= 1.0 && c > 0.0 && IsMargin(p, c, m)
    ensures 0.0 < Lower(p, c, m) < 1.0
  {
    var l := Lower(p, c, m);
    MarginAtLeast(p, c, m);
    LowerIsBelowRate(p, c, m);
    LowerIsEndPoint(p, c, m, 0.0);
    assert l == 0.0 ==> Product(c, Variance(l)) == 0.0;
    ProductSign(p, p);
    assert l == 0.0 ==> Square(p - l) == Product(p, p);
    hide Square, Product, Variance;
    QuotientOrder(p + c / 2.0 - m, 1.0 + c, 1.0 + c);
  }

  /** Inside Wilson's interval the squared distance to the rate is below the variance term. */
  lemma {:induction false} InsideMeansAbove(p: real, d: real, k: real, x: real)
    requires d > 0.0 && IsMargin(p, d, k) && Square(p - x) < Product(d, Variance(x))
    ensures Lower(p, d, k) < x
  {
    var y := Product(x, 1.0 + d) - (p + d / 2.0);
    SquareGap(p, d, k, x);
    ProductLess(Square(p - x) - Product(d, Variance(x)), 0.0, 1.0 + d);
    assert Product(0.0, 1.0 + d) == 0.0;
    hide Square, Product, Variance;
    Quotient(p + d / 2.0 - k, 1.0 + d);
    ProductLess(Lower(p, d, k), x, 1.0 + d);
    if y <= -k {
      SquareOfNegation(y);
      SquaresOrder(-y, k);
      assert false;
    }
  }

  /** At an equal positive win rate, a smaller sample has a strictly lower bound. */
  lemma {:induction false} LowerFallsWithSample(p: real, c: real, m: real, d: real, k: real)
    requires 0.0 < p <= 1.0 && 0.0 < c < d && IsMargin(p, c, m) && IsMargin(p, d, k)
    ensures Lower(p, d, k) < Lower(p, c, m)
  {
    var l := Lower(p, c, m);
    LowerIsInside(p, c, m);
    LowerIsEndPoint(p, c, m, l);
    assert Variance(l) == Product(l, 1.0 - l);
    ProductSign(l, 1.0 - l);
    hide Square, Product, Variance;
    ProductLess(c, d, Variance(l));
    InsideMeansAbove(p, d, k, l);
  }

  // ----- when two bounds sum to more than 1, from the win rate and the two sample sizes alone

  /** By how much the two interval centres outweigh 1, over the common denominator. */
  function Lead(p: real, c: real, d: real): real {
    Product(p - 0.5, 2.0 + c + d)
  }

  /** The squared margin of a sample, over the common denominator; no root is taken. */
  function MarginTerm(p: real, c: real, d: real): real {
    Product(Product(c, Variance(p)) + Square(c) / 4.0, Square(1.0 + d))
  }

  /** The lead outweighs the two margins: with U and V their squares and B = lead^2 - U - V, both the lead and B are
      positive and B^2 exceeds 4UV. */
  predicate LeadOutweighs(p: real, c: real, d: real) {
    var u, v := MarginTerm(p, c, d), MarginTerm(p, d, c);
    var b := Square(Lead(p, c, d)) - u - v;
    Lead(p, c, d) > 0.0 && b > 0.0 && Square(b) > 4.0 * Product(u, v)
  }

  lemma {:induction false} ProductLinear(x: real, y: real, z: real)
    ensures Product(x + y, z) == Product(x, z) + Product(y, z) && Product(x - y, z) == Product(x, z) - Product(y, z)
  {
  }

  lemma {:induction false} ProductAssociates(x: real, y: real, z: real)
    ensures Product(Product(x, y), z) == Product(x, Product(y, z))
  {
  }

  /** The centres, multiplied out. */
  lemma {:induction false} Centres(p: real, c: real, d: real)
    ensures Product(p + c / 2.0, 1.0 + d) + Product(p + d / 2.0, 1.0 + c) - Product(1.0 + c, 1.0 + d) == Lead(p, c, d)
  {
  }

  /** The sum of the two bounds against 1, multiplied out. */
  lemma {:induction false} SumOverOne(p: real, c: real, m: real, d: real, k: real)
    requires c > 0.0 && d > 0.0
    ensures Lower(p, c, m) + Lower(p, d, k) > 1.0 <==>
            Lead(p, c, d) > Product(m, 1.0 + d) + Product(k, 1.0 + c)
  {
    var x, y, e, f := Lower(p, c, m), Lower(p, d, k), 1.0 + c, 1.0 + d;
    Quotient(p + c / 2.0 - m, e);
    Quotient(p + d / 2.0 - k, f);
    ProductSign(e, f);
    hide Product, Lead;
    ProductLinear(x + y, 1.0, Product(e, f));
    ProductLinear(x, y, Product(e, f));
    ProductAssociates(x, e, f);
    ProductAssociates(y, f, e);
    ProductCommutes(e, f);
    ProductLinear(p + c / 2.0, m, f);
    ProductLinear(p + d / 2.0, k, e);
    Centres(p, c, d);
    ProductLess(0.0, x + y - 1.0, Product(e, f));
    ProductUnits(Product(e, f));
  }

  lemma {:induction false} ProductUnits(x: real)
    ensures Product(1.0, x) == x && Product(0.0, x) == 0.0
  {
  }

  lemma {:induction false} SquareOfSum(x: real, y: real)
    ensures Square(x + y) == Square(x) + Square(y) + 2.0 * Product(x, y)
  {
  }

  lemma {:induction false} SquareOfProduct(x: real, y: real)
    ensures Square(Product(x, y)) == Product(Square(x), Square(y))
  {
    assert (x * y) * (x * y) == x * x * (y * y);
  }

  lemma {:induction false} SquareOfDouble(x: real)
    ensures Square(2.0 * x) == 4.0 * Square(x)
  {
  }

  /** A number exceeds the sum of two non-negative ones, stated through squares alone. */
  lemma {:induction false} ExceedsSumIff(lead: real, x: real, y: real)
    requires x >= 0.0 && y >= 0.0
    ensures var b := Square(lead) - Square(x) - Square(y);
      lead > x + y <==> lead > 0.0 && b > 0.0 && Square(b) > 4.0 * Product(Square(x), Square(y))
  {
    hide Square, Product;
    var b := Square(lead) - Square(x) - Square(y);
    var xy := Product(x, y);
    ProductSign(x, y);
    SquareOfSum(x, y);
    SquareOfProduct(x, y);
    SquareOfDouble(xy);
    if lead > 0.0 {
      SquaresOrder(x + y, lead);
      if b > 0.0 {
        SquaresOrder(2.0 * xy, b);
      }
    }
  }

  /** The two bounds sum to more than 1 exactly when the lead outweighs the margins. */
  lemma {:induction false} SumOverOneIff(p: real, c: real, m: real, d: real, k: real)
    requires c > 0.0 && d > 0.0 && IsMargin(p, c, m) && IsMargin(p, d, k)
    ensures Lower(p, c, m) + Lower(p, d, k) > 1.0 <==> LeadOutweighs(p, c, d)
  {
    hide Square, Product, Variance, Lower, Lead;
    SumOverOne(p, c, m, d, k);
    ProductSign(m, 1.0 + d);
    ProductSign(k, 1.0 + c);
    SquareOfProduct(m, 1.0 + d);
    SquareOfProduct(k, 1.0 + c);
    ExceedsSumIff(Lead(p, c, d), Product(m, 1.0 + d), Product(k, 1.0 + c));
  }

  /** The lower of two values is nearer to one half exactly when they sum to more than 1. */
  lemma {:induction false} NearerToHalfIff(x: real, y: real)
    requires x < y
    ensures Abs(x - 0.5) < Abs(y - 0.5) <==> x + y > 1.0
  {
  }
}
