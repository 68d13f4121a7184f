/** Williams fractals: the pivot scan and what it finds. */
module SwingDetector {
  import opened Options

  datatype Bar = Bar(time: int, high: real, low: real)

  datatype Kind = High | Low

  datatype Pivot = Pivot(index: nat, time: int, price: real, kind: Kind)

  /** max of a non-empty list, by a running maximum */
  method MaxOf(xs: seq<real>) returns (m: real)
    requires xs != []
    ensures m in xs && forall x <- xs :: x <= m
  {
    m := xs[0];
    for i := 1 to |xs|
      invariant m in xs[..i] && forall x <- xs[..i] :: x <= m
    {
      if xs[i] > m {
        m := xs[i];
      }
      assert xs[..i + 1] == xs[..i] + [xs[i]];
    }
    assert xs[..|xs|] == xs;
  }

  method MinOf(xs: seq<real>) returns (m: real)
    requires xs != []
    ensures m in xs && forall x <- xs :: m <= x
  {
    m := xs[0];
    for i := 1 to |xs|
      invariant m in xs[..i] && forall x <- xs[..i] :: m <= x
    {
      if xs[i] < m {
        m := xs[i];
      }
      assert xs[..i + 1] == xs[..i] + [xs[i]];
    }
    assert xs[..|xs|] == xs;
  }

  /** Candle i is a confirmed extreme: n candles on each side, all strictly below its high (above its low). */
  predicate IsExtreme(cs: seq<Bar>, n: nat, i: int, kind: Kind) {
    && n <= i < |cs| - n
    && forall j | i - n <= j <= i + n && j != i :: Beyond(cs[i], cs[j], kind)
  }

  predicate Beyond(c: Bar, other: Bar, kind: Kind) {
    if kind == High then c.high > other.high else c.low < other.low
  }

  function PivotAt(cs: seq<Bar>, i: nat, kind: Kind): Pivot
    requires i < |cs|
  {
    Pivot(i, cs[i].time, if kind == High then cs[i].high else cs[i].low, kind)
  }

  /** The pivots at one index: a high before a low. */
  function At(cs: seq<Bar>, n: nat, i: nat): seq<Pivot> {
    (if IsExtreme(cs, n, i, High) then [PivotAt(cs, i, High)] else [])
    + (if IsExtreme(cs, n, i, Low) then [PivotAt(cs, i, Low)] else [])
  }

  /** The pivots with index below m, in order. */
  function Below(cs: seq<Bar>, n: nat, m: nat): seq<Pivot> {
    if m == 0 then [] else Below(cs, n, m - 1) + At(cs, n, m - 1)
  }

  function Pivots(cs: seq<Bar>, n: nat): seq<Pivot> {
    Below(cs, n, |cs|)
  }

  // ----- the scan

  /** Comparing with the two maxima is comparing with every neighbour. */
  lemma {:induction false} HighByMaxima(cs: seq<Bar>, n: nat, i: int, left: seq<real>, right: seq<real>, l: real,
                                        r: real)
    requires 1 <= n <= i < |cs| - n
    requires left == seq(n, k requires 0 <= k < n => cs[i - n + k].high) &&
             right == seq(n, k requires 0 <= k < n => cs[i + 1 + k].high)
    requires l in left && (forall x <- left :: x <= l) && r in right && (forall x <- right :: x <= r)
    ensures cs[i].high > l && cs[i].high > r <==> IsExtreme(cs, n, i, High)
  {
    if IsExtreme(cs, n, i, High) {
      var a :| 0 <= a < n && left[a] == l;
      var b :| 0 <= b < n && right[b] == r;
      assert Beyond(cs[i], cs[i - n + a], High) && Beyond(cs[i], cs[i + 1 + b], High);
    }
    if cs[i].high > l && cs[i].high > r {
      forall j | i - n <= j <= i + n && j != i
        ensures Beyond(cs[i], cs[j], High)
      {
        if j < i {
          assert left[j - (i - n)] in left;
        } else {
          assert right[j - i - 1] in right;
        }
      }
    }
  }

  lemma {:induction false} LowByMinima(cs: seq<Bar>, n: nat, i: int, left: seq<real>, right: seq<real>, l: real,
                                       r: real)
    requires 1 <= n <= i < |cs| - n
    requires left == seq(n, k requires 0 <= k < n => cs[i - n + k].low) &&
             right == seq(n, k requires 0 <= k < n => cs[i + 1 + k].low)
    requires l in left && (forall x <- left :: l <= x) && r in right && (forall x <- right :: r <= x)
    ensures cs[i].low < l && cs[i].low < r <==> IsExtreme(cs, n, i, Low)
  {
    if IsExtreme(cs, n, i, Low) {
      var a :| 0 <= a < n && left[a] == l;
      var b :| 0 <= b < n && right[b] == r;
      assert Beyond(cs[i], cs[i - n + a], Low) && Beyond(cs[i], cs[i + 1 + b], Low);
    }
    if cs[i].low < l && cs[i].low < r {
      forall j | i - n <= j <= i + n && j != i
        ensures Beyond(cs[i], cs[j], Low)
      {
        if j < i {
          assert left[j - (i - n)] in left;
        } else {
          assert right[j - i - 1] in right;
        }
      }
    }
  }

  /** Nothing is confirmed in the first n candles, nor in the last n. */
  lemma {:induction false} NoneAtTheEnds(cs: seq<Bar>, n: nat, m: nat)
    ensures m <= n ==> Below(cs, n, m) == []
    ensures m >= |cs| - n ==> Below(cs, n, m) == Below(cs, n, if |cs| >= n then |cs| - n else 0)
  {
    if m > 0 {
      NoneAtTheEnds(cs, n, m - 1);
    }
  }

  /** The body of the scan for one candle. */
  method PivotsAtIndex(candles: seq<Bar>, n: nat, i: nat) returns (pivots: seq<Pivot>)
    requires 1 <= n <= i < |candles| - n
    ensures pivots == At(candles, n, i)
  {
    var c := candles[i];
    var leftHighs := seq(n, k requires 0 <= k < n => candles[i - n + k].high);
    var rightHighs := seq(n, k requires 0 <= k < n => candles[i + 1 + k].high);
    var leftLows := seq(n, k requires 0 <= k < n => candles[i - n + k].low);
    var rightLows := seq(n, k requires 0 <= k < n => candles[i + 1 + k].low);
    var lh := MaxOf(leftHighs);
    var rh := MaxOf(rightHighs);
    var ll := MinOf(leftLows);
    var rl := MinOf(rightLows);
    var isPivotHigh := c.high > lh && c.high > rh;
    var isPivotLow := c.low < ll && c.low < rl;
    HighByMaxima(candles, n, i, leftHighs, rightHighs, lh, rh);
    LowByMinima(candles, n, i, leftLows, rightLows, ll, rl);
    hide IsExtreme;
    pivots := [];
    if isPivotHigh {
      pivots := pivots + [Pivot(i, c.time, c.high, High)];
    }
    if isPivotLow {
      pivots := pivots + [Pivot(i, c.time, c.low, Low)];
    }
  }

  /** The scan over all candles with n neighbours on each side. */
  method Scan(candles: seq<Bar>, n: nat) returns (pivots: seq<Pivot>)
    requires 1 <= n && 2 * n + 1 <= |candles|
    ensures pivots == Pivots(candles, n)
  {
    hide At, IsExtreme;
    pivots := [];
    NoneAtTheEnds(candles, n, |candles|);
    NoneAtTheEnds(candles, n, n);
    for i := n to |candles| - n
      invariant pivots == Below(candles, n, i)
    {
      hide At, IsExtreme;
      var found := PivotsAtIndex(candles, n, i);
      pivots := pivots + found;
    }
  }

  /** The confirmed pivots, highs and lows, ordered by index; none when the source raises, because it takes the maximum
      of no neighbours. The sort that ends the source's scan has nothing left to do: see `SortChangesNothing`. */
  method FindPivots(candles: seq<Bar>, n: int) returns (pivots: Option<seq<Pivot>>)
    ensures pivots ==
      if n >= 1 then Some(Pivots(candles, n))
      else if n == 0 && candles == [] then Some([])
      else None
  {
    if |candles| < 2 * n + 1 {
      TooShort(candles, n);
      return Some([]);
    }
    if n < 1 {
      return None;
    }
    var found := Scan(candles, n);
    return Some(found);
  }

  lemma {:induction false} TooShort(candles: seq<Bar>, n: nat)
    requires |candles| < 2 * n + 1
    ensures Pivots(candles, n) == []
  {
    NoneAtTheEnds(candles, n, |candles|);
    NoneAtTheEnds(candles, n, if |candles| >= n then |candles| - n else 0);
  }

  // ----- exactly the strict local extremes, in order

  /** `p` reports a strict local extreme of the candles. */
  predicate Reports(cs: seq<Bar>, n: nat, p: Pivot) {
    p.index < |cs| && IsExtreme(cs, n, p.index, p.kind) && p == PivotAt(cs, p.index, p.kind)
  }

  lemma {:induction false} AtExact(cs: seq<Bar>, n: nat, i: nat, p: Pivot)
    ensures p in At(cs, n, i) <==> p.index == i && Reports(cs, n, p)
  {
    assert IsExtreme(cs, n, i, High) || IsExtreme(cs, n, i, Low) ==> i < |cs|;
    hide IsExtreme;
  }

  lemma {:induction false} BelowExact(cs: seq<Bar>, n: nat, m: nat, p: Pivot)
    ensures p in Below(cs, n, m) <==> p.index < m && Reports(cs, n, p)
  {
    hide IsExtreme, At, Reports;
    if m > 0 {
      BelowExact(cs, n, m - 1, p);
      AtExact(cs, n, m - 1, p);
      assert Below(cs, n, m) == Below(cs, n, m - 1) + At(cs, n, m - 1);
    }
  }

  /** The output is exactly the strict local extremes. */
  lemma {:induction false} PivotsAreTheExtremes(cs: seq<Bar>, n: nat, p: Pivot)
    ensures p in Pivots(cs, n) <==> Reports(cs, n, p)
    ensures p in Pivots(cs, n) <==>
      && n <= p.index < |cs| - n && p.time == cs[p.index].time
      && (match p.kind
          case High =>
            && p.price == cs[p.index].high
            && forall j | p.index - n <= j <= p.index + n && j != p.index :: cs[j].high < p.price
          case Low =>
            && p.price == cs[p.index].low
            && forall j | p.index - n <= j <= p.index + n && j != p.index :: cs[j].low > p.price)
  {
    BelowExact(cs, n, |cs|, p);
    hide Below;
  }

  /** The sort key of the source: the index, then "high" before "low". */
  predicate Before(p: Pivot, q: Pivot) {
    p.index < q.index || (p.index == q.index && p.kind == High && q.kind == Low)
  }

  ghost predicate Ordered(ps: seq<Pivot>) {
    forall i, j | 0 <= i < j < |ps| :: Before(ps[i], ps[j])
  }

  lemma {:induction false} BelowIsOrdered(cs: seq<Bar>, n: nat, m: nat)
    ensures Ordered(Below(cs, n, m))
  {
    if m > 0 {
      BelowIsOrdered(cs, n, m - 1);
      var earlier := Below(cs, n, m - 1);
      forall i | 0 <= i < |earlier|
        ensures earlier[i].index < m - 1
      {
        BelowExact(cs, n, m - 1, earlier[i]);
      }
      hide IsExtreme;
    }
  }

  /** Pivots come out in strictly increasing order of the sort key. */
  lemma {:induction false} PivotsAreOrdered(cs: seq<Bar>, n: nat)
    ensures Ordered(Pivots(cs, n))
  {
    BelowIsOrdered(cs, n, |cs|);
  }

  /** A sorted permutation: no element comes before an earlier one. */
  ghost predicate IsSortOf(ps: seq<Pivot>, sorted: seq<Pivot>) {
    && multiset(ps) == multiset(sorted)
    && forall i, j | 0 <= i < j < |sorted| :: !Before(sorted[j], sorted[i])
  }

  lemma {:induction false} SortOfOrdered(ps: seq<Pivot>, sorted: seq<Pivot>)
    requires Ordered(ps) && IsSortOf(ps, sorted)
    ensures sorted == ps
  {
    if ps == [] {
      assert |multiset(sorted)| == 0;
    } else {
      assert |multiset(ps)| == |ps| && |multiset(sorted)| == |sorted|;
      var n := |ps| - 1;
      LastAgrees(ps, sorted);
      assert ps == ps[..n] + [ps[n]];
      assert sorted == sorted[..n] + [sorted[n]];
      assert multiset(ps[..n]) == multiset(ps) - multiset{ps[n]};
      assert multiset(sorted[..n]) == multiset(sorted) - multiset{sorted[n]};
      SortOfOrdered(ps[..n], sorted[..n]);
    }
  }

  lemma {:induction false} LastAgrees(ps: seq<Pivot>, sorted: seq<Pivot>)
    requires Ordered(ps) && IsSortOf(ps, sorted) && ps != [] && |sorted| == |ps|
    ensures sorted[|ps| - 1] == ps[|ps| - 1]
  {
    var n := |ps| - 1;
    assert ps[n] in multiset(sorted) && sorted[n] in multiset(ps);
    var i :| 0 <= i <= n && sorted[i] == ps[n];
    var j :| 0 <= j <= n && ps[j] == sorted[n];
    if i < n && j < n {
      assert false;
    }
  }

  /** The final sort is the identity. */
  lemma {:induction false} SortChangesNothing(cs: seq<Bar>, n: nat, sorted: seq<Pivot>)
    requires IsSortOf(Pivots(cs, n), sorted)
    ensures sorted == Pivots(cs, n)
  {
    PivotsAreOrdered(cs, n);
    SortOfOrdered(Pivots(cs, n), sorted);
  }

  // ----- pivots never repaint

  /** The pivots already confirmed when m candles have closed. */
  function Confirmed(ps: seq<Pivot>, n: nat, m: nat): seq<Pivot> {
    if ps == [] then []
    else
      var last := |ps| - 1;
      Confirmed(ps[..last], n, m) + if ps[last].index + n < m then [ps[last]] else []
  }

  lemma {:induction false} ConfirmedConcat(ps: seq<Pivot>, qs: seq<Pivot>, n: nat, m: nat)
    ensures Confirmed(ps + qs, n, m) == Confirmed(ps, n, m) + Confirmed(qs, n, m)
  {
    if qs == [] {
      assert ps + qs == ps;
    } else {
      var init := qs[..|qs| - 1];
      ConfirmedConcat(ps, init, n, m);
      assert (ps + qs)[..|ps + qs| - 1] == ps + init;
    }
  }

  lemma {:induction false} ConfirmedAt(cs: seq<Bar>, n: nat, m: nat, i: nat)
    requires m <= |cs|
    ensures Confirmed(At(cs, n, i), n, m) == At(cs[..m], n, i)
  {
    ExtremeInPrefix(cs, n, m, i, High);
    ExtremeInPrefix(cs, n, m, i, Low);
    hide IsExtreme;
    var ps := At(cs, n, i);
    assert forall p <- ps :: p.index == i;
    KeepsAllOrNone(ps, n, m, i);
  }

  /** What makes an extreme lies within n candles of it. */
  lemma {:induction false} ExtremeInPrefix(cs: seq<Bar>, n: nat, m: nat, i: nat, kind: Kind)
    requires m <= |cs|
    ensures IsExtreme(cs[..m], n, i, kind) <==> i + n < m && IsExtreme(cs, n, i, kind)
  {
    if i + n < m && n <= i {
      assert forall j | i - n <= j <= i + n :: cs[..m][j] == cs[j];
    }
  }

  lemma {:induction false} KeepsAllOrNone(ps: seq<Pivot>, n: nat, m: nat, i: nat)
    requires forall p <- ps :: p.index == i
    ensures Confirmed(ps, n, m) == if i + n < m then ps else []
  {
    if ps != [] {
      KeepsAllOrNone(ps[..|ps| - 1], n, m, i);
      assert ps[|ps| - 1] in ps;
      assert ps == ps[..|ps| - 1] + [ps[|ps| - 1]];
    }
  }

  lemma {:induction false} ConfirmedBelow(cs: seq<Bar>, n: nat, m: nat, k: nat)
    requires m <= |cs|
    ensures Confirmed(Below(cs, n, k), n, m) == Below(cs[..m], n, k)
  {
    hide At;
    if k > 0 {
      ConfirmedBelow(cs, n, m, k - 1);
      ConfirmedAt(cs, n, m, k - 1);
      ConfirmedConcat(Below(cs, n, k - 1), At(cs, n, k - 1), n, m);
    }
  }

  /** The pivots of the first m candles are the pivots of the whole list that were confirmed by then. */
  lemma {:induction false} PivotsNeverRepaint(cs: seq<Bar>, n: nat, m: nat)
    requires m <= |cs|
    ensures Pivots(cs[..m], n) == Confirmed(Pivots(cs, n), n, m)
  {
    var prefix := cs[..m];
    ConfirmedBelow(cs, n, m, |cs|);
    NoneAtTheEnds(prefix, n, m);
    NoneAtTheEnds(prefix, n, |cs|);
  }

  lemma {:induction false} NotBothBeyond(c: Bar, other: Bar, kind: Kind)
    ensures Beyond(c, other, kind) ==> !Beyond(other, c, kind)
  {
  }

  /** Two pivots of the same kind are more than n candles apart. */
  lemma {:induction false} SameKindIsFarApart(cs: seq<Bar>, n: nat, p: Pivot, q: Pivot)
    requires p in Pivots(cs, n) && q in Pivots(cs, n) && p.kind == q.kind && p.index < q.index
    ensures q.index - p.index > n
  {
    PivotsAreTheExtremes(cs, n, p);
    PivotsAreTheExtremes(cs, n, q);
    assert q.index <= p.index + n ==> Beyond(cs[p.index], cs[q.index], p.kind);
    NotBothBeyond(cs[p.index], cs[q.index], p.kind);
    hide Beyond;
  }
}
