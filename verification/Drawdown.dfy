/** Equity curves, their largest fall, and runs of wins and losses. */
module Drawdown {
  import opened Reals

  /** The running equity before any profit and after each one. */
  function Curve(start: real, profits: seq<real>): (r: seq<real>)
    ensures |r| == |profits| + 1
  {
    if profits == [] then [start]
    else
      var before := Curve(start, profits[..|profits| - 1]);
      before + [before[|profits| - 1] + profits[|profits| - 1]]
  }

  ghost predicate IsPeak(curve: seq<real>, peak: real) {
    peak in curve && forall e <- curve :: e <= peak
  }

  /** `d` is the largest fall of the curve from a point to the same or a later point. */
  ghost predicate IsMaxFall(curve: seq<real>, d: real) {
    && (exists i, j :: 0 <= i <= j < |curve| && Fall(curve, i, j) == d)
    && (forall i, j | 0 <= i <= j < |curve| :: Fall(curve, i, j) <= d)
  }

  function Fall(curve: seq<real>, i: nat, j: nat): real
    requires i < |curve| && j < |curve|
  {
    curve[i] - curve[j]
  }

  lemma {:induction false} MaxFallIsUnique(curve: seq<real>, d: real, e: real)
    requires IsMaxFall(curve, d) && IsMaxFall(curve, e)
    ensures d == e
  {
  }

  /** One step of the running-peak loop. */
  lemma {:induction false} PeakExtends(curve: seq<real>, peak: real, e: real)
    requires IsPeak(curve, peak)
    ensures IsPeak(curve + [e], if e > peak then e else peak)
  {
    assert e in curve + [e];
    assert peak in curve + [e];
  }

  lemma {:induction false} MaxFallExtends(curve: seq<real>, peak: real, d: real, e: real)
    requires IsPeak(curve, peak) && IsMaxFall(curve, d) && d >= 0.0
    ensures var fall := (if e > peak then e else peak) - e;
      IsMaxFall(curve + [e], if fall > d then fall else d)
  {
    var longer, n := curve + [e], |curve|;
    var i, j :| 0 <= i <= j < n && Fall(curve, i, j) == d;
    var top :| 0 <= top < n && curve[top] == peak;
    assert Fall(longer, i, j) == d;
    assert Fall(longer, top, n) == peak - e;
    forall a, b | 0 <= a <= b < |longer|
      ensures Fall(longer, a, b) <= if peak - e > d then peak - e else d
    {
      if b < n {
        assert Fall(longer, a, b) == Fall(curve, a, b);
      } else if a < n {
        assert curve[a] in curve;
      }
    }
  }

  /** The starting balance does not matter: it shifts the whole curve. */
  lemma {:induction false} CurveShifts(x: real, y: real, profits: seq<real>, k: nat)
    requires k <= |profits|
    ensures Curve(x, profits)[k] - x == Curve(y, profits)[k] - y
  {
    if profits != [] {
      CurveShifts(x, y, profits[..|profits| - 1], if k < |profits| then k else |profits| - 1);
    }
  }

  lemma {:induction false} MaxFallIgnoresStart(x: real, y: real, profits: seq<real>, d: real)
    ensures IsMaxFall(Curve(x, profits), d) <==> IsMaxFall(Curve(y, profits), d)
  {
    var cx, cy := Curve(x, profits), Curve(y, profits);
    forall i, j | 0 <= i <= j < |cx|
      ensures Fall(cx, i, j) == Fall(cy, i, j)
    {
      CurveShifts(x, y, profits, i);
      CurveShifts(x, y, profits, j);
    }
    hide Curve;
  }

  /** Curves that stay within `e` of each other have largest falls within 2e of each other. */
  lemma {:induction false} CloseCurvesCloseFalls(xs: seq<real>, ys: seq<real>, e: real, d: real, f: real)
    requires |xs| == |ys| && forall k | 0 <= k < |xs| :: Abs(xs[k] - ys[k]) <= e
    requires IsMaxFall(xs, d) && IsMaxFall(ys, f)
    ensures Abs(d - f) <= 2.0 * e
  {
    var i, j :| 0 <= i <= j < |xs| && Fall(xs, i, j) == d;
    assert Fall(ys, i, j) <= f;
    var a, b :| 0 <= a <= b < |ys| && Fall(ys, a, b) == f;
    assert Fall(xs, a, b) <= d;
    assert Abs(xs[i] - ys[i]) <= e && Abs(xs[j] - ys[j]) <= e && Abs(xs[a] - ys[a]) <= e && Abs(xs[b] - ys[b]) <= e;
  }

  // ----- runs

  /** All of profits[lo..hi] are wins, or all are losses. */
  ghost predicate Streak(profits: seq<real>, win: bool, lo: int, hi: int) {
    && 0 <= lo <= hi <= |profits|
    && forall k | lo <= k < hi :: if win then profits[k] > 0.0 else profits[k] < 0.0
  }

  ghost predicate IsLongest(profits: seq<real>, win: bool, m: nat) {
    && (exists lo, hi :: hi - lo == m && Streak(profits, win, lo, hi))
    && (forall lo, hi | Streak(profits, win, lo, hi) :: hi - lo <= m)
  }

  /** `m` is the length of the longest run that ends with the last profit. */
  ghost predicate IsTail(profits: seq<real>, win: bool, m: nat) {
    && Streak(profits, win, |profits| - m, |profits|)
    && forall lo | Streak(profits, win, lo, |profits|) :: |profits| - lo <= m
  }

  function NextTail(p: real, win: bool, m: nat): nat {
    if (if win then p > 0.0 else p < 0.0) then m + 1 else 0
  }

  lemma {:induction false} TailExtends(profits: seq<real>, win: bool, m: nat, p: real)
    requires IsTail(profits, win, m)
    ensures IsTail(profits + [p], win, NextTail(p, win, m))
  {
    var longer, n := profits + [p], |profits|;
    assert forall k | 0 <= k < n :: longer[k] == profits[k];
    forall lo | Streak(longer, win, lo, |longer|)
      ensures n + 1 - lo <= NextTail(p, win, m)
    {
      if lo <= n {
        assert longer[n] == p;
        assert Streak(profits, win, lo, n);
      }
    }
  }

  lemma {:induction false} LongestExtends(profits: seq<real>, win: bool, m: nat, tail: nat, p: real)
    requires IsLongest(profits, win, m) && IsTail(profits + [p], win, tail)
    ensures IsLongest(profits + [p], win, if tail > m then tail else m)
  {
    var longer, n := profits + [p], |profits|;
    assert forall k | 0 <= k < n :: longer[k] == profits[k];
    var at, to :| to - at == m && Streak(profits, win, at, to);
    assert Streak(longer, win, at, to);
    assert Streak(longer, win, n + 1 - tail, n + 1);
    forall lo, hi | Streak(longer, win, lo, hi)
      ensures hi - lo <= if tail > m then tail else m
    {
      if hi <= n {
        assert Streak(profits, win, lo, hi);
      }
    }
  }
}
