/** The incremental context pointers against the loader's per-candle filter. */
module ContextWindows {
  import opened BacktestModels
  import opened BacktestEngine

  ghost predicate SortedByTime(cs: seq<Candle>) {
    forall i, j | 0 <= i < j < |cs| :: cs[i].time <= cs[j].time
  }

  /** The loader's filter: every candle of the list whose time is at most `t`. */
  function Upto(list: seq<Candle>, t: int): (r: seq<Candle>)
    ensures |r| <= |list|
  {
    if list == [] then []
    else if list[0].time <= t then [list[0]] + Upto(list[1..], t)
    else Upto(list[1..], t)
  }

  /** Python's `xs[-count:]`, for any integer `count`. */
  function Tail(xs: seq<Candle>, count: int): seq<Candle> {
    if count > 0 then xs[(if |xs| > count then |xs| - count else 0)..]
    else xs[(if -count < |xs| then -count else |xs|)..]
  }

  /** The context window the loader builds for a trigger at time `t`. */
  function LoaderWindow(list: seq<Candle>, t: int, count: int): seq<Candle> {
    Tail(Upto(list, t), count)
  }

  lemma {:induction false} UptoNone(list: seq<Candle>, t: int)
    requires forall c <- list :: c.time > t
    ensures Upto(list, t) == []
  {
    if list != [] {
      UptoNone(list[1..], t);
    }
  }

  /** On a sorted list the filter keeps a prefix. */
  lemma {:induction false} UptoIsPrefix(list: seq<Candle>, t: int)
    requires SortedByTime(list)
    ensures list[..|Upto(list, t)|] == Upto(list, t)
    ensures forall j | 0 <= j < |list| :: j < |Upto(list, t)| <==> list[j].time <= t
  {
    if list != [] {
      if list[0].time <= t {
        UptoIsPrefix(list[1..], t);
        var n := |Upto(list[1..], t)|;
        assert list[..n + 1] == [list[0]] + list[1..][..n];
        forall j | 0 <= j < |list|
          ensures j < |Upto(list, t)| <==> list[j].time <= t
        {
          if j > 0 {
            assert list[1..][j - 1] == list[j];
          }
        }
      } else {
        UptoNone(list[1..], t);
      }
    }
  }

  /** Filtering twice is filtering by the smaller time. */
  lemma {:induction false} UptoTwice(list: seq<Candle>, t: int, late: int)
    requires t <= late
    ensures Upto(Upto(list, late), t) == Upto(list, t)
  {
    if list != [] {
      UptoTwice(list[1..], t, late);
      if list[0].time <= late {
        assert Upto(list, late)[1..] == Upto(list[1..], late);
      }
    }
  }

  /** From any pointer that has not overshot, advancing lands on the number of visible candles. */
  lemma {:induction false} AdvanceReachesFilter(list: seq<Candle>, ptr: nat, t: int)
    requires SortedByTime(list) && ptr <= |Upto(list, t)|
    ensures AdvancePtr(list, ptr, t) == |Upto(list, t)|
    decreases |list| - ptr
  {
    UptoIsPrefix(list, t);
    if ptr < |list| && list[ptr].time <= t {
      AdvanceReachesFilter(list, ptr + 1, t);
    }
  }

  lemma {:induction false} UptoGrows(list: seq<Candle>, t: int, late: int)
    requires t <= late
    ensures |Upto(list, t)| <= |Upto(list, late)|
  {
    UptoTwice(list, t, late);
  }

  lemma {:induction false} PointerStep<S>(a: Setup<S>, i: nat, tf: string)
    requires a.cfg.Valid() && i < |a.candles| && tf in a.ctx
    ensures After(a, i + 1).ptrs[tf] == AdvancePtr(a.ctx[tf], After(a, i).ptrs[tf], a.candles[i].time)
  {
    hide After, AdvancePtr, SignalPhase, Exited;
    AfterStep(a, i);
  }

  lemma {:induction false} NoMoveYet<S>(a: Setup<S>, tf: string)
    requires a.cfg.Valid() && tf in a.ctx
    ensures After(a, 0).ptrs[tf] == 0
  {
    hide After;
    AfterNone(a);
  }

  /** After candle `i` every pointer counts exactly the context candles with time at most that candle's. */
  lemma {:induction false} PointerCountsVisible<S>(a: Setup<S>, i: nat, tf: string)
    requires a.cfg.Valid() && i < |a.candles| && tf in a.ctx
    requires SortedByTime(a.candles) && SortedByTime(a.ctx[tf])
    ensures After(a, i + 1).ptrs[tf] == |Upto(a.ctx[tf], a.candles[i].time)|
    ensures a.ctx[tf][..After(a, i + 1).ptrs[tf]] == Upto(a.ctx[tf], a.candles[i].time)
  {
    hide After, Upto, AdvancePtr, Start;
    var list, t := a.ctx[tf], a.candles[i].time;
    assert After(a, i).ptrs[tf] <= |Upto(list, t)| by {
      if i == 0 {
        NoMoveYet(a, tf);
      } else {
        PointerCountsVisible(a, i - 1, tf);
        UptoGrows(list, a.candles[i - 1].time, t);
      }
    }
    PointerStep(a, i, tf);
    AdvanceReachesFilter(list, After(a, i).ptrs[tf], t);
    UptoIsPrefix(list, t);
  }

  /** Engine slice and loader slice agree exactly for counts of at least one, or when the loader drops everything
      too. */
  lemma {:induction false} SliceAgreement(list: seq<Candle>, t: int, count: int)
    requires SortedByTime(list)
    ensures Last(list, |Upto(list, t)|, count) == LoaderWindow(list, t, count)
       <==> count >= 1 || |Upto(list, t)| <= -count
  {
    UptoIsPrefix(list, t);
    var xs := Upto(list, t);
    if count >= 1 {
      var lo := if |xs| > count then |xs| - count else 0;
      assert list[lo..|xs|] == list[..|xs|][lo..];
    }
  }

  /** The windows the engine shows at candle `i` are the loader's windows, with empty timeframes left out. */
  lemma {:induction false} EngineWindowsAreLoaderWindows<S>(a: Setup<S>, i: nat)
    requires a.cfg.Valid() && i < |a.candles| && a.cfg.isMtf
    requires SortedByTime(a.candles) && forall tf <- a.ctx :: SortedByTime(a.ctx[tf])
    requires forall tf <- a.cfg.candleCounts :: a.cfg.candleCounts[tf] >= 1
    ensures var shown := MakeView(a.cfg, a.candles, i, a.ctx, After(a, i + 1).ptrs).contexts;
      && shown.Keys == (set tf | tf in a.ctx && tf != a.cfg.primaryTf && Upto(a.ctx[tf], a.candles[i].time) != [])
      && forall tf <- shown ::
           shown[tf] == LoaderWindow(a.ctx[tf], a.candles[i].time, ContextCount(a.cfg, tf, 20))
  {
    forall tf <- a.ctx
      ensures After(a, i + 1).ptrs[tf] == |Upto(a.ctx[tf], a.candles[i].time)|
      ensures Last(a.ctx[tf], |Upto(a.ctx[tf], a.candles[i].time)|, ContextCount(a.cfg, tf, DEFAULT_CONTEXT_COUNT))
           == LoaderWindow(a.ctx[tf], a.candles[i].time, ContextCount(a.cfg, tf, DEFAULT_CONTEXT_COUNT))
    {
      PointerCountsVisible(a, i, tf);
      SliceAgreement(a.ctx[tf], a.candles[i].time, ContextCount(a.cfg, tf, DEFAULT_CONTEXT_COUNT));
    }
  }

  /** Windows loaded when the strategy names no count for a timeframe. */
  const LOADER_DEFAULT_COUNT := 10

  /** With no count given, engine (20) and loader (10) show the same window only while at most ten candles are
      visible. */
  lemma {:induction false} DefaultCountsDiffer(list: seq<Candle>, t: int)
    requires SortedByTime(list)
    ensures Last(list, |Upto(list, t)|, DEFAULT_CONTEXT_COUNT) == LoaderWindow(list, t, LOADER_DEFAULT_COUNT)
       <==> |Upto(list, t)| <= 10
  {
    SliceAgreement(list, t, DEFAULT_CONTEXT_COUNT);
  }

  /** Eleven visible candles: the engine shows all of them, the loader the last ten. */
  lemma {:induction false} ElevenCandlesDiffer()
    ensures var list := seq(11, i => Candle(i, 1.0, 1.0, 1.0, 1.0, 0, 0));
      && Last(list, |Upto(list, 10)|, DEFAULT_CONTEXT_COUNT) == list
      && LoaderWindow(list, 10, LOADER_DEFAULT_COUNT) == list[1..]
  {
    var list := seq(11, i => Candle(i, 1.0, 1.0, 1.0, 1.0, 0, 0));
    AllVisible(list, 10);
  }

  lemma {:induction false} AllVisible(list: seq<Candle>, t: int)
    requires forall c <- list :: c.time <= t
    ensures Upto(list, t) == list
  {
    if list != [] {
      assert list[0] in list;
      assert list == [list[0]] + list[1..];
      AllVisible(list[1..], t);
    }
  }

  /** Rounds of one timeframe's pointer loop over the first `k` candles. */
  function Moves<S>(a: Setup<S>, tf: string, k: nat): nat
    requires a.cfg.Valid() && k <= |a.candles| && tf in a.ctx
  {
    if k == 0 then 0
    else Moves(a, tf, k - 1) + AdvanceSteps(a.ctx[tf], After(a, k - 1).ptrs[tf], a.candles[k - 1].time)
  }

  /** Every round moves the pointer by one. */
  lemma {:induction false} EachRoundMovesByOne(list: seq<Candle>, ptr: nat, t: int)
    requires ptr <= |list|
    ensures AdvancePtr(list, ptr, t) == ptr + AdvanceSteps(list, ptr, t)
    decreases |list| - ptr
  {
    if ptr < |list| && list[ptr].time <= t {
      EachRoundMovesByOne(list, ptr + 1, t);
    }
  }

  /** Over a whole run the pointer loop of a timeframe goes round at most once per context candle, sorted or not. */
  lemma {:induction false} TotalMovesBounded<S>(a: Setup<S>, tf: string, k: nat)
    requires a.cfg.Valid() && k <= |a.candles| && tf in a.ctx
    ensures Moves(a, tf, k) == After(a, k).ptrs[tf] <= |a.ctx[tf]|
  {
    hide After;
    AfterNone(a);
    if k > 0 {
      TotalMovesBounded(a, tf, k - 1);
      PointerStep(a, k - 1, tf);
      EachRoundMovesByOne(a.ctx[tf], After(a, k - 1).ptrs[tf], a.candles[k - 1].time);
    }
  }
}
