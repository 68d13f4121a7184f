/** No candle after index k influences what is recorded up to candle k. */
module Causality {
  import opened BacktestModels
  import opened BacktestHelpers
  import opened BacktestEngine
  import opened ContextWindows

  /** Two backtests that cannot be told apart with the candles known at index `k`. */
  ghost predicate SameUpTo<S(!new)>(a: Setup<S>, b: Setup<S>, k: nat) {
    && k < |a.candles| && k < |b.candles|
    && a.cfg.Valid() && a.cfg == b.cfg && a.strategy == b.strategy && a.start == b.start
    && a.candles[..k + 1] == b.candles[..k + 1]
    && SortedByTime(a.candles) && SortedByTime(b.candles)
    && a.ctx.Keys == b.ctx.Keys
    && (forall tf <- a.ctx :: SortedByTime(a.ctx[tf]) && SortedByTime(b.ctx[tf])
                              && Upto(a.ctx[tf], a.candles[k].time) == Upto(b.ctx[tf], a.candles[k].time))
    && LlmStep(a.cfg, |a.candles|) == LlmStep(b.cfg, |b.candles|)
  }

  /** Equal in everything but the position, which may have been filled at the next candle's open. */
  ghost predicate SameRecords<S(!new)>(s: Sim<S>, u: Sim<S>) {
    u == s.(pos := u.pos)
  }

  /** Pointers and context prefixes agree at every candle up to `k`. */
  lemma {:induction false} SamePointers<S(!new)>(a: Setup<S>, b: Setup<S>, k: nat, i: nat, tf: string)
    requires SameUpTo(a, b, k) && i <= k && tf in a.ctx
    ensures After(a, i + 1).ptrs[tf] == After(b, i + 1).ptrs[tf]
    ensures a.ctx[tf][..After(a, i + 1).ptrs[tf]] == b.ctx[tf][..After(b, i + 1).ptrs[tf]]
  {
    hide After;
    assert a.candles[i] == a.candles[..k + 1][i] == b.candles[i];
    PointerCountsVisible(a, i, tf);
    PointerCountsVisible(b, i, tf);
    UptoTwice(a.ctx[tf], a.candles[i].time, a.candles[k].time);
    UptoTwice(b.ctx[tf], a.candles[i].time, a.candles[k].time);
  }

  lemma {:induction false} LastOfPrefix(list: seq<Candle>, other: seq<Candle>, ptr: nat, count: int)
    requires ptr <= |list| && ptr <= |other| && list[..ptr] == other[..ptr]
    ensures Last(list, ptr, count) == Last(other, ptr, count)
  {
    if count > 0 {
      var lo := if ptr > count then ptr - count else 0;
      assert list[lo..ptr] == list[..ptr][lo..];
      assert other[lo..ptr] == other[..ptr][lo..];
    }
  }

  /** The strategy is shown the same view. */
  lemma {:induction false} SameView<S(!new)>(a: Setup<S>, b: Setup<S>, k: nat, i: nat)
    requires SameUpTo(a, b, k) && i <= k
    ensures After(a, i + 1).ptrs == After(b, i + 1).ptrs
    ensures MakeView(a.cfg, a.candles, i, a.ctx, After(a, i + 1).ptrs) ==
            MakeView(b.cfg, b.candles, i, b.ctx, After(b, i + 1).ptrs)
  {
    hide After;
    forall tf <- a.ctx
      ensures After(a, i + 1).ptrs[tf] == After(b, i + 1).ptrs[tf]
      ensures var n := ContextCount(a.cfg, tf, DEFAULT_CONTEXT_COUNT);
        Last(a.ctx[tf], After(a, i + 1).ptrs[tf], n) == Last(b.ctx[tf], After(b, i + 1).ptrs[tf], n)
    {
      SamePointers(a, b, k, i, tf);
      LastOfPrefix(a.ctx[tf], b.ctx[tf], After(a, i + 1).ptrs[tf], ContextCount(a.cfg, tf, DEFAULT_CONTEXT_COUNT));
    }
    var lo := if i + 1 > WINDOW then i + 1 - WINDOW else 0;
    assert a.candles[lo..i + 1] == a.candles[..k + 1][lo..i + 1] == b.candles[lo..i + 1];
    assert a.candles[i] == a.candles[..k + 1][i] == b.candles[i];
  }

  /** Opening decisions look at candle `i` and at most one candle further. */
  lemma {:induction false} SameOpening(cfg: Config, xs: seq<Candle>, ys: seq<Candle>, i: nat, sig: Signal,
                                       balance: real)
    requires cfg.Valid() && i + 1 < |xs| && i + 1 < |ys| && xs[i] == ys[i] && xs[i + 1] == ys[i + 1]
    ensures TryOpen(cfg, xs, i, sig, balance) == TryOpen(cfg, ys, i, sig, balance)
  {
    hide LotSize, SpreadPrice;
  }

  /** A pending order, and an action that trades nothing, do not look beyond candle `i`. */
  lemma {:induction false} SamePendingOpening(cfg: Config, xs: seq<Candle>, ys: seq<Candle>, i: nat, sig: Signal,
                                              balance: real)
    requires cfg.Valid() && i < |xs| && i < |ys| && xs[i] == ys[i] && sig.action !in {Buy, Sell}
    ensures TryOpen(cfg, xs, i, sig, balance) == TryOpen(cfg, ys, i, sig, balance)
  {
    hide LotSize, SpreadPrice;
  }

  /** From state `s` after the exit check of candle `i`, the run acts on a market order, filled at the next open. */
  ghost predicate MarketOrder<S(!new)>(a: Setup<S>, i: nat, s: Sim<S>)
    requires i < |a.candles| && PtrsValid(a.ctx, s.ptrs)
  {
    && s.pos.None? && i + 1 >= WINDOW
    && var sig := Ask(a, i, s).lastSignal; sig.Some? && sig.value.action in {Buy, Sell}
  }

  /** One signal phase from equal states with equal views. */
  lemma {:induction false} SameSignalPhase<S(!new)>(a: Setup<S>, b: Setup<S>, k: nat, i: nat, s: Sim<S>)
    requires SameUpTo(a, b, k) && i <= k && PtrsValid(a.ctx, s.ptrs) && PtrsValid(b.ctx, s.ptrs)
    requires MakeView(a.cfg, a.candles, i, a.ctx, s.ptrs) == MakeView(b.cfg, b.candles, i, b.ctx, s.ptrs)
    ensures SameRecords(SignalPhase(a, i, s), SignalPhase(b, i, s))
    ensures i < k || !MarketOrder(a, i, s) ==> SignalPhase(a, i, s) == SignalPhase(b, i, s)
  {
    assert a.candles[i] == a.candles[..k + 1][i] == b.candles[i];
    hide TryOpen, MakeView, LlmStep;
    if i < k {
      assert a.candles[i] == a.candles[..k + 1][i] == b.candles[i];
      assert a.candles[i + 1] == a.candles[..k + 1][i + 1] == b.candles[i + 1];
      forall sig, balance {:trigger TryOpen(a.cfg, a.candles, i, sig, balance)}
        ensures TryOpen(a.cfg, a.candles, i, sig, balance) == TryOpen(b.cfg, b.candles, i, sig, balance)
      {
        SameOpening(a.cfg, a.candles, b.candles, i, sig, balance);
      }
    } else if s.pos.None? && Ask(a, i, s).lastSignal.Some? {
      var u := Ask(a, i, s);
      if u.lastSignal.value.action !in {Buy, Sell} {
        SamePendingOpening(a.cfg, a.candles, b.candles, i, u.lastSignal.value, u.balance);
      }
    }
  }

  /** One step from equal states: equal records, and equal positions unless the step filled at an unknown open. */
  lemma {:induction false} SameStep<S(!new)>(a: Setup<S>, b: Setup<S>, k: nat, i: nat)
    requires SameUpTo(a, b, k) && i <= k && After(a, i) == After(b, i)
    ensures SameRecords(After(a, i + 1), After(b, i + 1))
    ensures i < k || !MarketOrder(a, i, Exited(a, i, After(a, i))) ==> After(a, i + 1) == After(b, i + 1)
  {
    hide After, MarketOrder, ExitPhase, SignalPhase, MakeView;
    AfterStep(a, i);
    AfterStep(b, i);
    SameView(a, b, k, i);
    assert a.candles[i] == a.candles[..k + 1][i] == b.candles[i];
    var x := Exited(a, i, After(a, i));
    assert After(a, i + 1) == SignalPhase(a, i, x);
    assert x == Exited(b, i, After(b, i));
    assert After(b, i + 1) == SignalPhase(b, i, x);
    SameSignalPhase(a, b, k, i, x);
  }

  lemma {:induction false} SameBefore<S(!new)>(a: Setup<S>, b: Setup<S>, k: nat, i: nat)
    requires SameUpTo(a, b, k) && i <= k
    ensures After(a, i) == After(b, i)
  {
    hide After;
    if i == 0 {
      AfterNone(a);
      AfterNone(b);
      assert Start(a).ptrs == Start(b).ptrs;
    } else {
      SameBefore(a, b, k, i - 1);
      SameStep(a, b, k, i - 1);
    }
  }

  /** Causality: after candle `k` both runs hold the same trades, equity curve, balance, strategy state and held
      signal; and the same position too, unless a market order is filled at candle k + 1's open. */
  lemma {:induction false} RecordsAreCausal<S(!new)>(a: Setup<S>, b: Setup<S>, k: nat)
    requires SameUpTo(a, b, k)
    ensures SameRecords(After(a, k + 1), After(b, k + 1))
    ensures !MarketOrder(a, k, Exited(a, k, After(a, k))) ==> After(a, k + 1) == After(b, k + 1)
  {
    hide After, Exited, MarketOrder;
    SameBefore(a, b, k, k);
    SameStep(a, b, k, k);
  }

  lemma {:induction false} StepOnlyAppends<S>(a: Setup<S>, i: nat, s: Sim<S>)
    requires a.cfg.Valid() && i < |a.candles| && PtrsValid(a.ctx, s.ptrs)
    ensures s.trades <= Step(a, i, s).trades && s.equity <= Step(a, i, s).equity
  {
    hide Decide, Net, Record, TryOpen, MakeView, AdvanceAll;
  }

  /** Recorded trades and equity points are never rewritten. */
  lemma {:induction false} RecordsOnlyGrow<S>(a: Setup<S>, k: nat, n: nat)
    requires a.cfg.Valid() && k <= n <= |a.candles|
    ensures After(a, k).trades <= After(a, n).trades && After(a, k).equity <= After(a, n).equity
  {
    hide After, Step;
    if k < n {
      AfterStep(a, n - 1);
      StepOnlyAppends(a, n - 1, After(a, n - 1));
      RecordsOnlyGrow(a, k, n - 1);
    }
  }

  /** The finished results of both runs start with the same records: those made up to candle `k`. */
  lemma {:induction false} FinalResultsShareThePast<S(!new)>(a: Setup<S>, b: Setup<S>, k: nat)
    requires SameUpTo(a, b, k)
    ensures After(a, k + 1).trades == After(b, k + 1).trades && After(a, k + 1).equity == After(b, k + 1).equity
    ensures After(a, k + 1).trades <= Final(a).trades && After(a, k + 1).trades <= Final(b).trades
    ensures After(a, k + 1).equity <= Final(a).equity && After(a, k + 1).equity <= Final(b).equity
  {
    hide After, Net, Record;
    RecordsAreCausal(a, b, k);
    RecordsOnlyGrow(a, k + 1, |a.candles|);
    RecordsOnlyGrow(b, k + 1, |b.candles|);
  }
}
