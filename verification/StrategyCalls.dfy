/** When a run asks its strategy, what the strategy is shown, and what becomes of its answer. */
module StrategyCalls {
  import opened Integers
  import opened Options
  import opened BacktestModels
  import opened BacktestEngine

  /** The run asks at candle `i`: it is flat after the exit check, there are fifty candles to show, and a sampled
      strategy is due. */
  ghost predicate Asked<S(!new)>(a: Setup<S>, i: nat)
    requires a.cfg.Valid() && i < |a.candles|
  {
    && Exited(a, i, After(a, i)).pos.None? && i >= 49
    && (a.cfg.isLlm && a.cfg.maxLlmCalls > 0 ==> i % Max(|a.candles| / a.cfg.maxLlmCalls, 1) == 0)
  }

  /** The view shows the candle `i`, the fifty candles that end with it, and no context if it has but one timeframe. */
  ghost predicate Shows<S(!new)>(a: Setup<S>, i: nat, v: View)
    requires 49 <= i < |a.candles|
  {
    && v.candle == a.candles[i]
    && |v.window| == 50 && (forall j | 0 <= j < 50 :: v.window[j] == a.candles[i - 49 + j])
    && (!a.cfg.isMtf ==> v.contexts == map[])
  }

  /** The strategy's answer to the view is its new state and the signal held from then on; no signal is held after it
      raised. */
  ghost predicate Answers<S(!new)>(a: Setup<S>, i: nat, v: View)
    requires a.cfg.Valid() && i < |a.candles|
  {
    var answer := a.strategy(After(a, i).strat, v);
    && After(a, i + 1).strat == answer.0
    && After(a, i + 1).lastSignal == (match answer.1 case Returned(signal) => signal case Raised => None)
  }

  lemma {:induction false} WindowIsTheLastFifty(cfg: Config, candles: seq<Candle>, i: nat,
                                                ctx: map<string, seq<Candle>>, ptrs: map<string, nat>)
    requires 49 <= i < |candles| && PtrsValid(ctx, ptrs)
    ensures var v := MakeView(cfg, candles, i, ctx, ptrs);
      && v.candle == candles[i] && |v.window| == 50 && (forall j | 0 <= j < 50 :: v.window[j] == candles[i - 49 + j])
      && (!cfg.isMtf ==> v.contexts == map[])
  {
    hide Last, ContextCount;
  }

  lemma {:induction false} ExitsLeaveTheStrategy<S(!new)>(a: Setup<S>, i: nat, s: Sim<S>)
    requires i < |a.candles| && PtrsValid(a.ctx, s.ptrs)
    ensures var x := Exited(a, i, s);
      x.strat == s.strat && x.lastSignal == s.lastSignal && x.ptrs == AdvanceAll(a.ctx, s.ptrs, a.candles[i].time)
  {
    hide AdvanceAll;
  }

  lemma {:induction false} AskedIsCalled<S(!new)>(a: Setup<S>, i: nat)
    requires a.cfg.Valid() && i < |a.candles|
    ensures Asked(a, i) <==> Calls(a.cfg, |a.candles|, i, Exited(a, i, After(a, i)))
  {
    hide After, Exited;
  }

  /** Whenever the run asks, the strategy is shown the fifty candles up to the present one and its answer is adopted;
      whenever it does not ask, the strategy's state and the held signal stay. */
  lemma {:induction false} StrategySeesTheLastFifty<S(!new)>(a: Setup<S>, i: nat)
    requires a.cfg.Valid() && i < |a.candles|
    ensures if Asked(a, i) then
              exists v :: Shows(a, i, v) && Answers(a, i, v)
                          && v == MakeView(a.cfg, a.candles, i, a.ctx, After(a, i + 1).ptrs)
            else After(a, i + 1).strat == After(a, i).strat && After(a, i + 1).lastSignal == After(a, i).lastSignal
  {
    AskedIsCalled(a, i);
    ExitsLeaveTheStrategy(a, i, After(a, i));
    AfterStep(a, i);
    var x := Exited(a, i, After(a, i));
    if Asked(a, i) {
      WindowIsTheLastFifty(a.cfg, a.candles, i, a.ctx, x.ptrs);
      var v := MakeView(a.cfg, a.candles, i, a.ctx, x.ptrs);
      hide After, Exited, Calls, MakeView;
      assert Shows(a, i, v);
      assert Answers(a, i, v);
    }
    hide After, Exited, Calls, MakeView, Asked;
  }
}
