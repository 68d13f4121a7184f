/** The simulator as it runs: one loop over candles updating its locals and one position object in place. */
module BacktestRun {
  import opened Options
  import opened PyRound
  import opened BacktestModels
  import opened BacktestHelpers
  import opened BacktestEngine
  import CW = ContextWindows

  /** Move one pointer past the candles that are not later than `t`; `rounds` counts the rounds of the loop. */
  method AdvancePointer(list: seq<Candle>, start: nat, t: int) returns (ptr: nat, ghost rounds: nat)
    requires start <= |list|
    ensures ptr == AdvancePtr(list, start, t) && rounds == AdvanceSteps(list, start, t)
  {
    ptr, rounds := start, 0;
    while ptr < |list| && list[ptr].time <= t
      invariant ptr <= |list|
      invariant AdvancePtr(list, ptr, t) == AdvancePtr(list, start, t)
      invariant rounds + AdvanceSteps(list, ptr, t) == AdvanceSteps(list, start, t)
    {
      ptr := ptr + 1;
      rounds := rounds + 1;
    }
  }

  /** Move every context pointer, timeframe by timeframe; `steps` holds the rounds of each timeframe's loop. */
  method AdvancePointers(ctx: map<string, seq<Candle>>, start: map<string, nat>, t: int)
    returns (ptrs: map<string, nat>, ghost steps: map<string, nat>)
    requires PtrsValid(ctx, start)
    ensures ptrs == AdvanceAll(ctx, start, t)
    ensures steps == map tf <- ctx :: AdvanceSteps(ctx[tf], start[tf], t)
  {
    hide AdvancePtr, AdvanceSteps;
    ptrs, steps := start, map[];
    var todo := ctx.Keys;
    while todo != {}
      invariant todo <= ctx.Keys == ptrs.Keys
      invariant forall tf <- ctx :: ptrs[tf] == if tf in todo then start[tf] else AdvancePtr(ctx[tf], start[tf], t)
      invariant steps == map tf <- ctx | tf !in todo :: AdvanceSteps(ctx[tf], start[tf], t)
    {
      var tf :| tf in todo;
      var ptr;
      ghost var rounds;
      ptr, rounds := AdvancePointer(ctx[tf], ptrs[tf], t);
      ptrs := ptrs[tf := ptr];
      steps := steps[tf := rounds];
      todo := todo - {tf};
    }
  }

  /** The context windows shown to the strategy, collected timeframe by timeframe. */
  method ContextWindows(cfg: Config, ctx: map<string, seq<Candle>>, ptrs: map<string, nat>)
    returns (windows: map<string, seq<Candle>>)
    requires PtrsValid(ctx, ptrs)
    ensures windows == map tf | tf in ctx && tf != cfg.primaryTf && ptrs[tf] != 0 ::
                         Last(ctx[tf], ptrs[tf], ContextCount(cfg, tf, DEFAULT_CONTEXT_COUNT))
  {
    windows := map[];
    var todo := ctx.Keys;
    while todo != {}
      invariant todo <= ctx.Keys
      invariant windows == map tf | tf in ctx && tf !in todo && tf != cfg.primaryTf && ptrs[tf] != 0 ::
                             Last(ctx[tf], ptrs[tf], ContextCount(cfg, tf, DEFAULT_CONTEXT_COUNT))
    {
      var tf :| tf in todo;
      todo := todo - {tf};
      if tf != cfg.primaryTf && ptrs[tf] != 0 {
        windows := windows[tf := Last(ctx[tf], ptrs[tf], ContextCount(cfg, tf, DEFAULT_CONTEXT_COUNT))];
      }
    }
  }

  /** The value of a possibly absent position object. */
  ghost function Held(o: OpenPosition?): Option<Position>
    reads o
  {
    if o == null then None else Some(o.Value())
  }

  /** One candle's exit work on the live position object; the results refine `ExitPhase`. */
  method ApplyExit<S>(cfg: Config, pos: OpenPosition, c: Candle, balance: real, trades: seq<Trade>,
                      equity: seq<EquityPoint>, ghost s: Sim<S>)
    returns (pos': OpenPosition?, balance': real, trades': seq<Trade>, equity': seq<EquityPoint>)
    requires s.pos == Some(pos.Value()) && s.balance == balance && s.trades == trades && s.equity == equity
    modifies pos
    ensures pos' == null || pos' == pos
    ensures ExitPhase(cfg, s, c) == s.(pos := Held(pos'), balance := balance', trades := trades', equity := equity')
  {
    pos', balance', trades', equity' := pos, balance, trades, equity;
    var spread := SpreadPrice(cfg, c);
    var closed, partial := CheckExit(pos, c, cfg.closePriceMode, cfg.tpRatio, spread);
    if partial.Some? {
      var out := partial.value;
      var profit := Net(cfg, pos.Value(), out.price, out.volumeClosed);
      balance' := balance' + profit;
      trades' := trades' + [Record(pos.Value(), out.volumeClosed, out.time, out.price, out.reason, profit, balance')];
      equity' := equity' + [EquityPoint(out.time, Round(balance', 10000.0))];
      pos.volume := pos.volume - out.volumeClosed;
      if pos.volume < MIN_VOLUME {
        pos' := null;
      } else {
        pos.stopLoss := out.newStop;
      }
    }
    if closed.Some? && pos' != null {
      var exit := closed.value;
      var profit := Net(cfg, pos.Value(), exit.price, pos.volume);
      balance' := balance' + profit;
      trades' := trades' + [Record(pos.Value(), pos.volume, exit.time, exit.price, exit.reason, profit, balance')];
      equity' := equity' + [EquityPoint(exit.time, Round(balance', 10000.0))];
      pos' := null;
    }
  }

  /** One candle's signal work while flat; the results refine `SignalPhase`. */
  method ApplySignal<S>(a: Setup<S>, i: nat, step: nat, strat: S, balance: real, held: Option<Signal>,
                        ptrs: map<string, nat>, ghost s: Sim<S>)
    returns (strat': S, lastSignal: Option<Signal>, found: Option<Position>)
    requires a.cfg.Valid() && i < |a.candles| && PtrsValid(a.ctx, ptrs) && step == LlmStep(a.cfg, |a.candles|)
    requires s.pos.None? && s.strat == strat && s.balance == balance && s.lastSignal == held && s.ptrs == ptrs
    ensures SignalPhase(a, i, s) == s.(strat := strat', lastSignal := lastSignal, pos := found)
  {
    strat', lastSignal, found := strat, held, None;
    if i >= WINDOW - 1 {
      var window := a.candles[(if i + 1 > WINDOW then i + 1 - WINDOW else 0)..i + 1];
      if step == 0 || i % step == 0 {
        var contexts := map[];
        if a.cfg.isMtf {
          contexts := ContextWindows(a.cfg, a.ctx, ptrs);
        }
        var view := View(a.candles[i], window, contexts);
        assert view == MakeView(a.cfg, a.candles, i, a.ctx, ptrs);
        var (next, out) := a.strategy(strat, view);
        strat' := next;
        lastSignal := if out.Returned? then out.signal else None;
      }
      if lastSignal.Some? {
        found := TryOpen(a.cfg, a.candles, i, lastSignal.value, balance);
      }
    }
  }

  /** The locals of the loop hold the state `s`. */
  ghost predicate Holds<S>(s: Sim<S>, strat: S, balance: real, open: OpenPosition?, trades: seq<Trade>,
                           equity: seq<EquityPoint>, lastSignal: Option<Signal>, ptrs: map<string, nat>)
    reads open
  {
    s.strat == strat && s.balance == balance && s.pos == Held(open) && s.trades == trades && s.equity == equity
    && s.lastSignal == lastSignal && s.ptrs == ptrs
  }

  /** The loop body: one candle. The locals it returns hold the state after `Step`. */
  method DoCandle<S>(a: Setup<S>, i: nat, step: nat, strat: S, balance: real, open: OpenPosition?, trades: seq<Trade>,
                     equity: seq<EquityPoint>, held: Option<Signal>, ptrs: map<string, nat>, ghost s: Sim<S>)
    returns (strat': S, balance': real, open': OpenPosition?, trades': seq<Trade>, equity': seq<EquityPoint>,
             lastSignal: Option<Signal>, ptrs': map<string, nat>, ghost steps: map<string, nat>)
    requires a.cfg.Valid() && i < |a.candles| && PtrsValid(a.ctx, s.ptrs) && step == LlmStep(a.cfg, |a.candles|)
    requires Holds(s, strat, balance, open, trades, equity, held, ptrs)
    modifies open
    ensures open' == null || open' == open || fresh(open')
    ensures Holds(Step(a, i, s), strat', balance', open', trades', equity', lastSignal, ptrs')
    ensures steps == map tf <- a.ctx :: AdvanceSteps(a.ctx[tf], ptrs[tf], a.candles[i].time)
  {
    hide SignalPhase, ExitPhase, AdvanceAll, LlmStep;
    strat', balance', open', trades', equity', lastSignal := strat, balance, open, trades, equity, held;
    ptrs', steps := AdvancePointers(a.ctx, ptrs, a.candles[i].time);
    ghost var t := Advanced(a, i, s);
    if open' != null {
      open', balance', trades', equity' := ApplyExit(a.cfg, open', a.candles[i], balance', trades', equity', t);
    }
    ghost var u := Exited(a, i, s);
    assert Holds(u, strat', balance', open', trades', equity', lastSignal, ptrs') by {
      FlatStaysFlat(a.cfg, t, a.candles[i]);
    }
    if open' == null {
      var found;
      strat', lastSignal, found := ApplySignal(a, i, step, strat', balance', lastSignal, ptrs', u);
      if found.Some? {
        open' := new OpenPosition(found.value);
      }
    } else {
      HoldingSkipsSignals(a, i, u);
    }
  }

  lemma {:induction false} FlatStaysFlat<S>(cfg: Config, s: Sim<S>, c: Candle)
    ensures s.pos.None? ==> ExitPhase(cfg, s, c) == s
  {
  }

  lemma {:induction false} HoldingSkipsSignals<S>(a: Setup<S>, i: nat, s: Sim<S>)
    requires a.cfg.Valid() && i < |a.candles| && PtrsValid(a.ctx, s.ptrs)
    ensures s.pos.Some? ==> SignalPhase(a, i, s) == s
  {
    hide TryOpen, MakeView;
  }

  /** `moves` holds, for each context timeframe, the rounds of its pointer loop over the first `k` candles. */
  ghost predicate Counted<S>(a: Setup<S>, k: nat, moves: map<string, nat>)
    requires a.cfg.Valid() && k <= |a.candles|
  {
    moves.Keys == a.ctx.Keys && forall tf <- a.ctx :: moves[tf] == CW.Moves(a, tf, k)
  }

  ghost function Added(moves: map<string, nat>, steps: map<string, nat>): map<string, nat> {
    map tf | tf in moves && tf in steps :: moves[tf] + steps[tf]
  }

  lemma {:induction false} NothingCounted<S>(a: Setup<S>)
    requires a.cfg.Valid()
    ensures Counted(a, 0, map tf <- a.ctx :: 0)
  {
  }

  lemma {:induction false} CountedStep<S>(a: Setup<S>, i: nat, moves: map<string, nat>, steps: map<string, nat>)
    requires a.cfg.Valid() && i < |a.candles| && Counted(a, i, moves)
    requires steps == map tf <- a.ctx :: AdvanceSteps(a.ctx[tf], After(a, i).ptrs[tf], a.candles[i].time)
    ensures Counted(a, i + 1, Added(moves, steps))
  {
    hide After, AdvanceSteps;
  }

  lemma {:induction false} CountedBounded<S>(a: Setup<S>, moves: map<string, nat>)
    requires a.cfg.Valid() && Counted(a, |a.candles|, moves)
    ensures moves.Keys == a.ctx.Keys && forall tf <- a.ctx :: moves[tf] <= |a.ctx[tf]|
  {
    hide After;
    forall tf <- a.ctx
      ensures CW.Moves(a, tf, |a.candles|) <= |a.ctx[tf]|
    {
      CW.TotalMovesBounded(a, tf, |a.candles|);
    }
  }

  /** The whole backtest: what it returns is the trade list and equity curve of `Final`. `moves` counts, for each
      context timeframe, the rounds of the pointer loop over all candles: at most one per candle of the timeframe. */
  method Run<S>(a: Setup<S>) returns (trades: seq<Trade>, equity: seq<EquityPoint>, ghost moves: map<string, nat>)
    requires a.cfg.Valid()
    ensures trades == Final(a).trades && equity == Final(a).equity
    ensures moves.Keys == a.ctx.Keys && forall tf <- a.ctx :: moves[tf] <= |a.ctx[tf]|
    ensures Counted(a, |a.candles|, moves)
  {
    hide After, Step, LlmStep, Net, Record, Counted;
    AfterNone(a);
    var cfg, candles := a.cfg, a.candles;
    var balance := cfg.initialBalance;
    var step := LlmStep(cfg, |candles|);
    var open: OpenPosition? := null;
    var lastSignal: Option<Signal> := None;
    var strat := a.start;
    var ptrs: map<string, nat> := map tf <- a.ctx :: 0;
    trades, equity, moves := [], [], ptrs;
    assert Counted(a, 0, moves) by {
      NothingCounted(a);
    }
    for i := 0 to |candles|
      invariant open != null ==> fresh(open)
      invariant Holds(After(a, i), strat, balance, open, trades, equity, lastSignal, ptrs)
      invariant Counted(a, i, moves)
    {
      AfterStep(a, i);
      ghost var steps;
      strat, balance, open, trades, equity, lastSignal, ptrs, steps :=
        DoCandle(a, i, step, strat, balance, open, trades, equity, lastSignal, ptrs, After(a, i));
      CountedStep(a, i, moves, steps);
      moves := Added(moves, steps);
    }
    CountedBounded(a, moves);
    if open != null {
      var last := candles[|candles| - 1];
      var profit := Net(cfg, open.Value(), last.close, open.volume);
      balance := balance + profit;
      trades := trades + [Record(open.Value(), open.volume, last.time, Round(last.close, 100000.0), EndOfData,
                                 profit, balance)];
      equity := equity + [EquityPoint(last.time, Round(balance, 10000.0))];
    }
  }
}
