/** The candle loop of the backtest simulator: a step function over candles, and the loop that runs it. */
module BacktestEngine {
  import opened Options
  import opened PyRound
  import opened BacktestModels
  import opened BacktestHelpers

  /** Number of candles a strategy call sees, and the first index at which one is made. */
  const WINDOW: nat := 50
  /** Context candles shown when the strategy does not say how many it wants. */
  const DEFAULT_CONTEXT_COUNT := 20

  /** Everything the simulator owns between two candles. `S` is the strategy's own state. */
  datatype Sim<S> = Sim(
    strat: S, balance: real, pos: Option<Position>, trades: seq<Trade>, equity: seq<EquityPoint>,
    lastSignal: Option<Signal>, ptrs: map<string, nat>)

  /** One backtest: its inputs and a deterministic strategy. */
  datatype Setup<!S> = Setup(
    cfg: Config, candles: seq<Candle>, ctx: map<string, seq<Candle>>, strategy: (S, View) -> (S, Outcome), start: S)

  // ----- context pointers

  function AdvancePtr(list: seq<Candle>, ptr: nat, t: int): (p: nat)
    requires ptr <= |list|
    ensures ptr <= p <= |list|
    decreases |list| - ptr
  {
    if ptr < |list| && list[ptr].time <= t then AdvancePtr(list, ptr + 1, t) else ptr
  }

  /** Times the pointer loop goes round before it stops. */
  function AdvanceSteps(list: seq<Candle>, ptr: nat, t: int): nat
    requires ptr <= |list|
    decreases |list| - ptr
  {
    if ptr < |list| && list[ptr].time <= t then 1 + AdvanceSteps(list, ptr + 1, t) else 0
  }

  ghost predicate PtrsValid(ctx: map<string, seq<Candle>>, ptrs: map<string, nat>) {
    ptrs.Keys == ctx.Keys && forall tf <- ctx :: ptrs[tf] <= |ctx[tf]|
  }

  function AdvanceAll(ctx: map<string, seq<Candle>>, ptrs: map<string, nat>, t: int): (r: map<string, nat>)
    requires PtrsValid(ctx, ptrs)
    ensures PtrsValid(ctx, r)
  {
    map tf <- ctx :: AdvancePtr(ctx[tf], ptrs[tf], t)
  }

  // ----- exits

  /** What closing `volume` at `price` adds to the balance. */
  function Net(cfg: Config, p: Position, price: real, volume: real): real {
    Gross(p.direction, p.entryPrice, price, volume, cfg.contractSize) - cfg.commissionPerLot * volume
  }

  /** The trade record of closing `volume` of `p`, shown at `price`, with its rounded profit and balance. */
  function Record(p: Position, volume: real, time: int, price: real, reason: Reason, net: real, balance: real): Trade {
    Trade(p.direction, p.entryTime, p.entryPrice, p.stopLoss, p.takeProfit, volume,
          time, price, reason, Round(net, 10000.0), Round(balance, 10000.0))
  }

  /** Book `volume` of `p` as closed at `price`: balance, trade list and equity curve. */
  function Book<S>(cfg: Config, s: Sim<S>, p: Position, volume: real, time: int, price: real, shown: real,
                   reason: Reason): Sim<S>
  {
    var net := Net(cfg, p, price, volume);
    s.(balance := s.balance + net,
       trades := s.trades + [Record(p, volume, time, shown, reason, net, s.balance + net)],
       equity := s.equity + [EquityPoint(time, Round(s.balance + net, 10000.0))])
  }

  /** Positions below this volume are dropped. */
  const MIN_VOLUME := 0.001

  /** Check the open position, if any, against one candle. */
  function ExitPhase<S>(cfg: Config, s: Sim<S>, c: Candle): Sim<S> {
    if s.pos.None? then s
    else
      var p := s.pos.value;
      match Decide(p, c, cfg.closePriceMode, cfg.tpRatio, SpreadPrice(cfg, c))
      case Keep => s
      case Close(e) => Book(cfg, s, p, p.volume, e.time, e.price, e.price, e.reason).(pos := None)
      case Partial(o) =>
        var left := p.volume - o.volumeClosed;
        Book(cfg, s, p, o.volumeClosed, o.time, o.price, o.price, o.reason).(
          pos := if left < MIN_VOLUME then None
                 else Some(p.(volume := left, stopLoss := o.newStop, levelIdx := p.levelIdx + 1)))
  }

  // ----- signals

  /** LLM strategies are sampled every `LlmStep` candles; 0 means no sampling. */
  function LlmStep(cfg: Config, total: nat): nat {
    if cfg.isLlm && cfg.maxLlmCalls > 0 then
      var q := total / cfg.maxLlmCalls;
      if q > 1 then q else 1
    else 0
  }

  /** The last `count` elements before position `ptr`. */
  function Last(list: seq<Candle>, ptr: nat, count: int): seq<Candle>
    requires ptr <= |list|
  {
    if count <= 0 then [] else list[(if ptr > count then ptr - count else 0)..ptr]
  }

  function ContextCount(cfg: Config, tf: string, default: int): int {
    if tf in cfg.candleCounts then cfg.candleCounts[tf] else default
  }

  function MakeView(cfg: Config, candles: seq<Candle>, i: nat, ctx: map<string, seq<Candle>>,
                    ptrs: map<string, nat>): View
    requires i < |candles| && PtrsValid(ctx, ptrs)
  {
    var window := candles[(if i + 1 > WINDOW then i + 1 - WINDOW else 0)..i + 1];
    var contexts :=
      if cfg.isMtf then
        map tf | tf in ctx && tf != cfg.primaryTf && ptrs[tf] != 0 ::
          Last(ctx[tf], ptrs[tf], ContextCount(cfg, tf, DEFAULT_CONTEXT_COUNT))
      else map[];
    View(candles[i], window, contexts)
  }

  /** The strategy is called at candle `i`, given the state after that candle's exit check. */
  predicate Calls<S>(cfg: Config, total: nat, i: nat, s: Sim<S>) {
    s.pos.None? && i + 1 >= WINDOW && var k := LlmStep(cfg, total); (k == 0 || i % k == 0)
  }

  /** The state after the strategy was asked, or after its held signal was kept. */
  function Ask<S>(a: Setup<S>, i: nat, s: Sim<S>): (r: Sim<S>)
    requires i < |a.candles| && PtrsValid(a.ctx, s.ptrs)
    ensures r == s.(strat := r.strat, lastSignal := r.lastSignal)
  {
    if Calls(a.cfg, |a.candles|, i, s) then
      var (strat, out) := a.strategy(s.strat, MakeView(a.cfg, a.candles, i, a.ctx, s.ptrs));
      s.(strat := strat, lastSignal := if out.Returned? then out.signal else None)
    else s
  }

  /** While flat and with a full window, ask the strategy and try to open a position on its signal. */
  function SignalPhase<S>(a: Setup<S>, i: nat, s: Sim<S>): (r: Sim<S>)
    requires a.cfg.Valid() && i < |a.candles| && PtrsValid(a.ctx, s.ptrs)
    ensures r.ptrs == s.ptrs
  {
    if s.pos.Some? || i + 1 < WINDOW then s
    else
      var asked := Ask(a, i, s);
      if asked.lastSignal.None? then asked
      else asked.(pos := TryOpen(a.cfg, a.candles, i, asked.lastSignal.value, asked.balance))
  }

  function Start<S>(a: Setup<S>): Sim<S> {
    Sim(a.start, a.cfg.initialBalance, None, [], [], None, map tf <- a.ctx :: 0)
  }

  function Advanced<S>(a: Setup<S>, i: nat, s: Sim<S>): (r: Sim<S>)
    requires i < |a.candles| && PtrsValid(a.ctx, s.ptrs)
    ensures PtrsValid(a.ctx, r.ptrs)
  {
    s.(ptrs := AdvanceAll(a.ctx, s.ptrs, a.candles[i].time))
  }

  /** The state after candle `i`'s pointer moves and exit check. */
  function Exited<S>(a: Setup<S>, i: nat, s: Sim<S>): (r: Sim<S>)
    requires i < |a.candles| && PtrsValid(a.ctx, s.ptrs)
    ensures PtrsValid(a.ctx, r.ptrs)
  {
    ExitPhase(a.cfg, Advanced(a, i, s), a.candles[i])
  }

  function Step<S>(a: Setup<S>, i: nat, s: Sim<S>): (r: Sim<S>)
    requires a.cfg.Valid() && i < |a.candles| && PtrsValid(a.ctx, s.ptrs)
    ensures PtrsValid(a.ctx, r.ptrs) && r.ptrs == AdvanceAll(a.ctx, s.ptrs, a.candles[i].time)
  {
    SignalPhase(a, i, Exited(a, i, s))
  }

  /** The state after the first `k` candles. */
  function After<S>(a: Setup<S>, k: nat): (r: Sim<S>)
    requires a.cfg.Valid() && k <= |a.candles|
    ensures PtrsValid(a.ctx, r.ptrs)
  {
    if k == 0 then Start(a) else Step(a, k - 1, After(a, k - 1))
  }

  lemma {:induction false} AfterNone<S>(a: Setup<S>)
    requires a.cfg.Valid()
    ensures After(a, 0) == Start(a)
  {
    hide Start, Step;
  }

  lemma {:induction false} AfterStep<S>(a: Setup<S>, i: nat)
    requires a.cfg.Valid() && i < |a.candles|
    ensures After(a, i + 1) == Step(a, i, After(a, i))
  {
    hide Start, Step;
  }

  /** Until there is a full window the strategy is not asked, and only the context pointers move. */
  lemma {:induction false} FlatUntilAsked<S>(a: Setup<S>, k: nat)
    requires a.cfg.Valid() && k <= |a.candles| && k < WINDOW
    ensures After(a, k) == Start(a).(ptrs := After(a, k).ptrs)
  {
    hide After, TryOpen, Ask, AdvanceAll;
    if k == 0 {
      AfterNone(a);
    } else {
      FlatUntilAsked(a, k - 1);
      AfterStep(a, k - 1);
    }
  }

  /** A position still open after the last candle is closed at that candle's close. */
  function CloseAtEnd<S>(cfg: Config, s: Sim<S>, last: Candle): Sim<S> {
    if s.pos.None? then s
    else
      var p, shown := s.pos.value, Round(last.close, 100000.0);
      Book(cfg, s, p, p.volume, last.time, last.close, shown, EndOfData).(pos := None)
  }

  function Final<S>(a: Setup<S>): Sim<S>
    requires a.cfg.Valid()
  {
    if a.candles == [] then Start(a)
    else CloseAtEnd(a.cfg, After(a, |a.candles|), a.candles[|a.candles| - 1])
  }
}
