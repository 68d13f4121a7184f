/** BUY and SELL are mirror images: negate every price, swap high and low, flip the direction. */
module Mirror {
  import opened Options
  import opened PyRound
  import opened Reals
  import opened BacktestModels
  import opened BacktestHelpers
  import opened BacktestEngine

  function Flip(d: Direction): Direction {
    if d == BUY then SELL else BUY
  }

  function FlipAction(a: Action): Action {
    match a
    case Buy => Sell
    case Sell => Buy
    case BuyLimit => SellLimit
    case SellLimit => BuyLimit
    case BuyStop => SellStop
    case SellStop => BuyStop
    case NoTrade => NoTrade
  }

  function OfCandle(c: Candle): Candle {
    c.(open := -c.open, high := -c.low, low := -c.high, close := -c.close)
  }

  function OfCandles(cs: seq<Candle>): (r: seq<Candle>)
    ensures |r| == |cs|
    ensures forall i | 0 <= i < |cs| :: r[i] == OfCandle(cs[i])
  {
    seq(|cs|, i requires 0 <= i < |cs| => OfCandle(cs[i]))
  }

  function OfContexts(m: map<string, seq<Candle>>): map<string, seq<Candle>> {
    map tf <- m :: OfCandles(m[tf])
  }

  function OfView(v: View): View {
    View(OfCandle(v.candle), OfCandles(v.window), OfContexts(v.contexts))
  }

  function OfPosition(p: Position): Position {
    p.(direction := Flip(p.direction), entryPrice := -p.entryPrice, stopLoss := -p.stopLoss,
       takeProfit := -p.takeProfit, levels := Negated(p.levels))
  }

  function OfPos(p: Option<Position>): Option<Position> {
    if p.None? then None else Some(OfPosition(p.value))
  }

  function OfSignal(s: Signal): Signal {
    Signal(FlipAction(s.action), if s.entry.None? then None else Some(-s.entry.value),
           -s.stopLoss, -s.takeProfit, Negated(s.levels))
  }

  function OfHeld(s: Option<Signal>): Option<Signal> {
    if s.None? then None else Some(OfSignal(s.value))
  }

  function OfOutcome(o: Outcome): Outcome {
    if o.Raised? then Raised else Returned(OfHeld(o.signal))
  }

  /** Same volume, reason, times, profit and balance; negated prices. */
  function OfTrade(t: Trade): Trade {
    t.(direction := Flip(t.direction), entryPrice := -t.entryPrice, stopLoss := -t.stopLoss,
       takeProfit := -t.takeProfit, exitPrice := -t.exitPrice)
  }

  function OfTrades(ts: seq<Trade>): (r: seq<Trade>)
    ensures |r| == |ts|
  {
    seq(|ts|, i requires 0 <= i < |ts| => OfTrade(ts[i]))
  }

  function OfSim<S>(s: Sim<S>): Sim<S> {
    s.(pos := OfPos(s.pos), trades := OfTrades(s.trades), lastSignal := OfHeld(s.lastSignal))
  }

  function OfDecision(d: Decision): Decision {
    match d
    case Keep => Keep
    case Close(e) => Close(e.(price := -e.price))
    case Partial(o) => Partial(o.(price := -o.price, newStop := -o.newStop))
  }

  // ----- exits

  lemma {:induction false} DecideMirrors(p: Position, c: Candle, closeMode: bool, ratio: real, spread: real)
    ensures Decide(OfPosition(p), OfCandle(c), closeMode, ratio, spread) ==
            OfDecision(Decide(p, c, closeMode, ratio, spread))
  {
    assert ActiveTarget(OfPosition(p)) == -ActiveTarget(p);
  }

  lemma {:induction false} NetMirrors(cfg: Config, p: Position, price: real, volume: real)
    ensures Net(cfg, OfPosition(p), -price, volume) == Net(cfg, p, price, volume)
  {
    var x := price - p.entryPrice;
    var g := Sign(p.direction);
    assert -price - -p.entryPrice == -x && Sign(Flip(p.direction)) == -g;
    assert (-x) * (-g) == x * g;
  }

  lemma {:induction false} TradesMirror(ts: seq<Trade>, t: Trade)
    ensures OfTrades(ts + [t]) == OfTrades(ts) + [OfTrade(t)]
  {
  }

  lemma {:induction false} BookMirrors<S>(cfg: Config, s: Sim<S>, p: Position, volume: real, time: int, price: real,
                                          shown: real, reason: Reason)
    ensures Book(cfg, OfSim(s), OfPosition(p), volume, time, -price, -shown, reason)
         == OfSim(Book(cfg, s, p, volume, time, price, shown, reason))
  {
    NetMirrors(cfg, p, price, volume);
    hide Net, Round, OfTrades;
    var net := Net(cfg, p, price, volume);
    TradesMirror(s.trades, Record(p, volume, time, shown, reason, net, s.balance + net));
  }

  lemma {:induction false} SpreadMirrors(cfg: Config, c: Candle)
    ensures SpreadPrice(cfg, OfCandle(c)) == SpreadPrice(cfg, c)
  {
  }

  /** The exit check of the mirrored state on the mirrored candle is the mirror of the exit check. */
  lemma {:induction false} ExitMirrors<S>(cfg: Config, s: Sim<S>, c: Candle)
    ensures ExitPhase(cfg, OfSim(s), OfCandle(c)) == OfSim(ExitPhase(cfg, s, c))
  {
    hide Decide, Book, OfTrades, SpreadPrice, OfCandle, OfPosition;
    if s.pos.Some? {
      var p, spread := s.pos.value, SpreadPrice(cfg, c);
      SpreadMirrors(cfg, c);
      DecideMirrors(p, c, cfg.closePriceMode, cfg.tpRatio, spread);
      assert OfPosition(p).volume == p.volume by {
        PositionMirrors(p, 0.0, 0.0);
      }
      match Decide(p, c, cfg.closePriceMode, cfg.tpRatio, spread)
      case Keep =>
      case Close(e) => BookMirrors(cfg, s, p, p.volume, e.time, e.price, e.price, e.reason);
      case Partial(o) =>
        PositionMirrors(p, p.volume - o.volumeClosed, o.newStop);
        BookMirrors(cfg, s, p, o.volumeClosed, o.time, o.price, o.price, o.reason);
    }
  }

  lemma {:induction false} PositionMirrors(p: Position, volume: real, stop: real)
    ensures OfPosition(p).volume == p.volume && OfPosition(p).levelIdx == p.levelIdx
    ensures OfPosition(p.(volume := volume, stopLoss := stop, levelIdx := p.levelIdx + 1))
         == OfPosition(p).(volume := volume, stopLoss := -stop, levelIdx := p.levelIdx + 1)
  {
  }

  /** A position followed through candles with no further signals. */
  function Drain<S>(cfg: Config, s: Sim<S>, cs: seq<Candle>): Sim<S> {
    if cs == [] then s else ExitPhase(cfg, Drain(cfg, s, cs[..|cs| - 1]), cs[|cs| - 1])
  }

  /** Whole exit trajectories mirror each other, in both execution modes and for any candles. */
  lemma {:induction false} TrajectoriesMirror<S>(cfg: Config, s: Sim<S>, cs: seq<Candle>)
    ensures Drain(cfg, OfSim(s), OfCandles(cs)) == OfSim(Drain(cfg, s, cs))
  {
    if cs != [] {
      var n := |cs| - 1;
      TrajectoriesMirror(cfg, s, cs[..n]);
      assert OfCandles(cs)[..n] == OfCandles(cs[..n]);
      ExitMirrors(cfg, Drain(cfg, s, cs[..n]), cs[n]);
    }
  }

  lemma {:induction false} EndMirrors<S>(cfg: Config, s: Sim<S>, last: Candle)
    ensures CloseAtEnd(cfg, OfSim(s), OfCandle(last)) == OfSim(CloseAtEnd(cfg, s, last))
  {
    hide Round, Book, OfTrades;
    RoundOdd(last.close, 100000.0);
    if s.pos.Some? {
      BookMirrors(cfg, s, s.pos.value, s.pos.value.volume, last.time, last.close, Round(last.close, 100000.0),
                  EndOfData);
    }
  }

  // ----- openings

  /** The minimum-stop-distance guard measures 0.1 % of the signed fill; this is the direction-free form of passing
      it. */
  ghost predicate FarEnough(fill: real, stop: real) {
    Abs(fill - stop) >= Abs(fill) * 0.001
  }

  /** The guard has no say on this signal, or the stop is far enough. */
  ghost predicate GuardNeutral(cfg: Config, candles: seq<Candle>, i: nat, sig: Signal)
    requires i < |candles|
  {
    sig.action != NoTrade ==>
      var fill := FillPrice(sig, candles, i, SpreadPrice(cfg, candles[i]));
      fill.Some? && Brackets(Direct(sig.action), fill.value, sig.stopLoss, sig.takeProfit) ==>
        FarEnough(fill.value, sig.stopLoss)
  }

  lemma {:induction false} FillMirrors(cfg: Config, candles: seq<Candle>, i: nat, sig: Signal)
    requires i < |candles| && sig.action != NoTrade
    ensures var fill := FillPrice(sig, candles, i, SpreadPrice(cfg, candles[i]));
      FillPrice(OfSignal(sig), OfCandles(candles), i, SpreadPrice(cfg, OfCandles(candles)[i]))
      == if fill.None? then None else Some(-fill.value)
    ensures Direct(OfSignal(sig).action) == Flip(Direct(sig.action))
  {
    assert SpreadPrice(cfg, OfCandles(candles)[i]) == SpreadPrice(cfg, candles[i]);
    if i + 1 < |candles| {
      assert OfCandles(candles)[i + 1].open == -candles[i + 1].open;
    }
    hide SpreadPrice, OfCandles;
    match sig.action
    case Buy =>
    case Sell =>
    case BuyLimit =>
    case SellLimit =>
    case BuyStop =>
    case SellStop =>
  }

  /** An opening decision mirrors exactly when the minimum-stop-distance guard is neutral; it is the engine's only
      rule that tells the two directions apart. */
  lemma {:induction false} OpeningMirrorsIff(cfg: Config, candles: seq<Candle>, i: nat, sig: Signal, balance: real)
    requires cfg.Valid() && i < |candles|
    ensures TryOpen(cfg, OfCandles(candles), i, OfSignal(sig), balance) == OfPos(TryOpen(cfg, candles, i, sig, balance))
       <==> GuardNeutral(cfg, candles, i, sig)
  {
    if sig.action != NoTrade {
      FillMirrors(cfg, candles, i, sig);
      var fill := FillPrice(sig, candles, i, SpreadPrice(cfg, candles[i]));
      if fill.Some? {
        var d := Direct(sig.action);
        AcceptanceMirrors(d, fill.value, sig);
        OpeningMirrors(cfg, d, candles[i].time, fill.value, sig, balance);
        hide Accepts, Opening, FillPrice, SpreadPrice, FarEnough, Brackets, OfPosition, Direct;
      }
    }
  }

  /** A BUY at 100 with its stop at 99.95 is too close and refused; the mirrored SELL at -100 is opened. */
  lemma {:induction false} RefusedBuyAcceptedSell(cfg: Config, balance: real)
    requires cfg.Valid() && cfg.spreadPips == 0.0
    ensures var candles := [Candle(0, 100.0, 100.0, 100.0, 100.0, 0, 0), Candle(1, 100.0, 100.0, 100.0, 100.0, 0, 0)];
      var sig := Signal(Buy, None, 99.95, 101.0, []);
      TryOpen(cfg, candles, 0, sig, balance).None? && TryOpen(cfg, OfCandles(candles), 0, OfSignal(sig), balance).Some?
  {
    hide Opening;
  }

  lemma {:induction false} AcceptanceMirrors(d: Direction, fill: real, sig: Signal)
    ensures Accepts(Flip(d), -fill, OfSignal(sig)) == Accepts(d, fill, sig)
       <==> (Brackets(d, fill, sig.stopLoss, sig.takeProfit) ==> FarEnough(fill, sig.stopLoss))
  {
    assert Abs(-fill - -sig.stopLoss) == Abs(fill - sig.stopLoss);
  }

  lemma {:induction false} OpeningMirrors(cfg: Config, d: Direction, time: int, fill: real, sig: Signal, balance: real)
    requires cfg.Valid()
    ensures Opening(cfg, Flip(d), time, -fill, OfSignal(sig), balance) ==
            OfPosition(Opening(cfg, d, time, fill, sig, balance))
  {
    RoundOdd(fill, 100000.0);
    RoundOdd(sig.stopLoss, 100000.0);
    RoundOdd(sig.takeProfit, 100000.0);
    hide Round, LotAt;
    assert Abs(-fill - -sig.stopLoss) == Abs(fill - sig.stopLoss);
  }

  // ----- whole runs

  /** The mirrored backtest: mirrored candles and a strategy that answers mirrored views with mirrored signals. */
  ghost predicate Mirrored<S(!new)>(a: Setup<S>, b: Setup<S>) {
    && a.cfg.Valid() && b.cfg == a.cfg && b.start == a.start
    && b.candles == OfCandles(a.candles) && b.ctx == OfContexts(a.ctx)
    && forall s, v :: b.strategy(s, OfView(v)) == (a.strategy(s, v).0, OfOutcome(a.strategy(s, v).1))
  }

  lemma {:induction false} LastMirrors(list: seq<Candle>, ptr: nat, count: int)
    requires ptr <= |list|
    ensures Last(OfCandles(list), ptr, count) == OfCandles(Last(list, ptr, count))
  {
  }

  lemma {:induction false} AdvanceMirrors(list: seq<Candle>, ptr: nat, t: int)
    requires ptr <= |list|
    ensures AdvancePtr(OfCandles(list), ptr, t) == AdvancePtr(list, ptr, t)
    decreases |list| - ptr
  {
    if ptr < |list| && list[ptr].time <= t {
      AdvanceMirrors(list, ptr + 1, t);
    }
  }

  lemma {:induction false} ViewMirrors<S(!new)>(a: Setup<S>, b: Setup<S>, i: nat, ptrs: map<string, nat>)
    requires Mirrored(a, b) && i < |a.candles| && PtrsValid(a.ctx, ptrs)
    ensures MakeView(b.cfg, b.candles, i, b.ctx, ptrs) == OfView(MakeView(a.cfg, a.candles, i, a.ctx, ptrs))
  {
    hide Last;
    var lo := if i + 1 > WINDOW then i + 1 - WINDOW else 0;
    assert b.candles[lo..i + 1] == OfCandles(a.candles[lo..i + 1]);
    forall tf <- a.ctx
      ensures var n := ContextCount(a.cfg, tf, DEFAULT_CONTEXT_COUNT);
        Last(b.ctx[tf], ptrs[tf], n) == OfCandles(Last(a.ctx[tf], ptrs[tf], n))
    {
      LastMirrors(a.ctx[tf], ptrs[tf], ContextCount(a.cfg, tf, DEFAULT_CONTEXT_COUNT));
    }
  }

  lemma {:induction false} AskMirrors<S(!new)>(a: Setup<S>, b: Setup<S>, i: nat, s: Sim<S>)
    requires Mirrored(a, b) && i < |a.candles| && PtrsValid(a.ctx, s.ptrs)
    ensures Ask(b, i, OfSim(s)) == OfSim(Ask(a, i, s))
  {
    hide MakeView, LlmStep, OfView;
    ViewMirrors(a, b, i, s.ptrs);
  }

  /** The guard is neutral on the signal acted on at candle `i`, if there is one. */
  ghost predicate StepNeutral<S(!new)>(a: Setup<S>, i: nat, s: Sim<S>)
    requires a.cfg.Valid() && i < |a.candles| && PtrsValid(a.ctx, s.ptrs)
  {
    var u := Exited(a, i, s);
    (u.pos.None? && i + 1 >= WINDOW && Ask(a, i, u).lastSignal.Some?) ==>
      GuardNeutral(a.cfg, a.candles, i, Ask(a, i, u).lastSignal.value)
  }

  /** A signal phase mirrors exactly when the guard is neutral on the signal it acts on. */
  lemma {:induction false} SignalMirrorsIff<S(!new)>(a: Setup<S>, b: Setup<S>, i: nat, s: Sim<S>)
    requires Mirrored(a, b) && i < |a.candles| && PtrsValid(a.ctx, s.ptrs)
    ensures SignalPhase(b, i, OfSim(s)) == OfSim(SignalPhase(a, i, s)) <==>
            ((s.pos.None? && i + 1 >= WINDOW && Ask(a, i, s).lastSignal.Some?) ==>
               GuardNeutral(a.cfg, a.candles, i, Ask(a, i, s).lastSignal.value))
  {
    AskMirrors(a, b, i, s);
    hide Ask, TryOpen, OfPosition, OfTrades, OfSignal, GuardNeutral;
    var u := Ask(a, i, s);
    if u.lastSignal.Some? {
      OpeningMirrorsIff(a.cfg, a.candles, i, u.lastSignal.value, u.balance);
    }
  }

  lemma {:induction false} AdvancedMirrors<S(!new)>(a: Setup<S>, b: Setup<S>, i: nat, s: Sim<S>)
    requires Mirrored(a, b) && i < |a.candles| && PtrsValid(a.ctx, s.ptrs)
    ensures Advanced(b, i, OfSim(s)) == OfSim(Advanced(a, i, s))
  {
    hide AdvancePtr;
    forall tf <- a.ctx
      ensures AdvancePtr(b.ctx[tf], s.ptrs[tf], a.candles[i].time) ==
              AdvancePtr(a.ctx[tf], s.ptrs[tf], a.candles[i].time)
    {
      AdvanceMirrors(a.ctx[tf], s.ptrs[tf], a.candles[i].time);
    }
  }

  /** After `j` candles the states are mirror images. */
  ghost predicate MirroredAt<S(!new)>(a: Setup<S>, b: Setup<S>, j: nat)
    requires a.cfg.Valid() && b.cfg.Valid() && j <= |a.candles| && j <= |b.candles|
  {
    After(b, j) == OfSim(After(a, j))
  }

  /** The guard is neutral at candle `i` of the run. */
  ghost predicate NeutralAt<S(!new)>(a: Setup<S>, i: nat)
    requires a.cfg.Valid() && i < |a.candles|
  {
    StepNeutral(a, i, After(a, i))
  }

  /** Whole runs mirror each other as long as the guard stays neutral. */
  lemma {:induction false} RunsMirror<S(!new)>(a: Setup<S>, b: Setup<S>, k: nat)
    requires Mirrored(a, b) && k <= |a.candles|
    requires forall i: nat | i < k :: NeutralAt(a, i)
    ensures MirroredAt(a, b, k)
  {
    hide MirroredAt, NeutralAt;
    if k == 0 {
      StartMirrored(a, b);
    } else {
      RunsMirror(a, b, k - 1);
      NextMirroredIff(a, b, k - 1);
    }
  }

  /** Runs mirror each other candle by candle exactly when the guard is neutral at every candle. */
  lemma {:induction false} RunsMirrorIff<S(!new)>(a: Setup<S>, b: Setup<S>, k: nat)
    requires Mirrored(a, b) && k <= |a.candles|
    ensures (forall j: nat | j <= k :: MirroredAt(a, b, j)) <==> (forall i: nat | i < k :: NeutralAt(a, i))
  {
    hide MirroredAt, NeutralAt;
    if forall i: nat | i < k :: NeutralAt(a, i) {
      forall j: nat | j <= k
        ensures MirroredAt(a, b, j)
      {
        RunsMirror(a, b, j);
      }
    }
    if forall j: nat | j <= k :: MirroredAt(a, b, j) {
      forall i: nat | i < k
        ensures NeutralAt(a, i)
      {
        NextMirroredIff(a, b, i);
        assert MirroredAt(a, b, i + 1);
      }
    }
  }

  lemma {:induction false} StartMirrored<S(!new)>(a: Setup<S>, b: Setup<S>)
    requires Mirrored(a, b)
    ensures MirroredAt(a, b, 0)
  {
    hide After;
    AfterNone(a);
    AfterNone(b);
    StartMirrors(a, b);
  }

  lemma {:induction false} NextMirroredIff<S(!new)>(a: Setup<S>, b: Setup<S>, i: nat)
    requires Mirrored(a, b) && i < |a.candles| && MirroredAt(a, b, i)
    ensures MirroredAt(a, b, i + 1) <==> NeutralAt(a, i)
  {
    hide After, StepNeutral, AdvanceAll, SignalPhase, ExitPhase, OfSim;
    AfterStep(a, i);
    AfterStep(b, i);
    StepMirrorsIff(a, b, i, After(a, i));
  }

  lemma {:induction false} StartMirrors<S(!new)>(a: Setup<S>, b: Setup<S>)
    requires Mirrored(a, b)
    ensures Start(b) == OfSim(Start(a))
  {
  }

  lemma {:induction false} StepMirrorsIff<S(!new)>(a: Setup<S>, b: Setup<S>, i: nat, s: Sim<S>)
    requires Mirrored(a, b) && i < |a.candles| && PtrsValid(a.ctx, s.ptrs) && PtrsValid(b.ctx, OfSim(s).ptrs)
    ensures Step(b, i, OfSim(s)) == OfSim(Step(a, i, s)) <==> StepNeutral(a, i, s)
  {
    hide AdvanceAll, SignalPhase, ExitPhase, OfSim, GuardNeutral, Ask;
    AdvancedMirrors(a, b, i, s);
    ExitMirrors(a.cfg, Advanced(a, i, s), a.candles[i]);
    SignalMirrorsIff(a, b, i, Exited(a, i, s));
  }

  /** The returned trades mirror: same reasons, volumes, profits and equity, negated prices. */
  lemma {:induction false} FinalMirrors<S(!new)>(a: Setup<S>, b: Setup<S>)
    requires Mirrored(a, b)
    requires forall i: nat | i < |a.candles| :: NeutralAt(a, i)
    ensures Final(b).trades == OfTrades(Final(a).trades) && Final(b).equity == Final(a).equity
  {
    hide After, NeutralAt, CloseAtEnd, OfTrades;
    RunsMirror(a, b, |a.candles|);
    StartMirrors(a, b);
    if a.candles != [] {
      EndMirrors(a.cfg, After(a, |a.candles|), a.candles[|a.candles| - 1]);
    }
  }
}
