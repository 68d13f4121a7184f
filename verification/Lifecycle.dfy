/** From opening to the last close: volumes, scale-outs and stops of every position of a run. */
module Lifecycle {
  import opened Options
  import opened PyRound
  import opened BacktestModels
  import opened BacktestHelpers
  import opened BacktestEngine

  function Pow(x: real, k: nat): real {
    if k == 0 then 1.0 else Pow(x, k - 1) * x
  }

  /** One position as it was opened, and the trades recorded for it so far. */
  datatype Episode = Episode(opening: Position, trades: seq<Trade>)

  function Closed(ts: seq<Trade>): real {
    if ts == [] then 0.0 else Closed(ts[..|ts| - 1]) + ts[|ts| - 1].volume
  }

  function Flatten(es: seq<Episode>): seq<Trade> {
    if es == [] then [] else Flatten(es[..|es| - 1]) + es[|es| - 1].trades
  }

  /** The run's trades grouped by position: a new group at each opening, the last group extended at each exit. */
  function Episodes<S>(a: Setup<S>, k: nat): seq<Episode>
    requires a.cfg.Valid() && k <= |a.candles|
  {
    if k == 0 then []
    else NextEpisodes(Episodes(a, k - 1), After(a, k - 1), Exited(a, k - 1, After(a, k - 1)), After(a, k))
  }

  /** The groups after one candle, from the states before it, after its exit check and after its signal phase. */
  function NextEpisodes<S>(es: seq<Episode>, s: Sim<S>, exited: Sim<S>, after: Sim<S>): seq<Episode> {
    var grown := Extend(es, s.pos.Some?, s.trades, exited.trades);
    if exited.pos.None? && after.pos.Some? then grown + [Episode(after.pos.value, [])] else grown
  }

  /** Add newly recorded trades to the group of the position that was open, if one was. */
  function Extend(es: seq<Episode>, wasOpen: bool, before: seq<Trade>, after: seq<Trade>): seq<Episode> {
    if !wasOpen || es == [] || |after| < |before| then es
    else
      var e := es[|es| - 1];
      es[..|es| - 1] + [e.(trades := e.trades + after[|before|..])]
  }

  /** Volume left after `k` scale-outs. */
  function Left(e: Episode, r: real, k: nat): real {
    e.opening.volume * Pow(1.0 - r, k)
  }

  /** Stop in force after `k` scale-outs: the opening stop, then the entry price. */
  function StopAfter(p: Position, k: nat): real {
    if k == 0 then p.stopLoss else p.entryPrice
  }

  /** The opening stop is on the losing side of the entry, so moving to the entry never loosens it. */
  ghost predicate OpenedWell(p: Position) {
    p.levelIdx == 0 && AtOrWorse(p.direction, p.stopLoss, p.entryPrice)
  }

  /** Trade `j` is the scale-out at level `j`. */
  ghost predicate IsScaleOut(e: Episode, r: real, j: nat)
    requires j < |e.trades|
  {
    var t := e.trades[j];
    && j + 1 < |e.opening.levels|
    && t.reason == LevelHit(j + 1) && t.exitPrice == e.opening.levels[j]
    && t.volume == Left(e, r, j) * r
    && t.direction == e.opening.direction && t.entryPrice == e.opening.entryPrice
    && t.stopLoss == StopAfter(e.opening, j)
  }

  ghost predicate ScaledOut(e: Episode, r: real, n: nat) {
    n <= |e.trades| && forall j: nat | j < n :: IsScaleOut(e, r, j)
  }

  /** `p` is what is left of the position of `e`. */
  ghost predicate Live(e: Episode, p: Position, r: real) {
    var k := |e.trades|;
    && OpenedWell(e.opening)
    && p == e.opening.(volume := Left(e, r, k), levelIdx := k, stopLoss := StopAfter(e.opening, k))
    && ScaledOut(e, r, k)
    && Closed(e.trades) == e.opening.volume - p.volume
  }

  /** Trade `n` closes everything that `n` scale-outs left. */
  ghost predicate IsFullClose(e: Episode, r: real, n: nat)
    requires n < |e.trades|
  {
    var t := e.trades[n];
    && !t.reason.LevelHit? && t.volume == Left(e, r, n)
    && t.direction == e.opening.direction && t.entryPrice == e.opening.entryPrice
    && t.stopLoss == StopAfter(e.opening, n)
  }

  /** A position that is gone: scale-outs, then a full close, or a remainder too small to keep. */
  ghost predicate Finished(e: Episode, r: real) {
    var k := |e.trades|;
    && k > 0 && OpenedWell(e.opening)
    && if ScaledOut(e, r, k) then
         Left(e, r, k) < 0.001 && Closed(e.trades) == e.opening.volume - Left(e, r, k)
       else
         ScaledOut(e, r, k - 1) && IsFullClose(e, r, k - 1) && Closed(e.trades) == e.opening.volume
  }

  /** The groups make up the trade list, and all are finished except the last one while a position is open. */
  ghost predicate Grouped(es: seq<Episode>, trades: seq<Trade>, pos: Option<Position>, r: real) {
    && Flatten(es) == trades
    && if pos.Some? then
         es != [] && Live(es[|es| - 1], pos.value, r) && forall j | 0 <= j < |es| - 1 :: Finished(es[j], r)
       else forall j | 0 <= j < |es| :: Finished(es[j], r)
  }

  // ----- arithmetic of volumes

  lemma {:induction false} PowNonnegative(x: real, k: nat)
    requires 0.0 <= x
    ensures 0.0 <= Pow(x, k)
  {
    if k > 0 {
      PowNonnegative(x, k - 1);
      ProductNonnegative(Pow(x, k - 1), x);
    }
  }

  lemma {:induction false} ProductNonnegative(x: real, y: real)
    requires 0.0 <= x && 0.0 <= y
    ensures 0.0 <= x * y
  {
  }

  lemma {:induction false} LeftStep(e: Episode, r: real, k: nat)
    ensures Left(e, r, k + 1) == Left(e, r, k) - Left(e, r, k) * r
  {
    var v, p := e.opening.volume, Pow(1.0 - r, k);
    assert v * (p * (1.0 - r)) == v * p - v * p * r;
  }

  lemma {:induction false} LeftNonnegative(e: Episode, r: real, k: nat)
    requires r <= 1.0 && e.opening.volume >= 0.0
    ensures 0.0 <= Left(e, r, k)
  {
    PowNonnegative(1.0 - r, k);
    ProductNonnegative(e.opening.volume, Pow(1.0 - r, k));
  }

  lemma {:induction false} ClosedAppend(ts: seq<Trade>, t: Trade)
    ensures Closed(ts + [t]) == Closed(ts) + t.volume
  {
    assert (ts + [t])[..|ts|] == ts;
  }

  lemma {:induction false} FlattenAppend(es: seq<Episode>, e: Episode)
    ensures Flatten(es + [e]) == Flatten(es) + e.trades
  {
    assert (es + [e])[..|es|] == es;
  }

  // ----- one step

  /** The episode with one more trade keeps its earlier scale-outs. */
  lemma {:induction false} EarlierScaleOutsStay(e: Episode, r: real, t: Trade)
    requires ScaledOut(e, r, |e.trades|)
    ensures ScaledOut(e.(trades := e.trades + [t]), r, |e.trades|)
  {
    var f := e.(trades := e.trades + [t]);
    forall j: nat | j < |e.trades|
      ensures IsScaleOut(f, r, j)
    {
      assert IsScaleOut(e, r, j);
      assert f.trades[j] == e.trades[j];
    }
  }

  /** A full close of the live remainder finishes the episode. */
  lemma {:induction false} CloseFinishes(e: Episode, p: Position, r: real, time: int, price: real, reason: Reason,
                                         net: real, balance: real)
    requires Live(e, p, r) && !reason.LevelHit?
    ensures Finished(e.(trades := e.trades + [Record(p, p.volume, time, price, reason, net, balance)]), r)
  {
    var t := Record(p, p.volume, time, price, reason, net, balance);
    var f := e.(trades := e.trades + [t]);
    EarlierScaleOutsStay(e, r, t);
    ClosedAppend(e.trades, t);
    var k := |e.trades|;
    assert f.trades[k] == t;
    assert !IsScaleOut(f, r, k);
    assert Left(f, r, k) == Left(e, r, k);
  }

  lemma {:induction false} SameLeft(e: Episode, f: Episode, r: real, k: nat)
    requires e.opening == f.opening
    ensures Left(e, r, k) == Left(f, r, k)
  {
  }

  /** A record shows the position as it was before the close, with the closed volume and the exit. */
  lemma {:induction false} RecordFields(p: Position, volume: real, time: int, price: real, reason: Reason, net: real,
                                        balance: real)
    ensures var t := Record(p, volume, time, price, reason, net, balance);
      && t.direction == p.direction && t.entryPrice == p.entryPrice && t.stopLoss == p.stopLoss
      && t.volume == volume && t.exitPrice == price && t.reason == reason
  {
  }

  /** A scale-out leaves a live remainder, or finishes the episode when the remainder is below 0.001. */
  lemma {:induction false} ScaleOutKeepsShape(e: Episode, p: Position, r: real, time: int, net: real, balance: real)
    requires Live(e, p, r) && HasNextLevel(p)
    ensures var t := Record(p, p.volume * r, time, p.levels[p.levelIdx], LevelHit(p.levelIdx + 1), net, balance);
      var f := e.(trades := e.trades + [t]);
      var left := p.volume - p.volume * r;
      && (left >= 0.001 ==> Live(f, p.(volume := left, stopLoss := p.entryPrice, levelIdx := p.levelIdx + 1), r))
      && (left < 0.001 ==> Finished(f, r))
  {
    hide Closed, Record;
    var k := |e.trades|;
    var t := Record(p, p.volume * r, time, p.levels[k], LevelHit(k + 1), net, balance);
    RecordFields(p, p.volume * r, time, p.levels[k], LevelHit(k + 1), net, balance);
    var f := e.(trades := e.trades + [t]);
    EarlierScaleOutsStay(e, r, t);
    ClosedAppend(e.trades, t);
    LeftStep(e, r, k);
    hide Left;
    SameLeft(e, f, r, k);
    SameLeft(e, f, r, k + 1);
    assert f.trades[k] == t;
    assert IsScaleOut(f, r, k);
    assert ScaledOut(f, r, k + 1);
  }

  lemma {:induction false} ExtendByNone(es: seq<Episode>, wasOpen: bool, before: seq<Trade>)
    ensures Extend(es, wasOpen, before, before) == es
  {
    if wasOpen && es != [] {
      var e := es[|es| - 1];
      assert e.trades + before[|before|..] == e.trades;
    }
  }

  lemma {:induction false} ExtendByOne(es: seq<Episode>, before: seq<Trade>, t: Trade)
    requires es != []
    ensures var e := es[|es| - 1];
      Extend(es, true, before, before + [t]) == es[..|es| - 1] + [e.(trades := e.trades + [t])]
  {
    assert (before + [t])[|before|..] == [t];
  }

  lemma {:induction false} FlattenGrown(es: seq<Episode>, t: Trade)
    requires es != []
    ensures var e := es[|es| - 1];
      Flatten(es[..|es| - 1] + [e.(trades := e.trades + [t])]) == Flatten(es) + [t]
  {
    var init, e := es[..|es| - 1], es[|es| - 1];
    FlattenAppend(init, e.(trades := e.trades + [t]));
    assert Flatten(es) == Flatten(init) + e.trades;
    assert Flatten(init) + (e.trades + [t]) == (Flatten(init) + e.trades) + [t];
  }

  /** Booking one more trade for the open position, with the position state that follows, keeps the grouping. */
  lemma {:induction false} BookingKeepsGroups(es: seq<Episode>, before: seq<Trade>, t: Trade, rest: Option<Position>,
                                              r: real)
    requires es != [] && Flatten(es) == before && forall j | 0 <= j < |es| - 1 :: Finished(es[j], r)
    requires var e := es[|es| - 1];
      var f := e.(trades := e.trades + [t]);
      if rest.Some? then Live(f, rest.value, r) else Finished(f, r)
    ensures Grouped(Extend(es, true, before, before + [t]), before + [t], rest, r)
  {
    ExtendByOne(es, before, t);
    FlattenGrown(es, t);
    var e := es[|es| - 1];
    var grown := es[..|es| - 1] + [e.(trades := e.trades + [t])];
    assert forall j | 0 <= j < |es| - 1 :: grown[j] == es[j];
  }

  /** The exit check keeps the grouping. */
  lemma {:induction false} ExitKeepsGroups<S>(cfg: Config, es: seq<Episode>, s: Sim<S>, c: Candle)
    requires Grouped(es, s.trades, s.pos, cfg.tpRatio)
    ensures var after := ExitPhase(cfg, s, c);
      Grouped(Extend(es, s.pos.Some?, s.trades, after.trades), after.trades, after.pos, cfg.tpRatio)
  {
    hide SpreadPrice, Net, Live, Finished, Record, Decide, Flatten;
    var r := cfg.tpRatio;
    if s.pos.Some? {
      var p, e := s.pos.value, es[|es| - 1];
      var after := ExitPhase(cfg, s, c);
      var d := Decide(p, c, cfg.closePriceMode, r, SpreadPrice(cfg, c));
      DecisionShape(p, c, cfg.closePriceMode, r, SpreadPrice(cfg, c));
      match d
      case Keep =>
        ExtendByNone(es, true, s.trades);
      case Close(x) =>
        var net := Net(cfg, p, x.price, p.volume);
        var t := Record(p, p.volume, x.time, x.price, x.reason, net, s.balance + net);
        CloseFinishes(e, p, r, x.time, x.price, x.reason, net, s.balance + net);
        BookingKeepsGroups(es, s.trades, t, None, r);
      case Partial(o) =>
        var net := Net(cfg, p, o.price, o.volumeClosed);
        var t := Record(p, o.volumeClosed, o.time, o.price, o.reason, net, s.balance + net);
        ScaleOutKeepsShape(e, p, r, o.time, net, s.balance + net);
        BookingKeepsGroups(es, s.trades, t, after.pos, r);
    } else {
      ExtendByNone(es, false, s.trades);
    }
  }

  /** A decision closes for stop or target, or scales out at the active level and moves the stop to the entry. */
  lemma {:induction false} DecisionShape(p: Position, c: Candle, closeMode: bool, r: real, spread: real)
    ensures var d := Decide(p, c, closeMode, r, spread);
      && (d.Close? ==> !d.exit.reason.LevelHit?)
      && (d.Partial? ==>
           HasNextLevel(p) && d.out.price == p.levels[p.levelIdx] && d.out.reason == LevelHit(p.levelIdx + 1)
                         && d.out.volumeClosed == p.volume * r && d.out.newStop == p.entryPrice)
  {
    hide AtOrWorse, AtOrBetter;
  }

  /** A fresh position starts an episode. */
  lemma {:induction false} OpeningIsWell(cfg: Config, candles: seq<Candle>, i: nat, sig: Signal, balance: real)
    requires cfg.Valid() && i < |candles|
    ensures var p := TryOpen(cfg, candles, i, sig, balance);
      p.Some? ==> OpenedWell(p.value)
  {
    var p := TryOpen(cfg, candles, i, sig, balance);
    if p.Some? {
      var fill := FillPrice(sig, candles, i, SpreadPrice(cfg, candles[i])).value;
      if Direct(sig.action) == BUY {
        RoundMonotone(sig.stopLoss, fill, 100000.0);
      } else {
        RoundMonotone(fill, sig.stopLoss, 100000.0);
      }
    }
  }

  lemma {:induction false} FreshIsLive(p: Position, r: real)
    requires OpenedWell(p)
    ensures Live(Episode(p, []), p, r)
  {
    assert p.volume * 1.0 == p.volume;
  }

  /** A signal phase records nothing and leaves an open position alone. */
  lemma {:induction false} SignalPhaseRecordsNothing<S>(a: Setup<S>, i: nat, s: Sim<S>)
    requires a.cfg.Valid() && i < |a.candles| && PtrsValid(a.ctx, s.ptrs)
    ensures var after := SignalPhase(a, i, s);
      && after.trades == s.trades && after.equity == s.equity && after.balance == s.balance
      && (s.pos.Some? ==> after.pos == s.pos)
  {
    hide TryOpen, Ask;
  }

  /** What a signal phase opens is well formed. */
  lemma {:induction false} SignalPhaseOpensWell<S>(a: Setup<S>, i: nat, s: Sim<S>)
    requires a.cfg.Valid() && i < |a.candles| && PtrsValid(a.ctx, s.ptrs)
    ensures var after := SignalPhase(a, i, s);
      s.pos.None? && after.pos.Some? ==> OpenedWell(after.pos.value)
  {
    hide TryOpen, Ask, OpenedWell;
    var after := SignalPhase(a, i, s);
    if s.pos.None? && after.pos.Some? {
      OpeningIsWell(a.cfg, a.candles, i, after.lastSignal.value, s.balance);
    }
  }

  /** One candle keeps the grouping. */
  lemma {:induction false} StepKeepsGroups<S>(a: Setup<S>, i: nat, es: seq<Episode>, s: Sim<S>)
    requires a.cfg.Valid() && i < |a.candles| && PtrsValid(a.ctx, s.ptrs)
    requires Grouped(es, s.trades, s.pos, a.cfg.tpRatio)
    ensures var after := Step(a, i, s);
      Grouped(NextEpisodes(es, s, Exited(a, i, s), after), after.trades, after.pos, a.cfg.tpRatio)
  {
    hide Live, Finished, OpenedWell, SignalPhase, ExitPhase, Extend, AdvanceAll, Flatten;
    ExitKeepsGroups(a.cfg, es, Advanced(a, i, s), a.candles[i]);
    var exited := Exited(a, i, s);
    SignalPhaseRecordsNothing(a, i, exited);
    SignalPhaseOpensWell(a, i, exited);
    var after := Step(a, i, s);
    if exited.pos.None? && after.pos.Some? {
      FreshIsLive(after.pos.value, a.cfg.tpRatio);
      FlattenAppend(Extend(es, s.pos.Some?, s.trades, exited.trades), Episode(after.pos.value, []));
    }
  }

  /** Over a whole run: trades grouped by position, every group but the open one finished. */
  lemma {:induction false} RunIsGrouped<S>(a: Setup<S>, k: nat)
    requires a.cfg.Valid() && k <= |a.candles|
    ensures Grouped(Episodes(a, k), After(a, k).trades, After(a, k).pos, a.cfg.tpRatio)
  {
    hide After, Step, Exited, Live, Finished, NextEpisodes;
    AfterNone(a);
    if k > 0 {
      AfterStep(a, k - 1);
      RunIsGrouped(a, k - 1);
      StepKeepsGroups(a, k - 1, Episodes(a, k - 1), After(a, k - 1));
    }
  }

  // ----- the finished run

  function FinalEpisodes<S>(a: Setup<S>): seq<Episode>
    requires a.cfg.Valid()
  {
    var s := After(a, |a.candles|);
    Extend(Episodes(a, |a.candles|), s.pos.Some?, s.trades, Final(a).trades)
  }

  /** When the run ends every position is finished and the groups make up the returned trade list. */
  lemma {:induction false} EveryPositionFinishes<S>(a: Setup<S>)
    requires a.cfg.Valid()
    ensures Flatten(FinalEpisodes(a)) == Final(a).trades
    ensures forall e <- FinalEpisodes(a) :: Finished(e, a.cfg.tpRatio)
  {
    hide After, Episodes, Live, Finished, Net, Record, Flatten, Extend;
    AfterNone(a);
    var n := |a.candles|;
    var s, es := After(a, n), Episodes(a, n);
    RunIsGrouped(a, n);
    if s.pos.Some? {
      var p, last := s.pos.value, a.candles[n - 1];
      var net := Net(a.cfg, p, last.close, p.volume);
      var t := Record(p, p.volume, last.time, Round(last.close, 100000.0), EndOfData, net, s.balance + net);
      CloseFinishes(es[|es| - 1], p, a.cfg.tpRatio, last.time, Round(last.close, 100000.0), EndOfData, net,
                    s.balance + net);
      BookingKeepsGroups(es, s.trades, t, None, a.cfg.tpRatio);
    } else {
      ExtendByNone(es, false, s.trades);
    }
  }

  /** Volume is conserved: what a finished position recorded adds up to its opening volume, short by less than 0.001. */
  lemma {:induction false} VolumeConserved(e: Episode, r: real)
    requires r <= 1.0 && e.opening.volume >= 0.0 && Finished(e, r)
    ensures e.opening.volume - 0.001 < Closed(e.trades) <= e.opening.volume
  {
    LeftNonnegative(e, r, |e.trades|);
  }

  /** At most one scale-out per level but the last, and at most one trade more. */
  lemma {:induction false} ScaleOutsBounded(e: Episode, r: real)
    requires Finished(e, r)
    ensures |e.trades| <= 1 || |e.trades| <= |e.opening.levels|
    ensures forall j | 0 <= j < |e.trades| && e.trades[j].reason.LevelHit? :: j + 1 < |e.opening.levels|
  {
    var k := |e.trades|;
    if ScaledOut(e, r, k) {
      assert IsScaleOut(e, r, k - 1);
    } else if k > 1 {
      assert IsScaleOut(e, r, k - 2);
    }
  }

  /** The stop shown on a position's trades is its opening stop or its entry price, and it never moves away from
      profit. */
  lemma {:induction false} StopNeverLoosens(e: Episode, r: real, i: nat, j: nat)
    requires Finished(e, r) && i <= j < |e.trades|
    ensures e.trades[i].stopLoss == e.opening.stopLoss || e.trades[i].stopLoss == e.opening.entryPrice
    ensures AtOrWorse(e.opening.direction, e.trades[i].stopLoss, e.trades[j].stopLoss)
  {
    var k := |e.trades|;
    assert forall m: nat | m < k :: e.trades[m].stopLoss == StopAfter(e.opening, m) by {
      forall m: nat | m < k
        ensures e.trades[m].stopLoss == StopAfter(e.opening, m)
      {
        if ScaledOut(e, r, k) || m < k - 1 {
          assert IsScaleOut(e, r, m);
        }
      }
    }
  }

  /** What every run returns when the close ratio is at most 1: the trades fall into positions; each has at most one
      trade per level, or a single one, and a position of non-negative opening volume recorded that volume up to less
      than 0.001. */
  lemma {:induction false} RunsConserveVolume<S>(a: Setup<S>)
    requires a.cfg.Valid() && a.cfg.tpRatio <= 1.0
    ensures Flatten(FinalEpisodes(a)) == Final(a).trades
    ensures forall e <- FinalEpisodes(a) ::
      && 0 < |e.trades| && (|e.trades| == 1 || |e.trades| <= |e.opening.levels|)
      && (e.opening.volume >= 0.0 ==> e.opening.volume - 0.001 < Closed(e.trades) <= e.opening.volume)
  {
    hide FinalEpisodes, Final, Flatten, Closed;
    EveryPositionFinishes(a);
    forall e <- FinalEpisodes(a)
      ensures 0 < |e.trades| && (|e.trades| == 1 || |e.trades| <= |e.opening.levels|)
      ensures e.opening.volume >= 0.0 ==> e.opening.volume - 0.001 < Closed(e.trades) <= e.opening.volume
    {
      ScaleOutsBounded(e, a.cfg.tpRatio);
      if e.opening.volume >= 0.0 {
        VolumeConserved(e, a.cfg.tpRatio);
      }
    }
  }
}
