/** The stop-out bound over whole runs. */
module StopOutRuns {
  import opened Options
  import opened BacktestModels
  import opened BacktestHelpers
  import opened BacktestEngine
  import opened Lifecycle
  import opened StopOut

  /** At candle `i` the run was flat, acted on `sig` and opened the position, with the balance of that moment. */
  ghost predicate OpenedBy<S(!new)>(a: Setup<S>, i: nat, sig: Signal, p: Position)
    requires a.cfg.Valid()
  {
    && i < |a.candles| && Exited(a, i, After(a, i)).pos.None?
    && After(a, i + 1).lastSignal == Some(sig) && After(a, i + 1).pos == Some(p)
    && TryOpen(a.cfg, a.candles, i, sig, After(a, i + 1).balance) == Some(p)
  }

  /** The exit check of candle `j` recorded the first trade, at the initial stop less that candle's spread. */
  ghost predicate StoppedAt<S(!new)>(a: Setup<S>, j: nat, e: Episode)
    requires a.cfg.Valid()
  {
    && j < |a.candles| && e.trades != []
    && Exited(a, j, After(a, j)).trades == After(a, j).trades + [e.trades[0]]
    && e.trades[0].exitTime == a.candles[j].time
    && e.trades[0].exitPrice == e.opening.stopLoss - Sign(e.opening.direction) * SpreadPrice(a.cfg, a.candles[j])
  }

  ghost predicate StoppedWhole(e: Episode) {
    |e.trades| == 1 && e.trades[0].reason == StopHit
  }

  /** Where an episode of a run comes from, and where it was stopped out if it was. */
  ghost predicate Explained<S(!new)>(a: Setup<S>, e: Episode)
    requires a.cfg.Valid()
  {
    && (exists i: nat, sig :: OpenedBy(a, i, sig, e.opening))
    && (StoppedWhole(e) ==> exists j: nat :: StoppedAt(a, j, e))
  }

  /** What one exit check appends. */
  lemma {:induction false} ExitAppends<S(!new)>(cfg: Config, s: Sim<S>, c: Candle)
    ensures var after := ExitPhase(cfg, s, c).trades;
      && s.trades <= after && |after| <= |s.trades| + 1
      && (|after| > |s.trades| ==>
            && s.pos.Some? && after[|s.trades|].exitTime == c.time
            && (after[|s.trades|].reason == StopHit ==>
                  var p := s.pos.value;
                  after[|s.trades|].exitPrice == p.stopLoss - Sign(p.direction) * SpreadPrice(cfg, c)))
  {
    hide SpreadPrice, Net, AtOrWorse, AtOrBetter;
    if s.pos.Some? {
      StopExit(s.pos.value, c, cfg.closePriceMode, cfg.tpRatio, SpreadPrice(cfg, c));
    }
  }

  /** What one signal phase opens. */
  lemma {:induction false} SignalOpens<S(!new)>(a: Setup<S>, i: nat)
    requires a.cfg.Valid() && i < |a.candles|
    ensures var exited, after := Exited(a, i, After(a, i)), After(a, i + 1);
      exited.pos.None? && after.pos.Some? ==> exists sig :: OpenedBy(a, i, sig, after.pos.value)
  {
    hide After, TryOpen, Ask, ExitPhase, AdvanceAll;
    AfterStep(a, i);
    var exited, after := Exited(a, i, After(a, i)), After(a, i + 1);
    if exited.pos.None? && after.pos.Some? {
      assert OpenedBy(a, i, after.lastSignal.value, after.pos.value);
    }
  }

  lemma {:induction false} FirstIsTheOpening(e: Episode, p: Position, r: real)
    requires Live(e, p, r) && e.trades == []
    ensures p == e.opening
  {
  }

  /** One more trade: it explains itself when it stops out the opening position. */
  lemma {:induction false} MoreTradesExplained<S(!new)>(a: Setup<S>, i: nat, e: Episode, t: Trade)
    requires a.cfg.Valid() && i < |a.candles| && Explained(a, e)
    requires t.reason == StopHit && e.trades == [] ==> StoppedAt(a, i, e.(trades := [t]))
    ensures Explained(a, e.(trades := e.trades + [t]))
  {
    hide OpenedBy, StoppedAt;
    var f := e.(trades := e.trades + [t]);
    if StoppedWhole(f) {
      assert f.trades[0] == t;
      assert f.trades == [t];
      assert StoppedAt(a, i, f);
    }
  }

  /** The last episode, extended by one exit check. */
  lemma {:induction false} ExtensionExplained<S(!new)>(a: Setup<S>, i: nat, e: Episode)
    requires a.cfg.Valid() && i < |a.candles|
    ensures var s := After(a, i);
      var before, after := s.trades, Exited(a, i, s).trades;
      && |before| <= |after|
      && (Explained(a, e) && s.pos.Some? && (e.trades == [] ==> s.pos.value == e.opening) ==>
            Explained(a, e.(trades := e.trades + after[|before|..])))
  {
    hide ExitPhase, Explained, SpreadPrice, Sign, After, AdvanceAll;
    var s := Advanced(a, i, After(a, i));
    var after := ExitPhase(a.cfg, s, a.candles[i]).trades;
    ExitAppends(a.cfg, s, a.candles[i]);
    if |after| == |s.trades| {
      assert e.trades + after[|s.trades|..] == e.trades;
    } else {
      var t := after[|s.trades|];
      assert after[|s.trades|..] == [t];
      assert after == s.trades + [t];
      if Explained(a, e) && s.pos.Some? && (e.trades == [] ==> s.pos.value == e.opening) {
        MoreTradesExplained(a, i, e, t);
      }
    }
  }

  /** Every episode of every run is explained. */
  lemma {:induction false} EpisodesExplained<S(!new)>(a: Setup<S>, k: nat)
    requires a.cfg.Valid() && k <= |a.candles|
    ensures forall e <- Episodes(a, k) :: Explained(a, e)
  {
    hide After, Explained, Grouped, NextEpisodes, Exited;
    if k > 0 {
      EpisodesExplained(a, k - 1);
      RunIsGrouped(a, k - 1);
      NextExplained(a, k - 1, Episodes(a, k - 1));
    }
  }

  lemma {:induction false} NextExplained<S(!new)>(a: Setup<S>, i: nat, es: seq<Episode>)
    requires a.cfg.Valid() && i < |a.candles| && forall e <- es :: Explained(a, e)
    requires Grouped(es, After(a, i).trades, After(a, i).pos, a.cfg.tpRatio)
    ensures forall e <- NextEpisodes(es, After(a, i), Exited(a, i, After(a, i)), After(a, i + 1)) :: Explained(a, e)
  {
    var s, after := After(a, i), After(a, i + 1);
    SignalOpens(a, i);
    StepExplained(a, i, es);
    hide After, Explained, Grouped, Exited, Extend, OpenedBy;
    var exited := Exited(a, i, s);
    if exited.pos.None? && after.pos.Some? {
      FreshExplained(a, i, after.pos.value);
    }
  }

  lemma {:induction false} FreshExplained<S(!new)>(a: Setup<S>, i: nat, p: Position)
    requires a.cfg.Valid() && exists sig :: OpenedBy(a, i, sig, p)
    ensures Explained(a, Episode(p, []))
  {
    hide OpenedBy;
  }

  lemma {:induction false} StepExplained<S(!new)>(a: Setup<S>, i: nat, es: seq<Episode>)
    requires a.cfg.Valid() && i < |a.candles|
    requires Grouped(es, After(a, i).trades, After(a, i).pos, a.cfg.tpRatio) && forall e <- es :: Explained(a, e)
    ensures var s := After(a, i);
      forall e <- Extend(es, s.pos.Some?, s.trades, Exited(a, i, s).trades) :: Explained(a, e)
  {
    hide Explained, Live, Finished, Exited, After;
    var s := After(a, i);
    if s.pos.Some? {
      var last := es[|es| - 1];
      if last.trades == [] {
        FirstIsTheOpening(last, s.pos.value, a.cfg.tpRatio);
      }
      ExtensionExplained(a, i, last);
      var after := Exited(a, i, s).trades;
      var grown := es[..|es| - 1] + [last.(trades := last.trades + after[|s.trades|..])];
      assert Extend(es, true, s.trades, after) == grown;
    }
  }

  /** Opened by `sig` at candle `i` and stopped at candle `j`, the position lost no more, before commission, than its
      opening allowed for. */
  ghost predicate LossWithin<S(!new)>(a: Setup<S>, e: Episode, i: nat, j: nat, sig: Signal)
    requires a.cfg.Valid() && e.trades != []
  {
    && OpenedBy(a, i, sig, e.opening) && StoppedAt(a, j, e)
    && var t, balance := e.trades[0], After(a, i + 1).balance;
      && FillOf(a.cfg, a.candles, i, sig, balance) != sig.stopLoss
      && -Gross(t.direction, t.entryPrice, t.exitPrice, t.volume, a.cfg.contractSize)
         <= Budget(a.cfg, a.candles, i, sig, balance, SpreadPrice(a.cfg, a.candles[j]))
  }

  ghost predicate WithinBudget<S(!new)>(a: Setup<S>, e: Episode)
    requires a.cfg.Valid() && e.trades != []
  {
    exists i: nat, j: nat, sig :: LossWithin(a, e, i, j, sig)
  }

  ghost predicate SpreadsNonnegative<S(!new)>(a: Setup<S>) {
    forall c <- a.candles :: SpreadPrice(a.cfg, c) >= 0.0
  }

  /** The first trade closed the whole opening volume. */
  ghost predicate ClosedWhole(e: Episode) {
    && e.trades != []
    && var t := e.trades[0];
      t.volume == e.opening.volume && t.direction == e.opening.direction && t.entryPrice == e.opening.entryPrice
  }

  lemma {:induction false} StoppedWithinBudget<S(!new)>(a: Setup<S>, e: Episode)
    requires a.cfg.Valid() && a.cfg.riskPct > 0.0 && StoppedWhole(e) && ClosedWhole(e)
    ensures SpreadsNonnegative(a) && Explained(a, e) ==> WithinBudget(a, e)
  {
    hide After, TryOpen, FillOf, Budget, Gross, SpreadPrice, ClosedWhole, OpenedBy, LossWithin;
    if SpreadsNonnegative(a) && Explained(a, e) {
      var i: nat, sig :| OpenedBy(a, i, sig, e.opening);
      var j: nat :| StoppedAt(a, j, e);
      assert a.candles[j] in a.candles;
      LossIsWithin(a, e, i, j, sig);
    }
  }

  lemma {:induction false} LossIsWithin<S(!new)>(a: Setup<S>, e: Episode, i: nat, j: nat, sig: Signal)
    requires a.cfg.Valid() && a.cfg.riskPct > 0.0 && ClosedWhole(e) && j < |a.candles|
    requires SpreadPrice(a.cfg, a.candles[j]) >= 0.0
    ensures OpenedBy(a, i, sig, e.opening) && StoppedAt(a, j, e) ==> LossWithin(a, e, i, j, sig)
  {
    hide After, TryOpen, FillOf, Budget, Gross, SpreadPrice;
    if OpenedBy(a, i, sig, e.opening) && StoppedAt(a, j, e) {
      OpenedLoss(a.cfg, a.candles, i, sig, After(a, i + 1).balance, SpreadPrice(a.cfg, a.candles[j]));
    }
  }

  lemma {:induction false} WholeClose(e: Episode, r: real)
    requires Finished(e, r) && StoppedWhole(e)
    ensures ClosedWhole(e)
  {
    assert !IsScaleOut(e, r, 0);
    assert IsFullClose(e, r, 0);
    assert Left(e, r, 0) == e.opening.volume;
  }

  /** In every run with risk sizing, each returned position that was closed whole by its initial stop lost, before
      commission, no more than the budget of its opening. */
  lemma {:induction false} StopOutsStayWithinBudget<S(!new)>(a: Setup<S>)
    requires a.cfg.Valid() && a.cfg.riskPct > 0.0 && SpreadsNonnegative(a)
    ensures forall e <- FinalEpisodes(a) | StoppedWhole(e) :: WithinBudget(a, e)
  {
    hide After, Explained, Finished, ClosedWhole, WithinBudget, Final, FinalEpisodes, SpreadsNonnegative;
    EveryPositionFinishes(a);
    EpisodesExplained(a, |a.candles|);
    forall e <- FinalEpisodes(a) | StoppedWhole(e)
      ensures WithinBudget(a, e)
    {
      EndAddsNoStop(a, e);
      WholeClose(e, a.cfg.tpRatio);
      StoppedWithinBudget(a, e);
    }
  }

  lemma {:induction false} ExtendedMember(es: seq<Episode>, wasOpen: bool, before: seq<Trade>, t: Trade, e: Episode)
    requires e in Extend(es, wasOpen, before, before + [t])
    ensures e in es || (e.trades != [] && e.trades[|e.trades| - 1] == t)
  {
    if wasOpen && es != [] {
      ExtendByOne(es, before, t);
    }
  }

  /** The close at the end of the data is no stop-out. */
  lemma {:induction false} EndAddsNoStop<S(!new)>(a: Setup<S>, e: Episode)
    requires a.cfg.Valid() && e in FinalEpisodes(a)
    ensures StoppedWhole(e) ==> e in Episodes(a, |a.candles|)
  {
    hide After, Net, Episodes, Extend;
    var n := |a.candles|;
    var s, es := After(a, n), Episodes(a, n);
    AfterNone(a);
    if s.pos.Some? && n > 0 {
      var t := Final(a).trades[|s.trades|];
      assert Final(a).trades == s.trades + [t] && t.reason == EndOfData;
      ExtendedMember(es, true, s.trades, t, e);
    } else {
      ExtendByNone(es, s.pos.Some?, s.trades);
    }
  }
}
