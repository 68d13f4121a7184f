/** A concrete run whose mirror image trades where it does not. */
module UnmirroredRun {
  import opened Options
  import opened BacktestModels
  import opened BacktestHelpers
  import opened BacktestEngine
  import opened Mirror

  /** Buy at 100 with a stop so close that the guard refuses. */
  const TOO_CLOSE := Signal(Buy, None, 99.95, 101.0, [])

  function Buying(n: int, v: View): (int, Outcome) {
    (n, Returned(Some(TOO_CLOSE)))
  }

  function Selling(n: int, v: View): (int, Outcome) {
    (n, Returned(Some(OfSignal(TOO_CLOSE))))
  }

  /** Fifty-one candles at 100, one lot, no costs. */
  function Original(): Setup<int> {
    Setup(Config("H1", 1000.0, 0.0, 0.0001, 0.00001, 100000.0, false, 1.0, 0.0, 0.0, 0.5, false, 0, false, map[]),
          seq(51, i => Candle(0, 100.0, 100.0, 100.0, 100.0, 0, 0)), map[], Buying, 0)
  }

  function Image(): Setup<int> {
    Setup(Original().cfg, OfCandles(Original().candles), map[], Selling, 0)
  }

  lemma {:induction false} GuardSpeaks()
    ensures !GuardNeutral(Original().cfg, Original().candles, 49, TOO_CLOSE)
  {
  }

  lemma {:induction false} ImageIsMirrored()
    ensures Mirrored(Original(), Image())
  {
    hide OfSignal, OfCandles;
    assert OfContexts(map[]) == map[];
  }

  lemma {:induction false} BothWait()
    ensures MirroredAt(Original(), Image(), 49)
  {
    var a, b := Original(), Image();
    hide After, OfSignal, AdvanceAll;
    FlatUntilAsked(a, 49);
    FlatUntilAsked(b, 49);
    assert After(a, 49).ptrs == After(b, 49).ptrs == map[];
    assert OfTrades([]) == [];
  }

  lemma {:induction false} AskedAt49()
    ensures var a := Original();
      var u := Exited(a, 49, After(a, 49));
      u.pos.None? && Ask(a, 49, u).lastSignal == Some(TOO_CLOSE)
  {
    hide After, MakeView, AdvanceAll, SpreadPrice, Decide;
    FlatUntilAsked(Original(), 49);
  }

  /** The runs are mirror images up to candle 48 and no longer: the guard refuses the BUY at candle 49 and lets the
      mirrored SELL through. */
  lemma {:induction false} OnlyTheImageTrades()
    ensures Mirrored(Original(), Image())
    ensures MirroredAt(Original(), Image(), 49) && !MirroredAt(Original(), Image(), 50)
  {
    hide After, GuardNeutral, MirroredAt, Mirrored, Ask, Exited, Image;
    ImageIsMirrored();
    BothWait();
    AskedAt49();
    GuardSpeaks();
    NextMirroredIff(Original(), Image(), 49);
  }
}
