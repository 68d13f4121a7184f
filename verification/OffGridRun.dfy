/** A concrete run whose last close is off the five-digit grid. */
module OffGridRun {
  import opened Options
  import opened PyRound
  import opened BacktestModels
  import opened BacktestHelpers
  import opened BacktestEngine
  import opened Ledger

  const FLAT := Candle(0, 1.1, 1.100004, 1.1, 1.100004, 0, 0)
  const BUY_NOW := Signal(Buy, None, 1.0, 1.2, [])
  const BOUGHT := Position(BUY, 0, 1.1, 1.0, 1.2, 1.0, [], 0)

  /** A strategy that always buys. */
  function Buying(n: int, v: View): (int, Outcome) {
    (n, Returned(Some(BUY_NOW)))
  }

  /** Fifty-one equal candles that close at 1.100004, one lot of 100000 units, no costs. */
  function OffGrid(): Setup<int> {
    Setup(Config("H1", 1000.0, 0.0, 0.0001, 0.00001, 100000.0, false, 1.0, 0.0, 0.0, 0.5, false, 0, false, map[]),
          seq(51, i => FLAT), map[], Buying, 0)
  }

  lemma {:induction false} Fills()
    ensures TryOpen(OffGrid().cfg, OffGrid().candles, 49, BUY_NOW, 1000.0) == Some(BOUGHT)
  {
    assert Round(1.1, 100000.0) == 1.1 && Round(1.0, 100000.0) == 1.0 && Round(1.2, 100000.0) == 1.2;
    hide Round;
  }

  lemma {:induction false} Opens()
    ensures After(OffGrid(), 50).pos == Some(BOUGHT)
  {
    var a := OffGrid();
    FlatUntilAsked(a, 49);
    assert After(a, 49) == Start(a);
    AfterStep(a, 49);
    Fills();
    hide After, TryOpen, MakeView;
    var s := Exited(a, 49, Start(a));
    assert s.pos.None? && s.balance == 1000.0;
    assert Ask(a, 49, s).lastSignal == Some(BUY_NOW);
  }

  lemma {:induction false} Keeps()
    ensures var cfg := OffGrid().cfg;
      Decide(BOUGHT, FLAT, cfg.closePriceMode, cfg.tpRatio, SpreadPrice(cfg, FLAT)) == Keep
  {
  }

  lemma {:induction false} Holds()
    ensures After(OffGrid(), 51).pos == Some(BOUGHT)
  {
    Opens();
    Keeps();
    AfterStep(OffGrid(), 50);
    hide After, TryOpen, Ask, Decide, SpreadPrice;
  }

  /** One lot bought at 1.1 and closed at the end of the data at 1.100004 is booked with 0.4 and shown with nothing. */
  lemma {:induction false} OffGridCloseIsLost()
    ensures Final(OffGrid()).balance != 1000.0 + Sum(NetsOf(OffGrid().cfg, Final(OffGrid()).trades))
  {
    Holds();
    BalanceFromTradesIff(OffGrid());
    assert Round(1.100004, 100000.0) == 1.1;
    hide Final, NetsOf, Sum, After, Round;
  }
}
