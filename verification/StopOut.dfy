/** What a risk-sized position can lose when it is closed whole at its initial stop. */
module StopOut {
  import opened PyRound
  import opened Reals
  import opened BacktestModels
  import opened BacktestHelpers
  import opened Ledger

  /** The most lots a risk budget buys at stop distance `d`: the exact quotient plus half a lot step, or the minimum
      lot. */
  function LotCeiling(balance: real, riskPct: real, d: real, contract: real): real
    requires d > 0.0 && contract > 0.0
  {
    MaxR(balance * riskPct / (d * contract) + 0.005, 0.01)
  }

  /** `lots` over the stop distance `d`, rounding of entry and stop, and the spread. */
  function LossBound(lots: real, d: real, spread: real, contract: real): real {
    lots * ((d + 0.00001 + spread) * contract)
  }

  lemma {:induction false} LotBound(balance: real, riskPct: real, fill: real, stop: real, contract: real)
    requires contract > 0.0 && fill != stop
    ensures LotSize(balance, riskPct, fill, stop, contract) <= LotCeiling(balance, riskPct, Abs(fill - stop), contract)
  {
    var d := Abs(fill - stop);
    assert d * contract > 0.0;
    RoundError(balance * riskPct / (d * contract), 100.0);
    hide Round;
  }

  lemma {:induction false} RealMulMonotone(x: real, y: real, u: real, v: real)
    requires 0.0 <= x <= y && 0.0 <= u <= v
    ensures x * u <= y * v
  {
    assert (y - x) * u >= 0.0 && y * (v - u) >= 0.0;
    assert (y - x) * u == y * u - x * u && y * (v - u) == y * v - y * u;
  }

  /** Entry and stop move by at most half a grid step each when they are rounded. */
  lemma {:induction false} RoundedDistance(fill: real, stop: real)
    ensures Abs(Round(fill, 100000.0) - Round(stop, 100000.0)) <= Abs(fill - stop) + 0.00001
  {
    RoundError(fill, 100000.0);
    RoundError(stop, 100000.0);
    hide Round;
  }

  /** The stop-out exit lies beyond the stop by the spread, so the gross loss is distance plus spread, times size. */
  lemma {:induction false} StopOutGross(p: Position, spread: real, contract: real)
    requires AtOrWorse(p.direction, p.stopLoss, p.entryPrice)
    ensures -Gross(p.direction, p.entryPrice, p.stopLoss - Sign(p.direction) * spread, p.volume, contract)
         == (Abs(p.entryPrice - p.stopLoss) + spread) * (p.volume * contract)
  {
    var g := Abs(p.entryPrice - p.stopLoss) + spread;
    GrossSplit(p.direction, p.entryPrice, p.stopLoss - Sign(p.direction) * spread, p.volume, contract);
    hide Gross;
    var w := p.volume * contract;
    assert (-g) * w == -(g * w);
  }

  /** The fill price of a signal that opened a position. */
  function FillOf(cfg: Config, candles: seq<Candle>, i: nat, sig: Signal, balance: real): real
    requires cfg.Valid() && i < |candles| && TryOpen(cfg, candles, i, sig, balance).Some?
  {
    FillPrice(sig, candles, i, SpreadPrice(cfg, candles[i])).value
  }

  /** The most a position opened by `sig` at candle `i` with that balance may lose at its initial stop, with `spread` at
      the exit: max(balance * risk / (d * c) + 0.005, 0.01) * (d + 0.00001 + spread) * c, for the opening distance d. */
  function Budget(cfg: Config, candles: seq<Candle>, i: nat, sig: Signal, balance: real, spread: real): real
    requires cfg.Valid() && i < |candles| && TryOpen(cfg, candles, i, sig, balance).Some?
    requires FillOf(cfg, candles, i, sig, balance) != sig.stopLoss
  {
    var d := Abs(FillOf(cfg, candles, i, sig, balance) - sig.stopLoss);
    LossBound(LotCeiling(balance, cfg.riskPct, d, cfg.contractSize), d, spread, cfg.contractSize)
  }

  /** Loss bound, before commission, of a position opened with risk sizing at candle `i` and closed whole at its initial
      stop. */
  lemma {:induction false} OpenedLoss(cfg: Config, candles: seq<Candle>, i: nat, sig: Signal, balance: real,
                                      spread: real)
    requires cfg.Valid() && cfg.riskPct > 0.0 && i < |candles| && spread >= 0.0
    requires TryOpen(cfg, candles, i, sig, balance).Some?
    ensures FillOf(cfg, candles, i, sig, balance) != sig.stopLoss
    ensures var p := TryOpen(cfg, candles, i, sig, balance).value;
      -Gross(p.direction, p.entryPrice, p.stopLoss - Sign(p.direction) * spread, p.volume, cfg.contractSize)
      <= Budget(cfg, candles, i, sig, balance, spread)
  {
    hide TryOpen, LotSize, Round, FillOf, Gross, LossBound, LotCeiling, AtOrWorse;
    var fill := FillOf(cfg, candles, i, sig, balance);
    RiskOpening(cfg, candles, i, sig, balance);
    var p := TryOpen(cfg, candles, i, sig, balance).value;
    var d := Abs(fill - sig.stopLoss);
    RoundedDistance(fill, sig.stopLoss);
    LotBound(balance, cfg.riskPct, fill, sig.stopLoss, cfg.contractSize);
    LotWithinLimits(balance, cfg.riskPct, fill, sig.stopLoss, cfg.contractSize);
    SizedLoss(p, cfg.contractSize, spread, d, LotCeiling(balance, cfg.riskPct, d, cfg.contractSize));
  }

  /** The same for the decision the exit check takes at a candle `c`. */
  lemma {:induction false} StopOutLoss(cfg: Config, candles: seq<Candle>, i: nat, sig: Signal, balance: real, c: Candle,
                                       spread: real)
    requires cfg.Valid() && cfg.riskPct > 0.0 && i < |candles| && spread >= 0.0
    requires TryOpen(cfg, candles, i, sig, balance).Some?
    ensures FillOf(cfg, candles, i, sig, balance) != sig.stopLoss
    ensures var p := TryOpen(cfg, candles, i, sig, balance).value;
      var x := Decide(p, c, cfg.closePriceMode, cfg.tpRatio, spread);
      x.Close? && x.exit.reason == StopHit ==>
        -Gross(p.direction, p.entryPrice, x.exit.price, p.volume, cfg.contractSize)
        <= Budget(cfg, candles, i, sig, balance, spread)
  {
    OpenedLoss(cfg, candles, i, sig, balance, spread);
    hide TryOpen, Decide, FillOf, Budget, Gross;
    StopExit(TryOpen(cfg, candles, i, sig, balance).value, c, cfg.closePriceMode, cfg.tpRatio, spread);
  }

  /** What `TryOpen` puts into a risk-sized position. */
  lemma {:induction false} RiskOpening(cfg: Config, candles: seq<Candle>, i: nat, sig: Signal, balance: real)
    requires cfg.Valid() && cfg.riskPct > 0.0 && i < |candles|
    requires TryOpen(cfg, candles, i, sig, balance).Some?
    ensures FillOf(cfg, candles, i, sig, balance) != sig.stopLoss
    ensures var p, fill := TryOpen(cfg, candles, i, sig, balance).value, FillOf(cfg, candles, i, sig, balance);
      && p.entryPrice == Round(fill, 100000.0) && p.stopLoss == Round(sig.stopLoss, 100000.0)
      && p.volume == LotSize(balance, cfg.riskPct, fill, sig.stopLoss, cfg.contractSize)
      && AtOrWorse(p.direction, p.stopLoss, p.entryPrice)
  {
    var fill := FillOf(cfg, candles, i, sig, balance);
    if Direct(sig.action) == BUY {
      RoundMonotone(sig.stopLoss, fill, 100000.0);
    } else {
      RoundMonotone(fill, sig.stopLoss, 100000.0);
    }
    hide LotSize, Round, FillPrice;
  }

  /** The loss at the stop of a position of at most `lot` lots, whose rounded stop distance is at most d + 0.00001. */
  lemma {:induction false} SizedLoss(p: Position, contract: real, spread: real, d: real, lot: real)
    requires contract > 0.0 && spread >= 0.0 && AtOrWorse(p.direction, p.stopLoss, p.entryPrice)
    requires Abs(p.entryPrice - p.stopLoss) <= d + 0.00001 && 0.0 <= p.volume <= lot
    ensures -Gross(p.direction, p.entryPrice, p.stopLoss - Sign(p.direction) * spread, p.volume, contract)
         <= LossBound(lot, d, spread, contract)
  {
    hide Gross;
    StopOutGross(p, spread, contract);
    LossProduct(Abs(p.entryPrice - p.stopLoss) + spread, d + 0.00001 + spread, p.volume, lot, contract);
  }

  lemma {:induction false} LossProduct(g: real, bound: real, volume: real, lot: real, contract: real)
    requires 0.0 <= g <= bound && 0.0 <= volume <= lot && contract > 0.0
    ensures g * (volume * contract) <= lot * (bound * contract)
  {
    RealMulMonotone(g, bound, volume, lot);
    RealMulMonotone(g * volume, bound * lot, contract, contract);
    assert g * volume * contract == g * (volume * contract);
    assert bound * lot * contract == lot * (bound * contract);
  }

  lemma {:induction false} StopExit(p: Position, c: Candle, closeMode: bool, ratio: real, spread: real)
    ensures var e := Decide(p, c, closeMode, ratio, spread);
      e.Close? && e.exit.reason == StopHit ==> e.exit.price == p.stopLoss - Sign(p.direction) * spread
  {
    hide AtOrWorse, AtOrBetter;
  }
}
