/** When a run opens a position, at what price, and how large. */
module Openings {
  import opened Options
  import opened PyRound
  import opened Reals
  import opened BacktestModels
  import opened BacktestHelpers
  import opened BacktestEngine
  import opened Ledger
  import opened StopOutRuns

  /** The price a signal is filled at: a market order at the next candle's open, plus the spread of the signal's candle
      for a buyer and less it for a seller, and not at all on the last candle; a pending order at its own entry, if it
      names one. The spread is the candle's points if it has any, else the configured pips. */
  ghost predicate FilledAt(cfg: Config, candles: seq<Candle>, i: nat, sig: Signal, price: real)
    requires i < |candles|
  {
    var c := candles[i];
    var spread := if c.spread > 0 then c.spread as real * cfg.pointPrice else cfg.spreadPips * cfg.pipValue;
    match sig.action
    case Buy => i + 1 < |candles| && price == candles[i + 1].open + spread
    case Sell => i + 1 < |candles| && price == candles[i + 1].open - spread
    case NoTrade => false
    case _ => sig.entry == Some(price)
  }

  /** Stop and target on the two sides of the price that the action asks for, and the stop at least 0.1 % of the price
      away. */
  ghost predicate Sound(sig: Signal, price: real) {
    && (if sig.action in {Buy, BuyLimit, BuyStop} then sig.stopLoss < price < sig.takeProfit
        else sig.takeProfit < price < sig.stopLoss)
    && MaxR(price - sig.stopLoss, sig.stopLoss - price) >= price / 1000.0
  }

  /** `p` was opened at `price` on the terms of `sig`. */
  ghost predicate OnTerms(cfg: Config, c: Candle, sig: Signal, price: real, p: Position) {
    && p.direction == (if sig.action in {Buy, BuyLimit, BuyStop} then BUY else SELL)
    && p.entryTime == c.time && p.levels == sig.levels && p.levelIdx == 0
    && p.entryPrice == Round(price, 100000.0) && p.stopLoss == Round(sig.stopLoss, 100000.0)
    && p.takeProfit == Round(sig.takeProfit, 100000.0)
    && (cfg.riskPct <= 0.0 ==> p.volume == cfg.volume)
  }

  lemma {:induction false} FillIs(cfg: Config, candles: seq<Candle>, i: nat, sig: Signal, price: real)
    requires i < |candles|
    ensures FilledAt(cfg, candles, i, sig, price) <==>
            sig.action != NoTrade && FillPrice(sig, candles, i, SpreadPrice(cfg, candles[i])) == Some(price)
  {
    match sig.action {
      case Buy =>
      case Sell =>
      case NoTrade =>
      case _ =>
    }
  }

  lemma {:induction false} SoundIs(sig: Signal, price: real)
    requires sig.action != NoTrade
    ensures Sound(sig, price) <==> Accepts(Direct(sig.action), price, sig)
  {
  }

  /** Acting on a signal opens a position exactly when it is filled at a sound price, and on the signal's terms. */
  lemma {:induction false} OpensIff(cfg: Config, candles: seq<Candle>, i: nat, sig: Signal, balance: real)
    requires cfg.Valid() && i < |candles|
    ensures TryOpen(cfg, candles, i, sig, balance).Some? <==>
            exists price :: FilledAt(cfg, candles, i, sig, price) && Sound(sig, price)
    ensures forall price | FilledAt(cfg, candles, i, sig, price) ::
      TryOpen(cfg, candles, i, sig, balance).Some? ==>
        OnTerms(cfg, candles[i], sig, price, TryOpen(cfg, candles, i, sig, balance).value)
  {
    forall price
      ensures FilledAt(cfg, candles, i, sig, price) <==>
              sig.action != NoTrade && FillPrice(sig, candles, i, SpreadPrice(cfg, candles[i])) == Some(price)
      ensures sig.action != NoTrade ==> (Sound(sig, price) <==> Accepts(Direct(sig.action), price, sig))
    {
      FillIs(cfg, candles, i, sig, price);
      if sig.action != NoTrade {
        SoundIs(sig, price);
      }
    }
    hide FilledAt, Sound, Accepts, LotSize, Round, FillPrice, SpreadPrice;
  }

  /** The price a run's position was filled at. */
  lemma {:induction false} FillOfOpening<S(!new)>(a: Setup<S>, i: nat, sig: Signal, p: Position) returns (price: real)
    requires a.cfg.Valid() && OpenedBy(a, i, sig, p)
    ensures FilledAt(a.cfg, a.candles, i, sig, price) && Sound(sig, price)
    ensures OnTerms(a.cfg, a.candles[i], sig, price, p)
  {
    hide FilledAt, Sound, OnTerms, TryOpen, After, Exited;
    OpensIff(a.cfg, a.candles, i, sig, After(a, i + 1).balance);
    price :| FilledAt(a.cfg, a.candles, i, sig, price) && Sound(sig, price);
  }

  /** What opened a position of a run: it was flat at candle `i`, which is the fiftieth or later, acted on the held
      signal, and the position is on the terms of that signal at the price it was filled at. */
  lemma {:induction false} OpenedOnTerms<S(!new)>(a: Setup<S>, i: nat, sig: Signal, p: Position)
    requires a.cfg.Valid() && OpenedBy(a, i, sig, p)
    ensures exists price ::
      FilledAt(a.cfg, a.candles, i, sig, price) && Sound(sig, price) && OnTerms(a.cfg, a.candles[i], sig, price, p)
    ensures i >= 49
  {
    hide FilledAt, Sound, OnTerms, TryOpen, After, Exited;
    var price := FillOfOpening(a, i, sig, p);
    FlatBeforeFifty(a, i);
  }

  lemma {:induction false} FlatBeforeFifty<S(!new)>(a: Setup<S>, i: nat)
    requires a.cfg.Valid() && i < |a.candles|
    ensures i < 49 ==> After(a, i + 1).pos.None?
  {
    hide After;
    if i < 49 {
      FlatUntilAsked(a, i + 1);
    }
  }

  /** The run opens at candle `i` exactly when it is flat there, has fifty candles to look at, and holds a signal that
      is filled at a sound price. */
  lemma {:induction false} RunOpensIff<S(!new)>(a: Setup<S>, i: nat)
    requires a.cfg.Valid() && i < |a.candles| && Exited(a, i, After(a, i)).pos.None?
    ensures After(a, i + 1).pos.Some? <==>
      i >= 49 && After(a, i + 1).lastSignal.Some? && var sig := After(a, i + 1).lastSignal.value;
        exists price :: FilledAt(a.cfg, a.candles, i, sig, price) && Sound(sig, price)
  {
    AfterStep(a, i);
    FlatBeforeFifty(a, i);
    var after := After(a, i + 1);
    if after.lastSignal.Some? {
      OpensIff(a.cfg, a.candles, i, after.lastSignal.value, after.balance);
    }
    hide After, Exited, FilledAt, Sound, TryOpen, Ask;
  }

  // ----- what the spread costs

  /** A position opened on a market order is entered at the rounded next open plus the spread for a buyer, less it for a
      seller; with a spread that is not negative that is never better than the rounded open. */
  lemma {:induction false} MarketOrdersPayTheSpread<S(!new)>(a: Setup<S>, i: nat, sig: Signal, p: Position)
    requires a.cfg.Valid() && OpenedBy(a, i, sig, p) && sig.action in {Buy, Sell}
    ensures i + 1 < |a.candles|
    ensures var c, open := a.candles[i], a.candles[i + 1].open;
      var spread := if c.spread > 0 then c.spread as real * a.cfg.pointPrice else a.cfg.spreadPips * a.cfg.pipValue;
      if sig.action == Buy then
        && p.direction == BUY && p.entryPrice == Round(open + spread, 100000.0)
        && (spread >= 0.0 ==> p.entryPrice >= Round(open, 100000.0))
      else
        && p.direction == SELL && p.entryPrice == Round(open - spread, 100000.0)
        && (spread >= 0.0 ==> p.entryPrice <= Round(open, 100000.0))
  {
    hide OpenedBy, Round, Sound;
    var price := FillOfOpening(a, i, sig, p);
    var c, open := a.candles[i], a.candles[i + 1].open;
    var spread := if c.spread > 0 then c.spread as real * a.cfg.pointPrice else a.cfg.spreadPips * a.cfg.pipValue;
    assert price == if sig.action == Buy then open + spread else open - spread;
    if price >= open {
      RoundMonotone(open, price, 100000.0);
    } else {
      RoundMonotone(price, open, 100000.0);
    }
  }

  /** Marked at the open it was filled at, such a position has lost the spread on its size, up to the rounding of the
      entry. */
  lemma {:induction false} MarkedAtTheOpen<S(!new)>(a: Setup<S>, i: nat, sig: Signal, p: Position)
    requires a.cfg.Valid() && OpenedBy(a, i, sig, p) && sig.action in {Buy, Sell} && p.volume >= 0.0
    ensures i + 1 < |a.candles|
    ensures var c, open := a.candles[i], a.candles[i + 1].open;
      var spread := if c.spread > 0 then c.spread as real * a.cfg.pointPrice else a.cfg.spreadPips * a.cfg.pipValue;
      var size := p.volume * a.cfg.contractSize;
      var result := if p.direction == BUY then (open - p.entryPrice) * size else (p.entryPrice - open) * size;
      Abs(result + spread * size) <= 0.000005 * size
  {
    hide OpenedBy, Round;
    MarketOrdersPayTheSpread(a, i, sig, p);
    var c, open := a.candles[i], a.candles[i + 1].open;
    var spread := if c.spread > 0 then c.spread as real * a.cfg.pointPrice else a.cfg.spreadPips * a.cfg.pipValue;
    RoundError(open + spread, 100000.0);
    RoundError(open - spread, 100000.0);
    MarkedProduct(if p.direction == BUY then open - p.entryPrice else p.entryPrice - open, spread,
                  p.volume * a.cfg.contractSize);
  }

  lemma {:induction false} MarkedProduct(moved: real, spread: real, size: real)
    requires Abs(moved + spread) <= 0.000005 && size >= 0.0
    ensures Abs(moved * size + spread * size) <= 0.000005 * size
  {
    ScaledBound(moved + spread, size, 0.000005);
    SplitProduct(moved, spread, size);
  }

  lemma {:induction false} SplitProduct(x: real, y: real, w: real)
    ensures (x + y) * w == x * w + y * w
  {
  }

  /** A position opened on a pending order is entered at the signal's own rounded entry. */
  lemma {:induction false} PendingOrdersFillAtTheirEntry<S(!new)>(a: Setup<S>, i: nat, sig: Signal, p: Position)
    requires a.cfg.Valid() && OpenedBy(a, i, sig, p) && sig.action !in {Buy, Sell}
    ensures sig.entry.Some? && p.entryPrice == Round(sig.entry.value, 100000.0)
    ensures p.direction == (if sig.action in {BuyLimit, BuyStop} then BUY else SELL)
  {
    hide OpenedBy, Round, Sound;
    var price := FillOfOpening(a, i, sig, p);
  }

  // ----- size

  /** `lot` lies between 0.01 and 100. At neither limit, what the distance `d` is worth on it is the configured share of
      the balance, up to half a lot step; at the lower limit that share buys at most 0.015 lots or there is no distance
      to speak of; at the upper it buys at least 99.995. */
  ghost predicate Risks(lot: real, d: real, contract: real, balance: real, riskPct: real) {
    var perLot, budget := d * contract, balance * riskPct;
    && 0.01 <= lot <= 100.0
    && (0.01 < lot < 100.0 ==> Abs(lot * perLot - budget) <= 0.005 * perLot)
    && (lot == 0.01 ==> d < 0.00000001 || budget <= 0.015 * perLot)
    && (lot == 100.0 ==> budget >= 99.995 * perLot)
  }

  /** A risk-sized position of a run risks the configured share of the balance over its stop distance. */
  lemma {:induction false} SizedToTheRisk<S(!new)>(a: Setup<S>, i: nat, sig: Signal, p: Position, price: real)
    requires a.cfg.Valid() && a.cfg.riskPct > 0.0 && OpenedBy(a, i, sig, p)
    requires FilledAt(a.cfg, a.candles, i, sig, price)
    ensures Risks(p.volume, Abs(price - sig.stopLoss), a.cfg.contractSize, After(a, i + 1).balance, a.cfg.riskPct)
  {
    hide After, Exited, FilledAt, LotAt, Risks, Abs;
    OpenedLot(a.cfg, a.candles, i, sig, After(a, i + 1).balance, price);
    LotRisk(After(a, i + 1).balance, a.cfg.riskPct, Abs(price - sig.stopLoss), a.cfg.contractSize);
  }

  lemma {:induction false} OpenedLot(cfg: Config, candles: seq<Candle>, i: nat, sig: Signal, balance: real, price: real)
    requires cfg.Valid() && cfg.riskPct > 0.0 && i < |candles| && TryOpen(cfg, candles, i, sig, balance).Some?
    requires FilledAt(cfg, candles, i, sig, price)
    ensures Abs(price - sig.stopLoss) > 0.0
    ensures TryOpen(cfg, candles, i, sig, balance).value.volume
         == LotAt(balance, cfg.riskPct, Abs(price - sig.stopLoss), cfg.contractSize)
  {
    FillIs(cfg, candles, i, sig, price);
    hide FilledAt, FillPrice, LotAt, Round, SpreadPrice;
  }

  lemma {:induction false} LotRisk(balance: real, riskPct: real, d: real, contract: real)
    requires contract > 0.0 && d > 0.0
    ensures Risks(LotAt(balance, riskPct, d, contract), d, contract, balance, riskPct)
  {
    var perLot, budget := d * contract, balance * riskPct;
    assert perLot > 0.0;
    var exact := budget / perLot;
    RoundError(exact, 100.0);
    hide Round;
    assert exact * perLot == budget;
    LotSpread(Round(exact, 100.0), exact, budget, perLot);
  }

  /** What rounding and clamping an exact lot does to the money at risk. */
  lemma {:induction false} LotSpread(rounded: real, exact: real, budget: real, perLot: real)
    requires perLot > 0.0 && exact * perLot == budget && -0.005 <= rounded - exact <= 0.005
    ensures Abs(rounded * perLot - budget) <= 0.005 * perLot
    ensures rounded <= 0.01 ==> budget <= 0.015 * perLot
    ensures rounded >= 100.0 ==> budget >= 99.995 * perLot
  {
    var gap := (rounded - exact) * perLot;
    assert rounded * perLot - budget == gap by {
      RealDistribute(rounded, exact, perLot);
    }
    ProductOrder(rounded - exact, 0.005, perLot);
    ProductOrder(-0.005, rounded - exact, perLot);
    ProductOrder(exact, 0.015, perLot);
    ProductOrder(99.995, exact, perLot);
  }

  lemma {:induction false} ProductOrder(x: real, y: real, w: real)
    requires w > 0.0
    ensures x <= y ==> x * w <= y * w
  {
    if x <= y {
      assert (y - x) * w >= 0.0;
      RealDistribute(y, x, w);
    }
  }
}
