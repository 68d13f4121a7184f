/** The balance, the trade list and the equity curve tell one story, up to a bounded rounding drift. */
module Ledger {
  import opened PyRound
  import opened Reals
  import opened BacktestModels
  import opened BacktestHelpers
  import opened BacktestEngine
  import opened Lifecycle

  function Sum(xs: seq<real>): real {
    if xs == [] then 0.0 else Sum(xs[..|xs| - 1]) + xs[|xs| - 1]
  }

  /** What a recorded trade earned, recomputed from its own fields without rounding. */
  function NetOf(cfg: Config, t: Trade): real {
    Gross(t.direction, t.entryPrice, t.exitPrice, t.volume, cfg.contractSize) - cfg.commissionPerLot * t.volume
  }

  function NetsOf(cfg: Config, ts: seq<Trade>): (ns: seq<real>)
    ensures |ns| == |ts|
  {
    seq(|ts|, i requires 0 <= i < |ts| => NetOf(cfg, ts[i]))
  }

  function Profits(ts: seq<Trade>): (ps: seq<real>)
    ensures |ps| == |ts|
  {
    seq(|ts|, i requires 0 <= i < |ts| => ts[i].profit)
  }

  /** Entry `j` of the trade list and of the equity curve record `nets[j]` and the balance after it. */
  ghost predicate Entry(initial: real, nets: seq<real>, trades: seq<Trade>, equity: seq<EquityPoint>, j: nat)
    requires j < |nets| == |trades| == |equity|
  {
    && trades[j].profit == Round(nets[j], 10000.0)
    && trades[j].equityAfter == Round(initial + Sum(nets[..j + 1]), 10000.0)
    && equity[j] == EquityPoint(trades[j].exitTime, trades[j].equityAfter)
  }

  /** The books balance: `nets` are the exact amounts booked so far. */
  ghost predicate Balanced(initial: real, nets: seq<real>, trades: seq<Trade>, equity: seq<EquityPoint>,
                           balance: real) {
    && |nets| == |trades| == |equity|
    && balance == initial + Sum(nets)
    && forall j: nat | j < |nets| :: Entry(initial, nets, trades, equity, j)
  }

  lemma {:induction false} SumAppend(xs: seq<real>, x: real)
    ensures Sum(xs + [x]) == Sum(xs) + x
  {
    assert (xs + [x])[..|xs|] == xs;
  }

  /** Booking one more net amount keeps the books balanced. */
  lemma {:induction false} BookingBalances(initial: real, nets: seq<real>, trades: seq<Trade>,
                                           equity: seq<EquityPoint>, balance: real, net: real, t: Trade)
    requires Balanced(initial, nets, trades, equity, balance)
    requires t.profit == Round(net, 10000.0) && t.equityAfter == Round(balance + net, 10000.0)
    ensures Balanced(initial, nets + [net], trades + [t], equity + [EquityPoint(t.exitTime, t.equityAfter)],
                     balance + net)
  {
    hide Round, Sum;
    SumAppend(nets, net);
    var ns, ts, es := nets + [net], trades + [t], equity + [EquityPoint(t.exitTime, t.equityAfter)];
    forall j: nat | j < |ns|
      ensures Entry(initial, ns, ts, es, j)
    {
      if j < |nets| {
        assert Entry(initial, nets, trades, equity, j);
        assert ns[..j + 1] == nets[..j + 1];
      } else {
        assert ns[..j + 1] == ns;
      }
    }
  }

  lemma {:induction false} NetsAppend(cfg: Config, ts: seq<Trade>, t: Trade)
    ensures NetsOf(cfg, ts + [t]) == NetsOf(cfg, ts) + [NetOf(cfg, t)]
  {
    hide NetOf;
  }

  ghost predicate BooksOk<S(!new)>(cfg: Config, s: Sim<S>) {
    Balanced(cfg.initialBalance, NetsOf(cfg, s.trades), s.trades, s.equity, s.balance)
  }

  /** A record's own fields give back the net amount it was booked with. */
  lemma {:induction false} RecordNet(cfg: Config, p: Position, volume: real, time: int, price: real, reason: Reason,
                                     balance: real)
    ensures NetOf(cfg, Record(p, volume, time, price, reason, Net(cfg, p, price, volume), balance)) ==
            Net(cfg, p, price, volume)
  {
    hide Gross, Round;
  }

  /** The exit check keeps the books. */
  lemma {:induction false} ExitBalances<S(!new)>(cfg: Config, s: Sim<S>, c: Candle)
    requires BooksOk(cfg, s)
    ensures BooksOk(cfg, ExitPhase(cfg, s, c))
  {
    hide SpreadPrice, Decide, NetsOf, Balanced, Net, Round;
    if s.pos.Some? {
      var p := s.pos.value;
      match Decide(p, c, cfg.closePriceMode, cfg.tpRatio, SpreadPrice(cfg, c))
      case Keep =>
      case Close(e) => BookBalances(cfg, s, p, p.volume, e.time, e.price, e.reason);
      case Partial(o) => BookBalances(cfg, s, p, o.volumeClosed, o.time, o.price, o.reason);
    }
  }

  lemma {:induction false} BookBalances<S(!new)>(cfg: Config, s: Sim<S>, p: Position, volume: real, time: int,
                                                 price: real, reason: Reason)
    requires BooksOk(cfg, s)
    ensures BooksOk(cfg, Book(cfg, s, p, volume, time, price, price, reason))
  {
    hide Balanced, NetsOf, Net, Round;
    var net := Net(cfg, p, price, volume);
    var t := Record(p, volume, time, price, reason, net, s.balance + net);
    RecordNet(cfg, p, volume, time, price, reason, s.balance + net);
    NetsAppend(cfg, s.trades, t);
    BookingBalances(cfg.initialBalance, NetsOf(cfg, s.trades), s.trades, s.equity, s.balance, net, t);
  }

  /** Over a whole run the balance is the initial balance plus the unrounded result of every recorded trade, and
      the equity curve matches the trade list entry by entry. */
  lemma {:induction false} RunBalances<S(!new)>(a: Setup<S>, k: nat)
    requires a.cfg.Valid() && k <= |a.candles|
    ensures BooksOk(a.cfg, After(a, k))
  {
    hide After, SignalPhase, Balanced, ExitPhase, NetsOf, AdvanceAll;
    if k == 0 {
      AfterNone(a);
      EmptyBooks(a.cfg);
    } else {
      RunBalances(a, k - 1);
      AfterStep(a, k - 1);
      ExitBalances(a.cfg, Advanced(a, k - 1, After(a, k - 1)), a.candles[k - 1]);
      SignalPhaseRecordsNothing(a, k - 1, Exited(a, k - 1, After(a, k - 1)));
    }
  }

  lemma {:induction false} EmptyBooks(cfg: Config)
    ensures Balanced(cfg.initialBalance, NetsOf(cfg, []), [], [], cfg.initialBalance)
  {
  }

  // ----- the finished run

  /** The exact amounts booked by a run: those of the trades in the loop, and the close at the end of the data. */
  function FinalNets<S>(a: Setup<S>): seq<real>
    requires a.cfg.Valid()
  {
    var s := After(a, |a.candles|);
    NetsOf(a.cfg, s.trades)
    + if s.pos.Some? && a.candles != []
      then [Net(a.cfg, s.pos.value, a.candles[|a.candles| - 1].close, s.pos.value.volume)]
      else []
  }

  lemma {:induction false} FinalBalances<S(!new)>(a: Setup<S>)
    requires a.cfg.Valid()
    ensures Balanced(a.cfg.initialBalance, FinalNets(a), Final(a).trades, Final(a).equity, Final(a).balance)
  {
    hide After, Balanced, NetsOf, Net, Round;
    AfterNone(a);
    var n := |a.candles|;
    var s := After(a, n);
    RunBalances(a, n);
    if s.pos.Some? && n > 0 {
      var p, last := s.pos.value, a.candles[n - 1];
      var net := Net(a.cfg, p, last.close, p.volume);
      var t := Record(p, p.volume, last.time, Round(last.close, 100000.0), EndOfData, net, s.balance + net);
      BookingBalances(a.cfg.initialBalance, NetsOf(a.cfg, s.trades), s.trades, s.equity, s.balance, net, t);
    } else {
      assert FinalNets(a) == NetsOf(a.cfg, s.trades);
    }
  }

  /** Rounded profits stay within half a unit of the fourth decimal per trade. */
  lemma {:induction false} ProfitDrift(nets: seq<real>, trades: seq<Trade>)
    requires |nets| == |trades| && forall j | 0 <= j < |nets| :: trades[j].profit == Round(nets[j], 10000.0)
    ensures Abs(Sum(Profits(trades)) - Sum(nets)) <= |nets| as real * 0.00005
  {
    hide Round;
    if nets != [] {
      var n := |nets| - 1;
      ProfitDrift(nets[..n], trades[..n]);
      assert Profits(trades)[..n] == Profits(trades[..n]);
      RoundError(nets[n], 10000.0);
      assert |nets| as real * 0.00005 == n as real * 0.00005 + 0.00005;
    }
  }

  /** `equity_after[k]` is within (k + 2) * 0.00005 of the initial balance plus the first k + 1 rounded profits. */
  lemma {:induction false} EquityDrift(initial: real, nets: seq<real>, trades: seq<Trade>, equity: seq<EquityPoint>,
                                       balance: real, k: nat)
    requires Balanced(initial, nets, trades, equity, balance) && k < |trades|
    ensures Abs(trades[k].equityAfter - (initial + Sum(Profits(trades[..k + 1])))) <= (k + 2) as real * 0.00005
  {
    hide Round;
    assert Entry(initial, nets, trades, equity, k);
    var ns, ts := nets[..k + 1], trades[..k + 1];
    forall j | 0 <= j < k + 1
      ensures ts[j].profit == Round(ns[j], 10000.0)
    {
      assert Entry(initial, nets, trades, equity, j);
    }
    ProfitDrift(ns, ts);
    RoundError(initial + Sum(nets[..k + 1]), 10000.0);
    assert (k + 2) as real * 0.00005 == (k + 1) as real * 0.00005 + 0.00005;
  }

  /** The drift bound for what a run returns. */
  lemma {:induction false} ReturnedEquityDrift<S(!new)>(a: Setup<S>, k: nat)
    requires a.cfg.Valid() && k < |Final(a).trades|
    ensures var ts := Final(a).trades;
      && Final(a).equity[..] == seq(|ts|, j requires 0 <= j < |ts| => EquityPoint(ts[j].exitTime, ts[j].equityAfter))
      && Abs(ts[k].equityAfter - (a.cfg.initialBalance + Sum(Profits(ts[..k + 1])))) <= (k + 2) as real * 0.00005
  {
    hide Final, FinalNets, Sum, Profits, Round;
    FinalBalances(a);
    var ts, es := Final(a).trades, Final(a).equity;
    EquityDrift(a.cfg.initialBalance, FinalNets(a), ts, es, Final(a).balance, k);
    forall j: nat | j < |ts|
      ensures es[j] == EquityPoint(ts[j].exitTime, ts[j].equityAfter)
    {
      assert Entry(a.cfg.initialBalance, FinalNets(a), ts, es, j);
    }
  }

  lemma {:induction false} ScaledBound(d: real, w: real, bound: real)
    requires -bound <= d <= bound && w >= 0.0
    ensures Abs(d * w) <= bound * w
  {
    assert (bound - d) * w >= 0.0 && (bound + d) * w >= 0.0;
    assert (bound - d) * w == bound * w - d * w;
    assert (bound + d) * w == bound * w + d * w;
  }

  /** The trade closed at the end of the data shows a rounded exit price but was booked at the raw close: its fields
      give back the booked amount only up to 0.000005 price units. */
  lemma {:induction false} EndOfDataGap(cfg: Config, p: Position, close: real, time: int, balance: real)
    requires cfg.Valid() && p.volume >= 0.0
    ensures var net := Net(cfg, p, close, p.volume);
      var t := Record(p, p.volume, time, Round(close, 100000.0), EndOfData, net, balance);
      Abs(NetOf(cfg, t) - net) <= 0.000005 * (p.volume * cfg.contractSize)
  {
    hide Round, Gross;
    RoundError(close, 100000.0);
    var shown, w := Round(close, 100000.0), p.volume * cfg.contractSize;
    var net := Net(cfg, p, close, p.volume);
    var t := Record(p, p.volume, time, shown, EndOfData, net, balance);
    GrossGap(p.direction, p.entryPrice, shown, close, p.volume, cfg.contractSize);
    ScaledBound(shown - close, w, 0.000005);
    assert NetOf(cfg, t) - net
        == Gross(p.direction, p.entryPrice, shown, p.volume, cfg.contractSize)
         - Gross(p.direction, p.entryPrice, close, p.volume, cfg.contractSize);
  }

  lemma {:induction false} ProductIsZero(x: real, y: real)
    ensures x * y == 0.0 <==> x == 0.0 || y == 0.0
  {
  }

  /** That trade's fields give back the booked amount exactly when the close is on the five-digit grid, or nothing was
      closed. */
  lemma {:induction false} EndOfDataExactIff(cfg: Config, p: Position, close: real, time: int, balance: real)
    requires cfg.Valid()
    ensures var net := Net(cfg, p, close, p.volume);
      var t := Record(p, p.volume, time, Round(close, 100000.0), EndOfData, net, balance);
      NetOf(cfg, t) == net <==> p.volume == 0.0 || Round(close, 100000.0) == close
  {
    hide Round, Gross;
    var shown, w := Round(close, 100000.0), p.volume * cfg.contractSize;
    GrossGap(p.direction, p.entryPrice, shown, close, p.volume, cfg.contractSize);
    ProductIsZero(shown - close, w);
    ProductIsZero(p.volume, cfg.contractSize);
  }

  /** The run closes nothing at the end of the data, or closes it at a price that rounding leaves alone. */
  predicate EndsOnTheGrid<S>(a: Setup<S>)
    requires a.cfg.Valid()
  {
    var s := After(a, |a.candles|);
    s.pos.Some? && a.candles != [] ==>
      s.pos.value.volume == 0.0 ||
      Round(a.candles[|a.candles| - 1].close, 100000.0) == a.candles[|a.candles| - 1].close
  }

  /** The final balance can be recomputed from the fields of the returned trades exactly when no position was left to
      close at the end of the data, or it was empty, or the last close is on the five-digit grid. */
  lemma {:induction false} BalanceFromTradesIff<S(!new)>(a: Setup<S>)
    requires a.cfg.Valid()
    ensures Final(a).balance == a.cfg.initialBalance + Sum(NetsOf(a.cfg, Final(a).trades)) <==> EndsOnTheGrid(a)
  {
    hide After, NetsOf, Net, Round, NetOf, Entry;
    FinalBalances(a);
    AfterNone(a);
    var n := |a.candles|;
    var s := After(a, n);
    if s.pos.Some? && n > 0 {
      var p, last := s.pos.value, a.candles[n - 1];
      var net := Net(a.cfg, p, last.close, p.volume);
      var t := Record(p, p.volume, last.time, Round(last.close, 100000.0), EndOfData, net, s.balance + net);
      EndOfDataExactIff(a.cfg, p, last.close, last.time, s.balance + net);
      NetsAppend(a.cfg, s.trades, t);
      SumAppend(NetsOf(a.cfg, s.trades), NetOf(a.cfg, t));
      SumAppend(NetsOf(a.cfg, s.trades), net);
      hide Sum;
      assert Final(a).trades == s.trades + [t];
      assert FinalNets(a) == NetsOf(a.cfg, s.trades) + [net];
    } else {
      assert FinalNets(a) == NetsOf(a.cfg, s.trades);
      assert Final(a).trades == s.trades;
    }
  }

  /** Moving the exit price moves the gross result in proportion. */
  lemma {:induction false} GrossGap(d: Direction, entry: real, x: real, y: real, volume: real, contract: real)
    ensures Abs(Gross(d, entry, x, volume, contract) - Gross(d, entry, y, volume, contract)) ==
            Abs((x - y) * (volume * contract))
  {
    GrossSplit(d, entry, x, volume, contract);
    GrossSplit(d, entry, y, volume, contract);
    hide Gross;
    var w := volume * contract;
    RealDistribute(x - entry, y - entry, w);
    assert (x - entry) - (y - entry) == x - y;
  }

  lemma {:induction false} RealDistribute(x: real, y: real, w: real)
    ensures x * w - y * w == (x - y) * w
  {
  }

  lemma {:induction false} GrossSplit(d: Direction, entry: real, exit: real, volume: real, contract: real)
    ensures Gross(d, entry, exit, volume, contract) ==
            if d == BUY then (exit - entry) * (volume * contract) else -((exit - entry) * (volume * contract))
  {
    var x := exit - entry;
    assert x * volume * contract == x * (volume * contract);
    assert (-x) * volume * contract == -(x * (volume * contract));
  }
}
