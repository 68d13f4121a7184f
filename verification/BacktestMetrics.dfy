/** The loops of `compute_metrics` and of the analytics route. */
module BacktestMetrics {
  import opened Reals
  import opened Drawdown
  import opened BacktestModels
  import opened BacktestEngine
  import opened Ledger

  /** The peak and the largest fall of the running balance. */
  method MetricsDrawdown(profits: seq<real>, initialBalance: real) returns (peak: real, maxFall: real)
    ensures IsPeak(Curve(initialBalance, profits), peak)
    ensures IsMaxFall(Curve(initialBalance, profits), maxFall)
  {
    peak, maxFall := initialBalance, 0.0;
    var running := initialBalance;
    assert Fall([running], 0, 0) == 0.0;
    for i := 0 to |profits|
      invariant running == Curve(initialBalance, profits[..i])[i]
      invariant IsPeak(Curve(initialBalance, profits[..i]), peak)
      invariant IsMaxFall(Curve(initialBalance, profits[..i]), maxFall) && maxFall >= 0.0
    {
      ghost var curve := Curve(initialBalance, profits[..i]);
      PeakExtends(curve, peak, running + profits[i]);
      MaxFallExtends(curve, peak, maxFall, running + profits[i]);
      assert profits[..i + 1][..i] == profits[..i];
      assert Curve(initialBalance, profits[..i + 1]) == curve + [running + profits[i]];
      hide IsPeak, IsMaxFall, Curve;
      running := running + profits[i];
      if running > peak {
        peak := running;
      }
      var fall := peak - running;
      if fall > maxFall {
        maxFall := fall;
      }
    }
    assert profits[..|profits|] == profits;
  }

  /** The analytics loop starts at zero and returns the same fall as the metrics loop from any balance. */
  method CalculateMaxDrawdown(profits: seq<real>) returns (maxFall: real)
    ensures forall balance :: IsMaxFall(Curve(balance, profits), maxFall)
  {
    var peak, equity := 0.0, 0.0;
    maxFall := 0.0;
    assert Fall([equity], 0, 0) == 0.0;
    for i := 0 to |profits|
      invariant equity == Curve(0.0, profits[..i])[i]
      invariant IsPeak(Curve(0.0, profits[..i]), peak)
      invariant IsMaxFall(Curve(0.0, profits[..i]), maxFall) && maxFall >= 0.0
    {
      ghost var curve := Curve(0.0, profits[..i]);
      PeakExtends(curve, peak, equity + profits[i]);
      MaxFallExtends(curve, peak, maxFall, equity + profits[i]);
      assert profits[..i + 1][..i] == profits[..i];
      assert Curve(0.0, profits[..i + 1]) == curve + [equity + profits[i]];
      hide IsPeak, IsMaxFall, Curve;
      equity := equity + profits[i];
      if equity > peak {
        peak := equity;
      }
      var fall := peak - equity;
      if fall > maxFall {
        maxFall := fall;
      }
    }
    assert profits[..|profits|] == profits;
    forall balance
      ensures IsMaxFall(Curve(balance, profits), maxFall)
    {
      MaxFallIgnoresStart(0.0, balance, profits, maxFall);
    }
  }

  /** The longest runs of wins and of losses; a break-even trade ends both. */
  method Consecutive(profits: seq<real>) returns (maxWins: nat, maxLosses: nat)
    ensures IsLongest(profits, true, maxWins) && IsLongest(profits, false, maxLosses)
  {
    maxWins, maxLosses := 0, 0;
    var curWins: nat, curLosses: nat := 0, 0;
    assert Streak([], true, 0, 0) && Streak([], false, 0, 0);
    for i := 0 to |profits|
      invariant IsTail(profits[..i], true, curWins) && IsTail(profits[..i], false, curLosses)
      invariant IsLongest(profits[..i], true, maxWins) && IsLongest(profits[..i], false, maxLosses)
    {
      ghost var seen := profits[..i];
      var p := profits[i];
      TailExtends(seen, true, curWins, p);
      TailExtends(seen, false, curLosses, p);
      hide IsTail, IsLongest;
      if p > 0.0 {
        curWins := curWins + 1;
        curLosses := 0;
      } else if p < 0.0 {
        curLosses := curLosses + 1;
        curWins := 0;
      } else {
        curWins, curLosses := 0, 0;
      }
      LongestExtends(seen, true, maxWins, curWins, p);
      LongestExtends(seen, false, maxLosses, curLosses, p);
      maxWins := if curWins > maxWins then curWins else maxWins;
      maxLosses := if curLosses > maxLosses then curLosses else maxLosses;
      assert profits[..i + 1] == seen + [p];
    }
    assert profits[..|profits|] == profits;
  }

  // ----- the metrics of a simulated run

  /** The curve the run reports: the initial balance, then `equity_after` of each trade. */
  function ReportedCurve(initialBalance: real, trades: seq<Trade>): seq<real> {
    [initialBalance] + seq(|trades|, k requires 0 <= k < |trades| => trades[k].equityAfter)
  }

  lemma {:induction false} CurveSums(start: real, profits: seq<real>, k: nat)
    requires k <= |profits|
    ensures Curve(start, profits)[k] == start + Sum(profits[..k])
  {
    if k < |profits| {
      CurveSums(start, profits[..|profits| - 1], k);
      assert profits[..|profits| - 1][..k] == profits[..k];
    } else {
      assert profits[..k] == profits;
      if k > 0 {
        CurveSums(start, profits[..k - 1], k - 1);
        assert profits[..k - 1][..k - 1] == profits[..k - 1];
      }
    }
  }

  /** The drawdown the metrics compute from a run's rounded profits is within (n + 1) * 0.0001 of the drawdown of the
      equity curve that the same run reports. */
  lemma {:induction false} DrawdownMatchesEquityCurve<S(!new)>(a: Setup<S>, d: real, f: real)
    requires a.cfg.Valid()
    requires IsMaxFall(Curve(a.cfg.initialBalance, Profits(Final(a).trades)), d)
    requires IsMaxFall(ReportedCurve(a.cfg.initialBalance, Final(a).trades), f)
    ensures Abs(d - f) <= (|Final(a).trades| + 1) as real * 0.0001
  {
    hide Final;
    var trades, initial := Final(a).trades, a.cfg.initialBalance;
    var xs, ys := Curve(initial, Profits(trades)), ReportedCurve(initial, trades);
    var e := (|trades| + 1) as real * 0.00005;
    forall k | 0 <= k < |xs|
      ensures Abs(xs[k] - ys[k]) <= e
    {
      CurveSums(initial, Profits(trades), k);
      if k > 0 {
        ReturnedEquityDrift(a, k - 1);
        assert Profits(trades)[..k] == Profits(trades[..k]);
      }
    }
    hide Curve, ReportedCurve, Profits, IsMaxFall;
    CloseCurvesCloseFalls(xs, ys, e, d, f);
  }
}
