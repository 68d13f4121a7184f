/** How often a sampled (LLM) strategy is called in one backtest. */
module LlmBudget {
  import opened Options
  import opened BacktestModels
  import opened BacktestHelpers
  import opened BacktestEngine

  /** Strategy calls made over the first `k` candles. */
  ghost function CallsMade<S(!new)>(a: Setup<S>, k: nat): nat
    requires a.cfg.Valid() && k <= |a.candles|
  {
    if k == 0 then 0
    else
      CallsMade(a, k - 1) +
      (if Calls(a.cfg, |a.candles|, k - 1, Exited(a, k - 1, After(a, k - 1))) then 1 else 0)
  }

  /** Candle indices below `k` at which a call is possible when every `step`-th candle is sampled. */
  function Sampled(step: nat, k: nat): nat
    requires step > 0
  {
    if k == 0 then 0
    else Sampled(step, k - 1) + (if k >= WINDOW && (k - 1) % step == 0 then 1 else 0)
  }

  /** Multiples of `step` below `k`, counted in closed form. */
  function Multiples(step: nat, k: nat): nat
    requires step > 0
  {
    (k + step - 1) / step
  }

  lemma {:induction false} Distribute(x: int, y: int, d: int)
    ensures (x + y) * d == x * d + y * d
  {
  }

  lemma {:induction false} MulNonnegative(x: int, y: int)
    requires x >= 0 && y >= 0
    ensures x * y >= 0
  {
  }

  /** A larger factor is larger by at least one `d`. */
  lemma {:induction false} MulStrict(p: int, q: int, d: int)
    requires d > 0
    ensures p < q ==> p * d + d <= q * d
  {
    if p < q {
      MulNonnegative(q - p - 1, d);
      Distribute(p + 1, q - p - 1, d);
      Distribute(p, 1, d);
    }
  }

  lemma {:induction false} DivUnique(x: int, d: int, q: int)
    requires d > 0 && q * d <= x < q * d + d
    ensures x / d == q
  {
    var p := x / d;
    assert p * d <= x < p * d + d;
    MulStrict(p, q, d);
    MulStrict(q, p, d);
  }

  lemma {:induction false} MultiplesStep(step: nat, k: nat)
    requires step > 0
    ensures Multiples(step, k + 1) == Multiples(step, k) + (if k % step == 0 then 1 else 0)
  {
    var q, r := k / step, k % step;
    assert k == q * step + r;
    if r == 0 {
      DivUnique(k + step - 1, step, q);
      DivUnique(k + step, step, q + 1);
    } else {
      assert (q + 1) * step == q * step + step;
      DivUnique(k + step - 1, step, q + 1);
      DivUnique(k + step, step, q + 1);
    }
  }

  /** The sampled indices are the multiples of the step from index 49 on. */
  lemma {:induction false} SampledInClosedForm(step: nat, k: nat)
    requires step > 0
    ensures Sampled(step, k) == if k < WINDOW then 0 else Multiples(step, k) - Multiples(step, WINDOW - 1)
  {
    hide Multiples;
    if k > 0 {
      SampledInClosedForm(step, k - 1);
      MultiplesStep(step, k - 1);
    }
  }

  /** Every run stays within the sampled candles. */
  lemma {:induction false} CallsAreSampled<S(!new)>(a: Setup<S>, k: nat)
    requires a.cfg.Valid() && k <= |a.candles| && LlmStep(a.cfg, |a.candles|) > 0
    ensures CallsMade(a, k) <= Sampled(LlmStep(a.cfg, |a.candles|), k)
  {
    hide Exited, LlmStep, After;
    if k > 0 {
      CallsAreSampled(a, k - 1);
    }
  }

  // ----- the budget

  /** The most calls a cap of `m` lets through, over all run lengths: calls start at candle 49. */
  function MaxCalls(m: nat): nat {
    if m <= 1 then 0 else if m <= 50 then m else 2 * m - 50
  }

  lemma {:induction false} MulMonotone(x: int, y: int, d: int)
    requires x <= y && d >= 0
    ensures x * d <= y * d
  {
    MulNonnegative(y - x, d);
    Distribute(x, y - x, d);
  }

  lemma {:induction false} MultiplesRange(q: nat, n: nat)
    requires q >= 1
    ensures n <= Multiples(q, n) * q <= n + q - 1
  {
    var x := n + q - 1;
    assert x == x / q * q + x % q;
  }

  /** With a step q and fewer than q * m + m candles, more than m samples mean that m is large. */
  lemma {:induction false} ManySamples(total: nat, m: nat, q: nat)
    requires m >= 1 && q >= 1 && total < q * m + m
    ensures var sampled := Multiples(q, total) - Multiples(q, WINDOW - 1);
      sampled <= m || sampled <= 2 * m - 50
  {
    hide Multiples;
    var j, h := Multiples(q, total), Multiples(q, WINDOW - 1);
    MultiplesRange(q, total);
    MultiplesRange(q, WINDOW - 1);
    MulNonnegative(m, q);
    if h <= 0 {
      MulMonotone(h, 0, q);
      assert false;
    }
    var e := j - 1 - m;
    if e >= h {
      Distribute(j - 1 - m, m + 1, q);
      Distribute(m, 1, q);
      assert e * q <= m - 2;
      MulMonotone(h, e, q - 1);
      Distribute(e, 0, q - 1);
      assert e * (q - 1) == e * q - e && h * (q - 1) == h * q - h;
    }
  }

  /** With a cap of one the only multiples of the step are 0 and the length itself. */
  lemma {:induction false} OneSample(total: nat)
    requires total >= WINDOW
    ensures Multiples(total, total) == Multiples(total, WINDOW - 1) == 1
  {
    DivUnique(2 * total - 1, total, 1);
    DivUnique(WINDOW - 1 + total - 1, total, 1);
  }

  lemma {:induction false} StepCovers(cfg: Config, n: nat)
    requires cfg.isLlm && cfg.maxLlmCalls >= 1
    ensures var q, m := LlmStep(cfg, n), cfg.maxLlmCalls; q >= 1 && n < q * m + m
  {
    var q, m := LlmStep(cfg, n), cfg.maxLlmCalls;
    var d := n / m;
    assert n == d * m + n % m;
    MulMonotone(d, q, m);
  }

  /** However many candles there are, at most `MaxCalls(m)` of them are sampled. */
  lemma {:induction false} SampledAtMost(cfg: Config, n: nat)
    requires cfg.isLlm && cfg.maxLlmCalls >= 1
    ensures Sampled(LlmStep(cfg, n), n) <= MaxCalls(cfg.maxLlmCalls)
  {
    var m, q := cfg.maxLlmCalls, LlmStep(cfg, n);
    StepCovers(cfg, n);
    SampledInClosedForm(q, n);
    if n >= WINDOW {
      if m == 1 {
        assert n / 1 == n;
        OneSample(n);
      } else {
        hide LlmStep;
        ManySamples(n, m, q);
      }
    }
  }

  /** An LLM strategy with cap m is called at most `MaxCalls(m)` times in any run, whatever the number of candles:
      not at all for m = 1, m times up to m = 50, and 2m - 50 times beyond. */
  lemma {:induction false} CallBudget<S(!new)>(a: Setup<S>)
    requires a.cfg.Valid() && a.cfg.isLlm && a.cfg.maxLlmCalls >= 1
    ensures CallsMade(a, |a.candles|) <= MaxCalls(a.cfg.maxLlmCalls) <= 2 * a.cfg.maxLlmCalls - 1
  {
    hide LlmStep, Sampled;
    StepCovers(a.cfg, |a.candles|);
    CallsAreSampled(a, |a.candles|);
    SampledAtMost(a.cfg, |a.candles|);
  }

  /** A strategy that never signals. */
  ghost predicate Silent<S(!new)>(a: Setup<S>) {
    forall s, v :: a.strategy(s, v).1 == Returned(None)
  }

  /** With a strategy that never signals the engine stays flat and every sampled candle is a call. */
  lemma {:induction false} SilentRun<S(!new)>(a: Setup<S>, k: nat)
    requires a.cfg.Valid() && k <= |a.candles| && LlmStep(a.cfg, |a.candles|) > 0 && Silent(a)
    ensures After(a, k).pos.None? && After(a, k).lastSignal.None?
    ensures CallsMade(a, k) == Sampled(LlmStep(a.cfg, |a.candles|), k)
  {
    hide LlmStep, TryOpen, MakeView, Decide, Net, Record, AdvanceAll;
    if k > 0 {
      SilentRun(a, k - 1);
    }
  }

  /** A run length at which a silent strategy uses up the whole budget. */
  function BusiestLength(m: nat): nat {
    if m <= 50 then 49 * m + 1 else 2 * m - 1
  }

  lemma {:induction false} BusiestStep(cfg: Config)
    requires cfg.isLlm && cfg.maxLlmCalls >= 2
    ensures LlmStep(cfg, BusiestLength(cfg.maxLlmCalls)) == if cfg.maxLlmCalls <= 50 then 49 else 1
  {
    var m := cfg.maxLlmCalls;
    DivUnique(BusiestLength(m), m, if m <= 50 then 49 else 1);
  }

  lemma {:induction false} BusiestSampled(cfg: Config)
    requires cfg.isLlm && cfg.maxLlmCalls >= 1
    ensures var n := BusiestLength(cfg.maxLlmCalls); Sampled(LlmStep(cfg, n), n) == MaxCalls(cfg.maxLlmCalls)
  {
    var m := cfg.maxLlmCalls;
    var n := BusiestLength(m);
    if m == 1 {
      SampledAtMost(cfg, n);
    } else {
      BusiestStep(cfg);
      var q := LlmStep(cfg, n);
      SampledInClosedForm(q, n);
      if m <= 50 {
        DivUnique(n + 48, 49, m + 1);
      } else {
        assert Multiples(1, n) == n && Multiples(1, WINDOW - 1) == WINDOW - 1;
      }
    }
  }

  /** The budget is reached: a silent strategy makes exactly `MaxCalls(m)` calls over 49m + 1 candles, or 2m - 1 beyond
      m = 50. */
  lemma {:induction false} BudgetIsReached<S(!new)>(a: Setup<S>)
    requires a.cfg.Valid() && a.cfg.isLlm && a.cfg.maxLlmCalls >= 1 && Silent(a)
    requires |a.candles| == BusiestLength(a.cfg.maxLlmCalls)
    ensures CallsMade(a, |a.candles|) == MaxCalls(a.cfg.maxLlmCalls)
  {
    StepCovers(a.cfg, |a.candles|);
    SilentRun(a, |a.candles|);
    BusiestSampled(a.cfg);
  }

  // ----- when the cap is a cap

  /** No strategy, contexts and start state get more calls than the configured cap on these candles. */
  ghost predicate CapHolds<S(!new)>(cfg: Config, candles: seq<Candle>, s0: S)
    requires cfg.Valid()
  {
    forall ctx, strategy: (S, View) -> (S, Outcome), start: S {:trigger Setup(cfg, candles, ctx, strategy, start)} ::
      CallsMade(Setup(cfg, candles, ctx, strategy, start), |candles|) <= cfg.maxLlmCalls
  }

  lemma {:induction false} CapHoldsWhenSampled<S(!new)>(cfg: Config, candles: seq<Candle>, s0: S)
    requires cfg.Valid() && cfg.isLlm && cfg.maxLlmCalls >= 1
    ensures CapHolds(cfg, candles, s0) <==> Sampled(LlmStep(cfg, |candles|), |candles|) <= cfg.maxLlmCalls
  {
    var silent: (S, View) -> (S, Outcome) := (s, v) => (s, Returned(None));
    var quiet := Setup(cfg, candles, map[], silent, s0);
    StepCovers(cfg, |candles|);
    SilentRun(quiet, |candles|);
    assert CallsMade(quiet, |candles|) == Sampled(LlmStep(cfg, |candles|), |candles|);
    hide CallsMade, LlmStep, Sampled;
    forall ctx, strategy: (S, View) -> (S, Outcome), start: S {:trigger Setup(cfg, candles, ctx, strategy, start)}
      ensures CallsMade(Setup(cfg, candles, ctx, strategy, start), |candles|) <=
              Sampled(LlmStep(cfg, |candles|), |candles|)
    {
      CallsAreSampled(Setup(cfg, candles, ctx, strategy, start), |candles|);
    }
  }

  /** The cap m holds for every strategy on n candles exactly when n is below 50, or at most m multiples of the step
      max(1, n / m) lie from 49 on and below n: ceil(n / step) - ceil(49 / step) <= m. */
  lemma {:induction false} CapHoldsIff<S(!new)>(cfg: Config, candles: seq<Candle>, s0: S)
    requires cfg.Valid() && cfg.isLlm && cfg.maxLlmCalls >= 1
    ensures var n, m := |candles|, cfg.maxLlmCalls;
      var step := if n / m > 1 then n / m else 1;
      CapHolds(cfg, candles, s0) <==> n < 50 || (n + step - 1) / step - (49 + step - 1) / step <= m
  {
    CapHoldsWhenSampled(cfg, candles, s0);
    SampledInClosedForm(LlmStep(cfg, |candles|), |candles|);
    hide CapHolds, Sampled;
  }

  /** The cap m holds on candle lists of every length exactly when it is at most 50. */
  lemma {:induction false} CapHoldsForEveryLengthIff<S(!new)>(cfg: Config, s0: S)
    requires cfg.Valid() && cfg.isLlm && cfg.maxLlmCalls >= 1
    ensures (forall candles :: CapHolds(cfg, candles, s0)) <==> cfg.maxLlmCalls <= 50
  {
    hide CapHolds, Sampled, LlmStep;
    var m := cfg.maxLlmCalls;
    forall candles
      ensures m <= 50 ==> CapHolds(cfg, candles, s0)
    {
      CapHoldsWhenSampled(cfg, candles, s0);
      SampledAtMost(cfg, |candles|);
    }
    var busiest := seq(BusiestLength(m), i => Candle(i, 1.0, 1.0, 1.0, 1.0, 0, 0));
    CapHoldsWhenSampled(cfg, busiest, s0);
    BusiestSampled(cfg);
  }

  /** The cap fails on a concrete size: 199 candles with a cap of 100 give 150 calls to a strategy that never
      signals. */
  lemma {:induction false} CapOfHundredIsExceeded<S(!new)>(a: Setup<S>)
    requires a.cfg.Valid() && a.cfg.isLlm && a.cfg.maxLlmCalls == 100 && |a.candles| == 199 && Silent(a)
    ensures CallsMade(a, |a.candles|) == 150
  {
    SilentRun(a, 199);
    SampledInClosedForm(1, 199);
  }

  /** A silent strategy that counts its own calls. */
  function Counting(n: int, v: View): (int, Outcome) {
    (n + 1, Returned(None))
  }

  lemma {:induction false} CountingRun(a: Setup<int>, k: nat)
    requires a.cfg.Valid() && k <= |a.candles| && LlmStep(a.cfg, |a.candles|) > 0
    requires a.strategy == Counting && a.start == 0
    ensures After(a, k).strat == Sampled(LlmStep(a.cfg, |a.candles|), k) && After(a, k).pos.None?
  {
    hide LlmStep, TryOpen, MakeView, Decide, Net, Record, AdvanceAll;
    if k > 0 {
      CountingRun(a, k - 1);
      assert After(a, k - 1).lastSignal.None? by {
        SilentRun(a, k - 1);
      }
    }
  }

  /** The equal-sampling-step condition of causality is needed: 51 candles and the same 51 candles followed by 149
      more, with a cap of 10, leave different strategy states after candle 50. */
  lemma {:induction false} SamplingLooksAtTheLength(a: Setup<int>, b: Setup<int>)
    requires a.cfg.Valid() && a.cfg == b.cfg && a.cfg.isLlm && a.cfg.maxLlmCalls == 10
    requires a.strategy == b.strategy == Counting && a.start == b.start == 0
    requires |a.candles| == 51 && |b.candles| == 200 && b.candles[..51] == a.candles
    ensures After(a, 51).strat == 1 && After(b, 51).strat == 0
  {
    CountingRun(a, 51);
    CountingRun(b, 51);
    SampledInClosedForm(5, 51);
    SampledInClosedForm(20, 51);
  }
}
