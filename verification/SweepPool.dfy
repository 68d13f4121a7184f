/** The bounded worker pool of a sweep: states, steps, and what holds in every reachable state. */
module SweepPool {
  import opened Integers
  import opened SweepResults

  /** Partial results are persisted whenever the number of processed combinations reaches a multiple of this. */
  const SAVE_EVERY: nat := 10

  /** One sweep in progress. `args` are the combinations to run and `ran` those already processed, in order;
      futures are identified with their combination, since a worker's outcome depends on nothing else. */
  datatype Pool<P> = Pool(
    next: nat, pending: multiset<P>, finished: multiset<P>, ran: seq<P>,
    rows: seq<Row<P>>, completed: nat, saved: seq<Row<P>>, savedCount: nat)

  datatype Job<!P> = Job(args: seq<P>, existing: seq<Row<P>>, maxWorkers: nat, lowerIsBetter: bool, worker: P -> Work)

  /** The pool after it was primed; `stored` is what the run row held before. */
  function Primed<P>(j: Job<P>, stored: seq<Row<P>>): Pool<P> {
    var n := Min(j.maxWorkers, |j.args|);
    Pool(n, multiset(j.args[..n]), multiset{}, [], j.existing, |j.existing|, stored, |j.existing|)
  }

  /** `asyncio.wait` returns a non-empty set of finished futures once the previous one is used up. */
  ghost predicate CanWait<P>(s: Pool<P>, done: multiset<P>) {
    s.finished == multiset{} && done != multiset{} && done <= s.pending
  }

  function Wait<P>(s: Pool<P>, done: multiset<P>): Pool<P> {
    s.(pending := s.pending - done, finished := done)
  }

  /** Process one finished future: keep its row or drop its failure, refill the pool, count, and save every tenth
      time. */
  function Process<P>(j: Job<P>, s: Pool<P>, p: P): Pool<P> {
    var rows := s.rows + (match j.worker(p) case Raised => [] case Done(m) => [Row(p, m)]);
    var completed := s.completed + 1;
    var save := completed % SAVE_EVERY == 0 && rows != [];
    s.(finished := s.finished - multiset{p},
       ran := s.ran + [p],
       rows := rows,
       completed := completed,
       pending := if s.next < |j.args| then s.pending + multiset{j.args[s.next]} else s.pending,
       next := if s.next < |j.args| then s.next + 1 else s.next,
       saved := if save then Ranked(rows, j.lowerIsBetter) else s.saved,
       savedCount := if save then |rows| else s.savedCount)
  }

  /** Every submitted combination is in exactly one place and the pool is full until everything is submitted. */
  ghost predicate FuturesConserved<P(!new)>(j: Job<P>, s: Pool<P>) {
    && s.next <= |j.args|
    && multiset(j.args[..s.next]) == s.pending + s.finished + multiset(s.ran)
    && |s.pending| + |s.finished| <= j.maxWorkers
    && (|s.pending| + |s.finished| < j.maxWorkers ==> s.next == |j.args|)
  }

  /** The rows are the existing ones and then exactly what the processed combinations returned, in that order. */
  ghost predicate RowsConserved<P(!new)>(j: Job<P>, s: Pool<P>) {
    && s.rows == j.existing + RowList(j.worker, s.ran)
    && multiset(s.rows) == multiset(j.existing) + Bag(j.worker, s.ran)
    && s.completed == |j.existing| + |s.ran|
  }

  ghost predicate Conserved<P(!new)>(j: Job<P>, s: Pool<P>) {
    FuturesConserved(j, s) && RowsConserved(j, s)
  }

  /** The results that were not yet persisted are at most nine. */
  ghost predicate NineAtMost<P(!new)>(s: Pool<P>) {
    s.savedCount <= |s.rows| && |s.rows| - s.savedCount <= s.completed % 10
  }

  /** What is persisted is a prefix of the rows, and the results missing from it are at most nine. */
  ghost predicate KillSafe<P(!new)>(s: Pool<P>) {
    NineAtMost(s) && multiset(s.saved) == multiset(s.rows[..s.savedCount])
  }

  /** Nothing was persisted yet: the run row still holds what it held before, and at most nine results are missing. */
  ghost predicate NotSavedYet<P(!new)>(j: Job<P>, stored: seq<Row<P>>, s: Pool<P>) {
    NineAtMost(s) && s.saved == stored && s.savedCount == |j.existing|
  }

  /** Futures still to be processed; it drops with every processed future. */
  function Outstanding<P>(j: Job<P>, s: Pool<P>): int {
    |j.args| - s.next + |s.pending| + |s.finished|
  }

  lemma {:induction false} PrimedIsConserved<P(!new)>(j: Job<P>, stored: seq<Row<P>>)
    ensures Conserved(j, Primed(j, stored))
    ensures NotSavedYet(j, stored, Primed(j, stored))
    ensures multiset(stored) == multiset(j.existing) ==> KillSafe(Primed(j, stored))
  {
    var n := Min(j.maxWorkers, |j.args|);
    assert |multiset(j.args[..n])| == n;
    assert Bag(j.worker, []) == multiset{};
    assert j.existing[..|j.existing|] == j.existing;
  }

  lemma {:induction false} WaitConserves<P(!new)>(j: Job<P>, s: Pool<P>, done: multiset<P>)
    requires Conserved(j, s) && CanWait(s, done)
    ensures Conserved(j, Wait(s, done)) && Outstanding(j, Wait(s, done)) == Outstanding(j, s)
  {
    assert s.pending == (s.pending - done) + done;
  }

  lemma {:induction false} MoveOne<P>(whole: multiset<P>, pending: multiset<P>, finished: multiset<P>,
                                      ran: multiset<P>, p: P)
    requires whole == pending + finished + ran && p in finished
    ensures whole == pending + (finished - multiset{p}) + (ran + multiset{p})
    ensures |finished - multiset{p}| == |finished| - 1
  {
  }

  lemma {:induction false} SubmitOne<P>(whole: multiset<P>, pending: multiset<P>, finished: multiset<P>,
                                        ran: multiset<P>, q: P)
    requires whole == pending + finished + ran
    ensures whole + multiset{q} == (pending + multiset{q}) + finished + ran
    ensures |pending + multiset{q}| == |pending| + 1
  {
  }

  lemma {:induction false} ProcessKeepsFutures<P(!new)>(j: Job<P>, s: Pool<P>, p: P)
    requires FuturesConserved(j, s) && p in s.finished
    ensures FuturesConserved(j, Process(j, s, p)) && Outstanding(j, Process(j, s, p)) == Outstanding(j, s) - 1
  {
    hide Ranked;
    var t := Process(j, s, p);
    var before := multiset(j.args[..s.next]);
    MoveOne(before, s.pending, s.finished, multiset(s.ran), p);
    assert multiset(t.ran) == multiset(s.ran) + multiset{p};
    if s.next < |j.args| {
      SubmitOne(before, s.pending, t.finished, multiset(t.ran), j.args[s.next]);
      assert j.args[..s.next + 1] == j.args[..s.next] + [j.args[s.next]];
    }
  }

  lemma {:induction false} ProcessKeepsRows<P(!new)>(j: Job<P>, s: Pool<P>, p: P)
    requires RowsConserved(j, s)
    ensures RowsConserved(j, Process(j, s, p))
  {
    hide Ranked, Bag, RowList;
    var t := Process(j, s, p);
    BagAppend(j.worker, s.ran, p);
    RowListAppend(j.worker, s.ran, p);
    assert multiset(t.rows) == multiset(s.rows) + RowsOf(j.worker, p);
    hide RowsOf;
  }

  lemma {:induction false} ProcessConserves<P(!new)>(j: Job<P>, s: Pool<P>, p: P)
    requires Conserved(j, s) && p in s.finished
    ensures Conserved(j, Process(j, s, p)) && Outstanding(j, Process(j, s, p)) == Outstanding(j, s) - 1
  {
    hide Process, FuturesConserved, RowsConserved;
    ProcessKeepsFutures(j, s, p);
    ProcessKeepsRows(j, s, p);
  }

  /** A backend killed between two processed results has lost at most nine of them. */
  lemma {:induction false} ProcessKillSafe<P(!new)>(j: Job<P>, s: Pool<P>, p: P)
    requires KillSafe(s)
    ensures KillSafe(Process(j, s, p))
  {
    var t := Process(j, s, p);
    RankedIsRanking(t.rows, j.lowerIsBetter);
    hide Ranked;
    assert t.rows[..|t.rows|] == t.rows;
    assert t.rows[..s.savedCount] == s.rows[..s.savedCount];
    assert t.completed % 10 == 0 || t.completed % 10 == s.completed % 10 + 1;
  }

  lemma {:induction false} ProcessSavesOrWaits<P(!new)>(j: Job<P>, stored: seq<Row<P>>, s: Pool<P>, p: P)
    requires NotSavedYet(j, stored, s)
    ensures KillSafe(Process(j, s, p)) || NotSavedYet(j, stored, Process(j, s, p))
  {
    var t := Process(j, s, p);
    RankedIsRanking(t.rows, j.lowerIsBetter);
    hide Ranked;
    assert t.rows[..|t.rows|] == t.rows;
    assert t.completed % 10 == 0 || t.completed % 10 == s.completed % 10 + 1;
  }

  /** The run row is written with all rows so far, best first, at every tenth combination and at no other. */
  lemma {:induction false} EveryTenthIsSaved<P(!new)>(j: Job<P>, s: Pool<P>, p: P)
    ensures var t := Process(j, s, p);
      if t.completed % 10 == 0 && t.rows != [] then
        multiset(t.saved) == multiset(t.rows) && BestFirst(t.saved, j.lowerIsBetter)
      else t.saved == s.saved
  {
    RankedIsRanking(Process(j, s, p).rows, j.lowerIsBetter);
    hide Ranked, BestFirst;
  }

  /** One step of the sweep. */
  datatype Move<P> = Waited(done: multiset<P>) | Processed(p: P)

  ghost predicate Enabled<P(!new)>(s: Pool<P>, m: Move<P>) {
    match m
    case Waited(done) => CanWait(s, done)
    case Processed(p) => p in s.finished
  }

  ghost function Next<P(!new)>(j: Job<P>, s: Pool<P>, m: Move<P>): Pool<P> {
    match m
    case Waited(done) => Wait(s, done)
    case Processed(p) => Process(j, s, p)
  }

  ghost predicate Possible<P(!new)>(j: Job<P>, s: Pool<P>, ms: seq<Move<P>>)
    decreases |ms|, 0
  {
    ms == [] || (Possible(j, s, ms[..|ms| - 1]) && Enabled(Reached(j, s, ms[..|ms| - 1]), ms[|ms| - 1]))
  }

  ghost function Reached<P(!new)>(j: Job<P>, s: Pool<P>, ms: seq<Move<P>>): Pool<P>
    requires Possible(j, s, ms)
    decreases |ms|, 1
  {
    if ms == [] then s else Next(j, Reached(j, s, ms[..|ms| - 1]), ms[|ms| - 1])
  }

  /** Once a finished set is used up any pending future may be the next to finish, alone or with all the others. */
  lemma {:induction false} AnyFutureMayFinishNext<P(!new)>(j: Job<P>, s: Pool<P>, p: P)
    requires s.finished == multiset{} && p in s.pending
    ensures Possible(j, s, [Waited(multiset{p}), Processed(p)]) && Possible(j, s, [Waited(s.pending), Processed(p)])
  {
    hide Process;
    forall done | done in [multiset{p}, s.pending]
      ensures Possible(j, s, [Waited(done), Processed(p)])
    {
      var one, two := [Waited(done)], [Waited(done), Processed(p)];
      assert two[..1] == one && one[..0] == [];
      assert Possible(j, s, one[..0]) && Reached(j, s, one[..0]) == s;
      assert Possible(j, s, one) && Reached(j, s, one) == Wait(s, done);
    }
  }

  /** Combinations processed by a list of moves. */
  function ProcessedCount<P>(ms: seq<Move<P>>): nat {
    if ms == [] then 0 else ProcessedCount(ms[..|ms| - 1]) + if ms[|ms| - 1].Processed? then 1 else 0
  }

  /** In every reachable state futures and rows are conserved, a kill loses at most nine results, and every processed
      future brings the sweep one nearer to its end. What a kill leaves behind is a prefix of the rows, or, before the
      first save, whatever the run row held: the existing rows when resuming, an older run's rows when starting
      afresh. */
  lemma {:induction false} ReachableIsConserved<P(!new)>(j: Job<P>, stored: seq<Row<P>>, ms: seq<Move<P>>)
    requires Possible(j, Primed(j, stored), ms)
    ensures var s := Reached(j, Primed(j, stored), ms);
      && Conserved(j, s)
      && (KillSafe(s) || NotSavedYet(j, stored, s))
      && (multiset(stored) == multiset(j.existing) ==> KillSafe(s))
      && 0 <= Outstanding(j, s) == |j.args| - ProcessedCount(ms)
  {
    hide Conserved, KillSafe, NotSavedYet, Process, CanWait;
    if ms == [] {
      PrimedIsConserved(j, stored);
      assert Outstanding(j, Primed(j, stored)) == |j.args|;
    } else {
      var init, m := ms[..|ms| - 1], ms[|ms| - 1];
      ReachableIsConserved(j, stored, init);
      var s := Reached(j, Primed(j, stored), init);
      StepConserves(j, s, m);
      StepSavesOrWaits(j, stored, s, m);
    }
  }

  lemma {:induction false} StepSavesOrWaits<P(!new)>(j: Job<P>, stored: seq<Row<P>>, s: Pool<P>, m: Move<P>)
    requires Enabled(s, m) && (KillSafe(s) || NotSavedYet(j, stored, s))
    ensures KillSafe(Next(j, s, m)) || NotSavedYet(j, stored, Next(j, s, m))
  {
    hide Process;
    match m
    case Waited(done) =>
    case Processed(p) =>
      if KillSafe(s) {
        ProcessKillSafe(j, s, p);
      } else {
        ProcessSavesOrWaits(j, stored, s, p);
      }
  }

  lemma {:induction false} StepConserves<P(!new)>(j: Job<P>, s: Pool<P>, m: Move<P>)
    requires Conserved(j, s) && Enabled(s, m)
    ensures Conserved(j, Next(j, s, m)) && (KillSafe(s) ==> KillSafe(Next(j, s, m)))
    ensures 0 <= Outstanding(j, Next(j, s, m)) == Outstanding(j, s) - (if m.Processed? then 1 else 0)
  {
    match m
    case Waited(done) => WaitConserves(j, s, done);
    case Processed(p) =>
      ProcessConserves(j, s, p);
      if KillSafe(s) {
        ProcessKillSafe(j, s, p);
      }
  }

  /** When nothing is pending or unprocessed, every combination has run, and the rows are the existing ones plus
      exactly what the combinations return. */
  lemma {:induction false} DrainedIsComplete<P(!new)>(j: Job<P>, s: Pool<P>)
    requires Conserved(j, s) && j.maxWorkers >= 1 && s.pending == s.finished == multiset{}
    ensures multiset(s.ran) == multiset(j.args)
    ensures multiset(s.rows) == multiset(j.existing) + Bag(j.worker, j.args)
  {
    assert j.args[..|j.args|] == j.args;
    BagOrder(j.worker, s.ran, j.args);
  }

  /** What a run leaves behind at any point is a partial result that a later run can resume from. */
  lemma {:induction false} RowsStayPartial<P(!new)>(j: Job<P>, s: Pool<P>, combos: seq<P>)
    requires Conserved(j, s) && Partial(j.worker, combos, j.existing) && j.args == Remaining(combos, j.existing)
    ensures Partial(j.worker, combos, s.rows)
  {
    forall r <- s.rows
      ensures j.worker(r.params) == Done(r.metric)
    {
      assert r in multiset(s.rows);
      BagCount(j.worker, s.ran, r);
    }
    forall p
      ensures multiset(ParamsOf(s.rows))[p] <= multiset(combos)[p]
    {
      PartialCount(j, s, combos, p);
    }
  }

  lemma {:induction false} RanAtMostArgs<P(!new)>(j: Job<P>, s: Pool<P>)
    requires Conserved(j, s)
    ensures multiset(s.ran) <= multiset(j.args)
  {
    assert j.args == j.args[..s.next] + j.args[s.next..];
  }

  lemma {:induction false} PartialCount<P(!new)>(j: Job<P>, s: Pool<P>, combos: seq<P>, p: P)
    requires Conserved(j, s) && Partial(j.worker, combos, j.existing) && j.args == Remaining(combos, j.existing)
    requires Genuine(j.worker, s.rows)
    ensures multiset(ParamsOf(s.rows))[p] <= multiset(combos)[p]
  {
    if p in ParamsOf(s.rows) {
      SavedParams(s.rows, p);
      var r :| r in s.rows && r.params == p;
      GenuineCount(j.worker, s.rows, r);
      GenuineCount(j.worker, j.existing, r);
      BagCount(j.worker, s.ran, r);
      RanAtMostArgs(j, s);
      RemainingCount(combos, j.existing, p);
    }
  }
}
