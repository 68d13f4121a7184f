/** One call of the optimization service on its database row. */
module OptimizationRun {
  import opened Integers
  import opened Options
  import opened Seqs
  import opened ParamGrid
  import opened SweepResults
  import opened SweepPool

  datatype Status = Pending | Running | Completed | Cancelled | Failed

  /** The row of the run: its fields are rewritten while the sweep progresses. */
  class OptRun<P(!new,==)> {
    var status: Status
    var results: seq<Row<P>>
    var best: Option<P>
    var completed: int
    var progress: int
    var total: int

    constructor ()
      ensures status == Pending && results == []
    {
      status, results, best, completed, progress, total := Pending, [], None, 0, 0, 0;
    }
  }

  /** `asyncio.wait(FIRST_COMPLETED)`: some non-empty part of the pending futures has finished. */
  method WaitFirst<P(!new,==)>(pending: multiset<P>) returns (done: multiset<P>)
    requires pending != multiset{}
    ensures done != multiset{} && done <= pending
  {
    var rest := pending;
    done := multiset{};
    var more := true;
    while more && rest != multiset{}
      invariant rest + done == pending && (done == multiset{} ==> more)
      decreases |rest|
    {
      var p :| p in rest;
      rest, done := rest - multiset{p}, done + multiset{p};
      more := *;
    }
  }

  /** The loop's variables and the row hold the pool state `s`. */
  ghost predicate Holds<P(!new)>(s: Pool<P>, row: OptRun<P>, next: nat, pending: multiset<P>, rows: seq<Row<P>>,
                                 count: nat)
    reads row
  {
    s.next == next && s.pending == pending && s.rows == rows && s.completed == count && s.saved == row.results
  }

  /** Process one finished future. */
  method ProcessOne<P(!new,==)>(row: OptRun<P>, j: Job<P>, p: P, next: nat, pending: multiset<P>, rows: seq<Row<P>>,
                                count: nat, ghost s: Pool<P>)
    returns (next': nat, pending': multiset<P>, rows': seq<Row<P>>, count': nat)
    requires Holds(s, row, next, pending, rows, count)
    modifies row
    ensures Holds(Process(j, s, p), row, next', pending', rows', count')
    ensures row.total == old(row.total) && row.completed == count + 1
    ensures row.progress == if row.total > 0 then (count + 1) * 100 / row.total else 0
    ensures row.best == if (count + 1) % 10 == 0 && rows' != [] then Best(row.results) else old(row.best)
  {
    hide Ranked;
    next', pending', rows', count' := next, pending, rows, count;
    match j.worker(p) {
      case Done(m) => rows' := rows' + [Row(p, m)];
      case Raised => assert rows + [] == rows;
    }
    if next' < |j.args| {
      pending' := pending' + multiset{j.args[next']};
      next' := next' + 1;
    }
    count' := count' + 1;
    row.completed := count';
    row.progress := if row.total > 0 then count' * 100 / row.total else 0;
    if count' % SAVE_EVERY == 0 && rows' != [] {
      row.results := Ranked(rows', j.lowerIsBetter);
      row.best := Best(row.results);
    }
  }

  lemma {:induction false} ProcessUses<P(!new)>(j: Job<P>, s: Pool<P>, p: P)
    ensures Process(j, s, p).finished == s.finished - multiset{p}
  {
    hide Ranked;
  }

  lemma {:induction false} WaitMoves<P(!new)>(s: Pool<P>, done: multiset<P>)
    ensures Wait(s, done) == s.(pending := s.pending - done, finished := done)
  {
  }

  lemma {:induction false} OutstandingNonnegative<P(!new)>(j: Job<P>, s: Pool<P>)
    requires Conserved(j, s)
    ensures Outstanding(j, s) >= 0
  {
  }

  /** What a sweep that stopped in state `s` has achieved. */
  ghost predicate Achieved<P(!new)>(worker: P -> Work, combos: seq<P>, saved: seq<Row<P>>, ran: seq<P>,
                                    results: seq<Row<P>>) {
    && multiset(results) == multiset(saved) + Bag(worker, ran)
    && multiset(ran) <= multiset(Remaining(combos, saved))
    && (Partial(worker, combos, saved) ==> Partial(worker, combos, results))
  }

  lemma {:induction false} StoppedHasAchieved<P(!new)>(j: Job<P>, s: Pool<P>, combos: seq<P>)
    requires Conserved(j, s) && j.args == Remaining(combos, j.existing) && j.maxWorkers >= 1
    ensures Achieved(j.worker, combos, j.existing, s.ran, Ranked(s.rows, j.lowerIsBetter))
    ensures BestFirst(Ranked(s.rows, j.lowerIsBetter), j.lowerIsBetter)
    ensures IsBest(Best(Ranked(s.rows, j.lowerIsBetter)), Ranked(s.rows, j.lowerIsBetter), j.lowerIsBetter)
    ensures s.rows == j.existing + RowList(j.worker, s.ran)
    ensures s.pending == s.finished == multiset{} ==> multiset(s.ran) == multiset(Remaining(combos, j.existing))
  {
    RankedIsRanking(s.rows, j.lowerIsBetter);
    FirstIsBest(Ranked(s.rows, j.lowerIsBetter), j.lowerIsBetter);
    hide IsBest, BestFirst;
    RanAtMostArgs(j, s);
    if Partial(j.worker, combos, j.existing) {
      RowsStayPartial(j, s, combos);
      PartialIsUnordered(j.worker, combos, s.rows, Ranked(s.rows, j.lowerIsBetter));
    }
    if s.pending == s.finished == multiset{} {
      DrainedIsComplete(j, s);
    }
  }

  lemma {:induction false} PartialIsUnordered<P(!new)>(worker: P -> Work, combos: seq<P>, xs: seq<Row<P>>,
                                                       ys: seq<Row<P>>)
    requires multiset(xs) == multiset(ys) && Partial(worker, combos, xs)
    ensures Partial(worker, combos, ys)
  {
    forall r <- ys
      ensures worker(r.params) == Done(r.metric)
    {
      assert r in multiset(xs);
    }
    forall p
      ensures multiset(ParamsOf(ys))[p] <= multiset(combos)[p]
    {
      if p in ParamsOf(ys) {
        SavedParams(ys, p);
        var r :| r in ys && r.params == p;
        GenuineCount(worker, xs, r);
        GenuineCount(worker, ys, r);
      }
    }
  }

  /** Process a batch of finished futures, one by one, until it is used up or a cancellation is seen. */
  method ProcessBatch<P(!new,==)>(row: OptRun<P>, j: Job<P>, batch: multiset<P>, next: nat, pending: multiset<P>,
                                  rows: seq<Row<P>>, count: nat, ghost s: Pool<P>)
    returns (next': nat, pending': multiset<P>, rows': seq<Row<P>>, count': nat, cancel: bool, ghost t: Pool<P>)
    requires Conserved(j, s) && s.finished == batch && batch != multiset{} && Holds(s, row, next, pending, rows, count)
    modifies row
    ensures Conserved(j, t) && Holds(t, row, next', pending', rows', count')
    ensures t.finished == multiset{} || cancel
    ensures 0 <= Outstanding(j, t) < Outstanding(j, s) && row.total == old(row.total)
  {
    hide Conserved, Process, Outstanding;
    var done := batch;
    next', pending', rows', count', cancel, t := next, pending, rows, count, false, s;
    while done != multiset{} && !cancel
      invariant Conserved(j, t) && t.finished == done && Holds(t, row, next', pending', rows', count')
      invariant row.total == old(row.total)
      invariant if done == batch then t == s && !cancel else Outstanding(j, t) < Outstanding(j, s)
      invariant done <= batch
      decreases |done|
    {
      var p :| p in done;
      next', pending', rows', count' := ProcessOne(row, j, p, next', pending', rows', count', t);
      ProcessConserves(j, t, p);
      ProcessUses(j, t, p);
      t := Process(j, t, p);
      done := done - multiset{p};
      assert done[p] < batch[p];
      cancel := *;
    }
    OutstandingNonnegative(j, t);
  }

  /** Save the ranked rows and close the run. */
  method Store<P(!new,==)>(row: OptRun<P>, rows: seq<Row<P>>, lowerIsBetter: bool, cancel: bool)
    modifies row
    ensures row.results == Ranked(rows, lowerIsBetter) && row.best == Best(row.results) && row.total == old(row.total)
    ensures if cancel then row.status == Cancelled
            else row.status == Completed && row.progress == 100 && row.completed == row.total
  {
    hide Ranked;
    row.results := Ranked(rows, lowerIsBetter);
    row.best := Best(row.results);
    if cancel {
      row.status := Cancelled;
    } else {
      row.status, row.progress, row.completed := Completed, 100, row.total;
    }
  }

  /** Run the sweep of `combos` on `row`; the schedule and the moment of a cancellation are arbitrary. `ran` lists the
      combinations whose outcome was processed. */
  method Sweep<P(!new,==)>(row: OptRun<P>, combos: seq<P>, resume: bool, maxWorkers: nat, lowerIsBetter: bool,
                           worker: P -> Work)
    returns (ghost ran: seq<P>)
    requires maxWorkers >= 1
    modifies row
    ensures var saved := if resume then old(row.results) else [];
      && Achieved(worker, combos, saved, ran, row.results)
      && (row.status == Completed ==> multiset(ran) == multiset(Remaining(combos, saved))
                                      && row.progress == 100 && row.completed == |combos|)
    ensures row.status in {Completed, Cancelled} && row.total == |combos|
    ensures BestFirst(row.results, lowerIsBetter)
    ensures row.best == Best(row.results) && IsBest(row.best, row.results, lowerIsBetter)
    ensures row.results == Ranked((if resume then old(row.results) else []) + RowList(worker, ran), lowerIsBetter)
  {
    hide Conserved, Process, Ranked, Achieved, BestFirst, Remaining, Outstanding, Best, IsBest, Bag, RowList, Partial;
    hide Wait;
    row.status := Running;
    row.total := |combos|;
    var existing: seq<Row<P>> := [];
    if resume {
      existing := row.results;
      row.completed := |existing|;
      row.progress := if row.total > 0 then |existing| * 100 / row.total else 0;
    }
    var args := Remaining(combos, existing);
    var j := Job(args, existing, maxWorkers, lowerIsBetter, worker);
    ghost var s := Primed(j, row.results);
    PrimedIsConserved(j, row.results);
    var rows, cancel := existing, false;
    var count: nat := |existing|;
    var next: nat := Min(maxWorkers, |args|);
    var pending := multiset(args[..next]);
    while pending != multiset{} && !cancel
      invariant Conserved(j, s) && (s.finished == multiset{} || cancel)
      invariant Holds(s, row, next, pending, rows, count) && row.total == |combos|
      decreases Outstanding(j, s)
    {
      var done := WaitFirst(pending);
      WaitConserves(j, s, done);
      WaitMoves(s, done);
      ghost var t := Wait(s, done);
      next, pending, rows, count, cancel, s := ProcessBatch(row, j, done, next, pending - done, rows, count, t);
    }
    ran := s.ran;
    StoppedHasAchieved(j, s, combos);
    Store(row, rows, lowerIsBetter, cancel);
  }

  /** The whole call: without a row it does nothing; a strategy or data that cannot be loaded, an empty grid or a pool
      without workers fail the run and leave saved results alone; else build the grid and sweep it. */
  method Run<V(!new,==)>(row: OptRun?<map<string, V>>, loads: bool, names: seq<string>, values: seq<seq<V>>,
                         less: (V, V) -> bool, resume: bool, maxWorkers: int, lowerIsBetter: bool,
                         worker: map<string, V> -> Work)
    returns (ghost ran: seq<map<string, V>>)
    requires |names| == |values|
    modifies row
    ensures row != null && (!loads || names == [] || maxWorkers < 1) ==>
            row.status == Failed && row.results == old(row.results)
    ensures row != null && loads && names != [] && maxWorkers >= 1 ==>
      var saved := if resume then old(row.results) else [];
      var combos := Grid(names, values, less);
      && row.status in {Completed, Cancelled} && Achieved(worker, combos, saved, ran, row.results)
      && (row.status == Completed ==> multiset(ran) == multiset(Remaining(combos, saved)))
      && BestFirst(row.results, lowerIsBetter)
      && row.best == Best(row.results) && IsBest(row.best, row.results, lowerIsBetter)
      && row.results == Ranked(saved + RowList(worker, ran), lowerIsBetter)
  {
    ran := [];
    if row == null {
      return;
    }
    row.status := Running;
    if !loads || names == [] || maxWorkers < 1 {
      row.status := Failed;
      return;
    }
    ran := Sweep(row, Grid(names, values, less), resume, maxWorkers, lowerIsBetter, worker);
  }

  // ----- several runs of one sweep

  /** Result lists of successive calls on one row: each run resumes from the rows the one before left. */
  ghost predicate Successive<P(!new)>(worker: P -> Work, combos: seq<P>, results: seq<seq<Row<P>>>, rans: seq<seq<P>>) {
    && |results| == |rans| + 1 && results[0] == []
    && forall i | 0 <= i < |rans| :: Achieved(worker, combos, results[i], rans[i], results[i + 1])
  }

  /** However often a sweep was cancelled, what it has saved is a partial result of the grid. */
  lemma {:induction false} CancelledRunsStayPartial<P(!new)>(worker: P -> Work, combos: seq<P>,
                                                             results: seq<seq<Row<P>>>, rans: seq<seq<P>>, i: nat)
    requires Successive(worker, combos, results, rans) && i < |results|
    ensures Partial(worker, combos, results[i])
  {
    if i > 0 {
      CancelledRunsStayPartial(worker, combos, results, rans, i - 1);
      assert Achieved(worker, combos, results[i - 1], rans[i - 1], results[i]);
    }
  }

  /** Any number of cancelled runs followed by one that completes yields the same rows as one uninterrupted run,
      whatever the schedules were, when the combinations are distinct. */
  lemma {:induction false} CancelAndResumeIsOneRun<P(!new)>(worker: P -> Work, combos: seq<P>,
                                                            results: seq<seq<Row<P>>>, rans: seq<seq<P>>,
                                                            once: seq<Row<P>>, ranOnce: seq<P>)
    requires NoDuplicates(combos) && Successive(worker, combos, results, rans) && |rans| >= 1
    requires var n := |rans| - 1; multiset(rans[n]) == multiset(Remaining(combos, results[n]))
    requires Achieved(worker, combos, [], ranOnce, once) && multiset(ranOnce) == multiset(Remaining(combos, []))
    ensures multiset(results[|rans|]) == multiset(once) == Bag(worker, combos)
  {
    var n := |rans| - 1;
    CancelledRunsStayPartial(worker, combos, results, rans, n);
    assert Achieved(worker, combos, results[n], rans[n], results[n + 1]);
    FinishedRows(worker, combos, results[n], rans[n], results[n + 1]);
    FinishedRows(worker, combos, [], ranOnce, once);
  }

  /** The rows of a run that processed everything left over from a partial result. */
  lemma {:induction false} FinishedRows<P(!new)>(worker: P -> Work, combos: seq<P>, saved: seq<Row<P>>, ran: seq<P>,
                                                 rows: seq<Row<P>>)
    requires NoDuplicates(combos) && Partial(worker, combos, saved)
    requires Achieved(worker, combos, saved, ran, rows) && multiset(ran) == multiset(Remaining(combos, saved))
    ensures multiset(rows) == Bag(worker, combos)
  {
    BagOrder(worker, ran, Remaining(combos, saved));
    ResumeCompletes(worker, combos, saved);
  }

  /** The same for a parameter grid: distinct names and distinct values per name are enough. */
  lemma {:induction false} GridResumeIsOneRun<V(!new)>(worker: map<string, V> -> Work, names: seq<string>,
                                                       values: seq<seq<V>>, less: (V, V) -> bool,
                                                       results: seq<seq<Row<map<string, V>>>>,
                                                       rans: seq<seq<map<string, V>>>)
    requires |names| == |values| && NoDuplicates(names) && forall i | 0 <= i < |values| :: NoDuplicates(values[i])
    requires Successive(worker, Grid(names, values, less), results, rans) && |rans| >= 1
    requires var n := |rans| - 1; multiset(rans[n]) == multiset(Remaining(Grid(names, values, less), results[n]))
    ensures multiset(results[|rans|]) == Bag(worker, Grid(names, values, less))
  {
    var combos, n := Grid(names, values, less), |rans| - 1;
    GridDistinct(names, values, less);
    CancelledRunsStayPartial(worker, combos, results, rans, n);
    assert Achieved(worker, combos, results[n], rans[n], results[n + 1]);
    FinishedRows(worker, combos, results[n], rans[n], results[n + 1]);
  }

  // ----- the calls themselves

  /** Start a sweep afresh and, as long as it was cancelled, resume it, at most `attempts` times. Once a call completes,
      the rows are those of one uninterrupted sweep; until then they are a partial result of it. */
  method RunAndResume<V(!new,==)>(row: OptRun<map<string, V>>, names: seq<string>, values: seq<seq<V>>,
                                  less: (V, V) -> bool, maxWorkers: int, lowerIsBetter: bool,
                                  worker: map<string, V> -> Work, attempts: nat)
    requires |names| == |values| && NoDuplicates(names) && forall i | 0 <= i < |values| :: NoDuplicates(values[i])
    requires names != [] && maxWorkers >= 1
    modifies row
    ensures row.status in {Completed, Cancelled}
    ensures BestFirst(row.results, lowerIsBetter) && IsBest(row.best, row.results, lowerIsBetter)
    ensures Partial(worker, Grid(names, values, less), row.results)
    ensures row.status == Completed ==> multiset(row.results) == Bag(worker, Grid(names, values, less))
  {
    hide Grid, Partial, Achieved, BestFirst, IsBest, Bag, RowList, Ranked, Remaining;
    ghost var combos := Grid(names, values, less);
    GridDistinct(names, values, less);
    NothingIsPartial(worker, combos);
    ghost var ran := Run(row, true, names, values, less, false, maxWorkers, lowerIsBetter, worker);
    SettledBy(worker, combos, [], ran, row.results, row.status == Completed);
    var left := attempts;
    while row.status == Cancelled && left > 0
      invariant row.status in {Completed, Cancelled}
      invariant BestFirst(row.results, lowerIsBetter) && IsBest(row.best, row.results, lowerIsBetter)
      invariant Partial(worker, combos, row.results)
      invariant row.status == Completed ==> multiset(row.results) == Bag(worker, combos)
      decreases left
    {
      ghost var saved := row.results;
      ran := Run(row, true, names, values, less, true, maxWorkers, lowerIsBetter, worker);
      SettledBy(worker, combos, saved, ran, row.results, row.status == Completed);
      left := left - 1;
    }
  }

  lemma {:induction false} NothingIsPartial<P(!new)>(worker: P -> Work, combos: seq<P>)
    ensures Partial(worker, combos, [])
  {
    assert ParamsOf<P>([]) == [];
  }

  /** One call's effect on a partial result. */
  lemma {:induction false} SettledBy<P(!new)>(worker: P -> Work, combos: seq<P>, saved: seq<Row<P>>, ran: seq<P>,
                                              rows: seq<Row<P>>, completed: bool)
    requires NoDuplicates(combos) && Partial(worker, combos, saved) && Achieved(worker, combos, saved, ran, rows)
    requires completed ==> multiset(ran) == multiset(Remaining(combos, saved))
    ensures Partial(worker, combos, rows) && (completed ==> multiset(rows) == Bag(worker, combos))
  {
    hide Partial, Bag, Remaining;
    if completed {
      FinishedRows(worker, combos, saved, ran, rows);
    }
  }
}
