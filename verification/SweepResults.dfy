/** Result rows of a sweep: what a set of combinations yields, how rows are ranked, and resuming from saved rows. */
module SweepResults {
  import opened Options
  import opened Seqs

  /** One saved result; `metric` is the value of the optimize metric, if the metrics have it. */
  datatype Row<P> = Row(params: P, metric: Option<real>)

  /** The outcome of one combination in a worker: it raises, or returns metrics. */
  datatype Work = Raised | Done(metric: Option<real>)

  /** Rows produced by the combinations `ps`, counted. */
  ghost function Bag<P(!new)>(worker: P -> Work, ps: seq<P>): multiset<Row<P>> {
    if ps == [] then multiset{}
    else Bag(worker, ps[..|ps| - 1]) + RowsOf(worker, ps[|ps| - 1])
  }

  ghost function RowsOf<P>(worker: P -> Work, p: P): multiset<Row<P>> {
    match worker(p)
    case Raised => multiset{}
    case Done(m) => multiset{Row(p, m)}
  }

  /** The same rows in the order in which the combinations ran. */
  function RowList<P>(worker: P -> Work, ps: seq<P>): seq<Row<P>> {
    if ps == [] then []
    else
      var p := ps[|ps| - 1];
      RowList(worker, ps[..|ps| - 1]) + (match worker(p) case Raised => [] case Done(m) => [Row(p, m)])
  }

  lemma {:induction false} RowListIsBag<P(!new)>(worker: P -> Work, ps: seq<P>)
    ensures multiset(RowList(worker, ps)) == Bag(worker, ps)
  {
    if ps != [] {
      RowListIsBag(worker, ps[..|ps| - 1]);
    }
  }

  lemma {:induction false} RowListAppend<P(!new)>(worker: P -> Work, ps: seq<P>, p: P)
    ensures RowList(worker, ps + [p]) ==
            RowList(worker, ps) + (match worker(p) case Raised => [] case Done(m) => [Row(p, m)])
  {
    assert (ps + [p])[..|ps|] == ps;
  }

  /** A row occurs once for every copy of its combination, if its metric is what the worker returns. */
  lemma {:induction false} BagCount<P(!new)>(worker: P -> Work, ps: seq<P>, r: Row<P>)
    ensures Bag(worker, ps)[r] == if worker(r.params) == Done(r.metric) then multiset(ps)[r.params] else 0
  {
    if ps != [] {
      var init, p := ps[..|ps| - 1], ps[|ps| - 1];
      BagCount(worker, init, r);
      RowsOfCount(worker, p, r);
      hide RowsOf;
      assert Bag(worker, ps)[r] == Bag(worker, init)[r] + RowsOf(worker, p)[r];
      assert ps == init + [p];
    }
  }

  lemma {:induction false} RowsOfCount<P(!new)>(worker: P -> Work, p: P, r: Row<P>)
    ensures RowsOf(worker, p)[r] == if worker(r.params) == Done(r.metric) && r.params == p then 1 else 0
  {
  }

  lemma {:induction false} BagAppend<P(!new)>(worker: P -> Work, ps: seq<P>, p: P)
    ensures Bag(worker, ps + [p]) == Bag(worker, ps) + RowsOf(worker, p)
  {
    assert (ps + [p])[..|ps|] == ps;
  }

  /** Which rows come out depends only on which combinations ran, not on the order. */
  lemma {:induction false} BagOrder<P(!new)>(worker: P -> Work, ps: seq<P>, qs: seq<P>)
    requires multiset(ps) == multiset(qs)
    ensures Bag(worker, ps) == Bag(worker, qs)
  {
    forall r: Row<P>
      ensures Bag(worker, ps)[r] == Bag(worker, qs)[r]
    {
      BagCount(worker, ps, r);
      BagCount(worker, qs, r);
    }
  }

  // ----- ranking

  /** `x` ranks strictly after `y`: a missing metric is worst, then the metric decides. */
  predicate Worse<P>(x: Row<P>, y: Row<P>, lowerIsBetter: bool) {
    match (x.metric, y.metric)
    case (None, Some(_)) => true
    case (Some(v), Some(w)) => if lowerIsBetter then v > w else v < w
    case _ => false
  }

  /** Put `r` before the first row that ranks strictly after it, so equal rows keep their order. */
  function Insert<P>(r: Row<P>, rows: seq<Row<P>>, lowerIsBetter: bool): seq<Row<P>> {
    if rows == [] then [r]
    else if Worse(rows[0], r, lowerIsBetter) then [r] + rows
    else [rows[0]] + Insert(r, rows[1..], lowerIsBetter)
  }

  /** The stable ranking of `rows`. */
  function Ranked<P>(rows: seq<Row<P>>, lowerIsBetter: bool): seq<Row<P>> {
    if rows == [] then [] else Insert(rows[|rows| - 1], Ranked(rows[..|rows| - 1], lowerIsBetter), lowerIsBetter)
  }

  /** A row with metric `v` may stand before one with metric `w`: the larger metric first, or the smaller when lower is
      better, and missing ones last. */
  predicate MayPrecede(v: Option<real>, w: Option<real>, lowerIsBetter: bool) {
    w.Some? ==> v.Some? && if lowerIsBetter then v.value <= w.value else v.value >= w.value
  }

  ghost predicate BestFirst<P(!new)>(rows: seq<Row<P>>, lowerIsBetter: bool) {
    forall i, j | 0 <= i < j < |rows| :: MayPrecede(rows[i].metric, rows[j].metric, lowerIsBetter)
  }

  lemma {:induction false} InsertKeeps<P(!new)>(r: Row<P>, rows: seq<Row<P>>, lowerIsBetter: bool)
    ensures multiset(Insert(r, rows, lowerIsBetter)) == multiset(rows) + multiset{r}
    ensures forall x :: x in Insert(r, rows, lowerIsBetter) <==> x in rows || x == r
  {
    if rows != [] {
      assert rows == [rows[0]] + rows[1..];
      if !Worse(rows[0], r, lowerIsBetter) {
        InsertKeeps(r, rows[1..], lowerIsBetter);
      }
    }
  }

  lemma {:induction false} InsertKeepsOrder<P(!new)>(r: Row<P>, rows: seq<Row<P>>, lowerIsBetter: bool)
    requires BestFirst(rows, lowerIsBetter)
    ensures BestFirst(Insert(r, rows, lowerIsBetter), lowerIsBetter)
  {
    if rows != [] && !Worse(rows[0], r, lowerIsBetter) {
      var rest := Insert(r, rows[1..], lowerIsBetter);
      InsertKeepsOrder(r, rows[1..], lowerIsBetter);
      InsertKeeps(r, rows[1..], lowerIsBetter);
      forall j | 0 <= j < |rest|
        ensures MayPrecede(rows[0].metric, rest[j].metric, lowerIsBetter)
      {
        assert rest[j] in rest;
        if rest[j] in rows[1..] {
          var k :| 0 <= k < |rows[1..]| && rows[1..][k] == rest[j];
          assert rows[k + 1] == rest[j];
        }
      }
    }
  }

  /** Ranking permutes the rows and puts the best first and missing metrics last. */
  lemma {:induction false} RankedIsRanking<P(!new)>(rows: seq<Row<P>>, lowerIsBetter: bool)
    ensures multiset(Ranked(rows, lowerIsBetter)) == multiset(rows)
    ensures BestFirst(Ranked(rows, lowerIsBetter), lowerIsBetter)
  {
    if rows != [] {
      var init, r := rows[..|rows| - 1], rows[|rows| - 1];
      RankedIsRanking(init, lowerIsBetter);
      InsertKeeps(r, Ranked(init, lowerIsBetter), lowerIsBetter);
      InsertKeepsOrder(r, Ranked(init, lowerIsBetter), lowerIsBetter);
      assert rows == init + [r];
    }
  }

  /** In ranked rows the metrics fall, or rise when lower is better, and once a metric is missing all later ones are. */
  lemma {:induction false} RankedByMetric<P(!new)>(rows: seq<Row<P>>, lowerIsBetter: bool, i: nat, j: nat)
    requires i < j < |Ranked(rows, lowerIsBetter)|
    ensures var x, y := Ranked(rows, lowerIsBetter)[i].metric, Ranked(rows, lowerIsBetter)[j].metric;
      && (x.None? ==> y.None?)
      && (x.Some? && y.Some? && !lowerIsBetter ==> x.value >= y.value)
      && (x.Some? && y.Some? && lowerIsBetter ==> x.value <= y.value)
  {
    hide Ranked;
    RankedIsRanking(rows, lowerIsBetter);
  }

  /** In rows that stand best first, once a metric is missing all later ones are. */
  lemma {:induction false} MissingLast<P(!new)>(rows: seq<Row<P>>, lowerIsBetter: bool, i: nat, j: nat)
    requires BestFirst(rows, lowerIsBetter) && i < j < |rows| && rows[i].metric.None?
    ensures rows[j].metric.None?
  {
    assert MayPrecede(rows[i].metric, rows[j].metric, lowerIsBetter);
  }

  /** The rows with one metric, in their order. */
  function WithMetric<P>(rows: seq<Row<P>>, m: Option<real>): seq<Row<P>> {
    if rows == [] then []
    else (if rows[0].metric == m then [rows[0]] else []) + WithMetric(rows[1..], m)
  }

  lemma {:induction false} WithMetricConcat<P(!new)>(xs: seq<Row<P>>, ys: seq<Row<P>>, m: Option<real>)
    ensures WithMetric(xs + ys, m) == WithMetric(xs, m) + WithMetric(ys, m)
  {
    if xs == [] {
      assert xs + ys == ys;
    } else {
      WithMetricConcat(xs[1..], ys, m);
      assert (xs + ys)[1..] == xs[1..] + ys;
    }
  }

  lemma {:induction false} NoneBelowTheFirst<P(!new)>(rows: seq<Row<P>>, m: Option<real>, lowerIsBetter: bool)
    requires BestFirst(rows, lowerIsBetter) && rows != [] && !MayPrecede(rows[0].metric, m, lowerIsBetter)
    ensures WithMetric(rows, m) == []
  {
    if |rows| > 1 {
      assert MayPrecede(rows[0].metric, rows[1].metric, lowerIsBetter);
      NoneBelowTheFirst(rows[1..], m, lowerIsBetter);
    }
  }

  lemma {:induction false} InsertIsStable<P(!new)>(r: Row<P>, rows: seq<Row<P>>, lowerIsBetter: bool, m: Option<real>)
    requires BestFirst(rows, lowerIsBetter)
    ensures WithMetric(Insert(r, rows, lowerIsBetter), m) == WithMetric(rows, m) + WithMetric([r], m)
  {
    assert WithMetric<P>([], m) == [];
    hide WithMetric, BestFirst;
    if rows != [] {
      var first, tail := rows[0], rows[1..];
      assert rows == [first] + tail;
      if Worse(first, r, lowerIsBetter) {
        InFrontIsStable(r, rows, lowerIsBetter, m);
      } else {
        TailBestFirst(rows, lowerIsBetter);
        InsertIsStable(r, tail, lowerIsBetter, m);
        WithMetricConcat([first], tail, m);
        WithMetricConcat([first], Insert(r, tail, lowerIsBetter), m);
      }
    }
  }

  lemma {:induction false} TailBestFirst<P(!new)>(rows: seq<Row<P>>, lowerIsBetter: bool)
    requires BestFirst(rows, lowerIsBetter) && rows != []
    ensures BestFirst(rows[1..], lowerIsBetter)
  {
    hide MayPrecede;
  }

  /** A row in front of a worse one stands in front of no row with its own metric. */
  lemma {:induction false} InFrontIsStable<P(!new)>(r: Row<P>, rows: seq<Row<P>>, lowerIsBetter: bool, m: Option<real>)
    requires BestFirst(rows, lowerIsBetter) && rows != [] && Worse(rows[0], r, lowerIsBetter)
    ensures WithMetric([r] + rows, m) == WithMetric(rows, m) + WithMetric([r], m)
  {
    WithMetricConcat([r], rows, m);
    OnlyOwnMetric(r, m);
    hide WithMetric, BestFirst;
    if r.metric == m {
      NoneBelowTheFirst(rows, m, lowerIsBetter);
    }
  }

  lemma {:induction false} OnlyOwnMetric<P(!new)>(r: Row<P>, m: Option<real>)
    ensures WithMetric([r], m) == if r.metric == m then [r] else []
  {
  }

  /** Ranking is stable: rows with the same metric keep their order. */
  lemma {:induction false} RankedIsStable<P(!new)>(rows: seq<Row<P>>, lowerIsBetter: bool, m: Option<real>)
    ensures WithMetric(Ranked(rows, lowerIsBetter), m) == WithMetric(rows, m)
  {
    if rows != [] {
      var init, r := rows[..|rows| - 1], rows[|rows| - 1];
      RankedIsStable(init, lowerIsBetter, m);
      RankedIsRanking(init, lowerIsBetter);
      InsertIsStable(r, Ranked(init, lowerIsBetter), lowerIsBetter, m);
      WithMetricConcat(init, [r], m);
      assert rows == init + [r];
    }
  }

  /** `best` holds the parameters of a row whose metric is the maximum over all rows that have one, or the minimum when
      lower is better; a row without metric is best only if none has one. */
  ghost predicate IsBest<P(!new)>(best: Option<P>, rows: seq<Row<P>>, lowerIsBetter: bool) {
    if rows == [] then best == None
    else
      exists r <- rows ::
        && best == Some(r.params)
        && (r.metric.None? ==> forall x <- rows :: x.metric.None?)
        && (r.metric.Some? ==>
              forall x <- rows | x.metric.Some? ::
                if lowerIsBetter then r.metric.value <= x.metric.value else r.metric.value >= x.metric.value)
  }

  /** The first row's parameters. */
  function Best<P>(rows: seq<Row<P>>): Option<P> {
    if rows == [] then None else Some(rows[0].params)
  }

  /** The first of rows that stand best first is the best. */
  lemma {:induction false} FirstIsBest<P(!new)>(rows: seq<Row<P>>, lowerIsBetter: bool)
    requires BestFirst(rows, lowerIsBetter)
    ensures IsBest(Best(rows), rows, lowerIsBetter)
  {
    if rows != [] {
      forall x <- rows
        ensures MayPrecede(rows[0].metric, x.metric, lowerIsBetter)
      {
        var i :| 0 <= i < |rows| && rows[i] == x;
      }
      assert rows[0] in rows;
    }
  }

  // ----- resume

  /** The parameter dictionaries of saved rows. */
  function ParamsOf<P>(rows: seq<Row<P>>): (r: seq<P>)
    ensures |r| == |rows|
  {
    seq(|rows|, i requires 0 <= i < |rows| => rows[i].params)
  }

  /** The combinations a resumed run still submits. */
  function Remaining<P(==)>(combos: seq<P>, saved: seq<Row<P>>): seq<P> {
    if combos == [] then []
    else
      Remaining(combos[..|combos| - 1], saved)
      + if combos[|combos| - 1] in ParamsOf(saved) then [] else [combos[|combos| - 1]]
  }

  lemma {:induction false} RemainingCount<P(!new)>(combos: seq<P>, saved: seq<Row<P>>, p: P)
    ensures multiset(Remaining(combos, saved))[p] == if p in ParamsOf(saved) then 0 else multiset(combos)[p]
  {
    if combos != [] {
      var init, q := combos[..|combos| - 1], combos[|combos| - 1];
      RemainingCount(init, saved, p);
      assert combos == init + [q];
    }
  }

  /** Every saved row is what the worker returns for its combination. */
  ghost predicate Genuine<P(!new)>(worker: P -> Work, rows: seq<Row<P>>) {
    forall r <- rows :: worker(r.params) == Done(r.metric)
  }

  /** A genuine row is counted by its combination. */
  lemma {:induction false} GenuineCount<P(!new)>(worker: P -> Work, rows: seq<Row<P>>, r: Row<P>)
    requires Genuine(worker, rows) && worker(r.params) == Done(r.metric)
    ensures multiset(rows)[r] == multiset(ParamsOf(rows))[r.params]
  {
    if rows != [] {
      var init, x := rows[..|rows| - 1], rows[|rows| - 1];
      GenuineCount(worker, init, r);
      assert rows == init + [x];
      assert ParamsOf(rows) == ParamsOf(init) + [x.params];
    }
  }

  lemma {:induction false} SavedParams<P(!new)>(rows: seq<Row<P>>, p: P)
    ensures p in ParamsOf(rows) <==> exists r :: r in rows && r.params == p
  {
    if p in ParamsOf(rows) {
      var i :| 0 <= i < |rows| && ParamsOf(rows)[i] == p;
      assert rows[i] in rows && rows[i].params == p;
    }
    if r :| r in rows && r.params == p {
      var i :| 0 <= i < |rows| && rows[i] == r;
      assert ParamsOf(rows)[i] == p;
    }
  }

  /** All copies of every saved combination are among the saved rows. */
  ghost predicate AllCopiesSaved<P(!new)>(combos: seq<P>, saved: seq<Row<P>>) {
    forall p <- ParamsOf(saved) :: multiset(ParamsOf(saved))[p] == multiset(combos)[p]
  }

  /** Rows in the resumed total and in the uninterrupted total, for one row. */
  lemma {:induction false} ResumeCount<P(!new)>(worker: P -> Work, combos: seq<P>, saved: seq<Row<P>>, r: Row<P>)
    requires Genuine(worker, saved)
    ensures (multiset(saved) + Bag(worker, Remaining(combos, saved)))[r]
         == if worker(r.params) != Done(r.metric) then 0
            else if r.params in ParamsOf(saved) then multiset(ParamsOf(saved))[r.params]
            else multiset(combos)[r.params]
    ensures Bag(worker, combos)[r] == if worker(r.params) == Done(r.metric) then multiset(combos)[r.params] else 0
  {
    BagCount(worker, Remaining(combos, saved), r);
    BagCount(worker, combos, r);
    RemainingCount(combos, saved, r.params);
    if worker(r.params) == Done(r.metric) {
      GenuineCount(worker, saved, r);
    } else {
      assert r !in saved;
    }
  }

  /** Saved rows plus the rows of the remaining combinations are the rows of the whole sweep, exactly when no saved
      combination has copies left out. */
  lemma {:induction false} ResumeIsUninterruptedIff<P(!new)>(worker: P -> Work, combos: seq<P>, saved: seq<Row<P>>)
    requires Genuine(worker, saved)
    ensures multiset(saved) + Bag(worker, Remaining(combos, saved)) == Bag(worker, combos) <==>
            AllCopiesSaved(combos, saved)
  {
    var resumed, whole := multiset(saved) + Bag(worker, Remaining(combos, saved)), Bag(worker, combos);
    if AllCopiesSaved(combos, saved) {
      forall r: Row<P>
        ensures resumed[r] == whole[r]
      {
        ResumeCount(worker, combos, saved, r);
      }
      assert resumed == whole;
    }
    if resumed == whole {
      forall p <- ParamsOf(saved)
        ensures multiset(ParamsOf(saved))[p] == multiset(combos)[p]
      {
        SavedParams(saved, p);
        var r :| r in saved && r.params == p;
        ResumeCount(worker, combos, saved, r);
      }
    }
  }

  lemma {:induction false} DistinctCount<T(!new)>(xs: seq<T>, x: T)
    requires NoDuplicates(xs)
    ensures multiset(xs)[x] == if x in xs then 1 else 0
  {
    if xs != [] {
      var init, y := xs[..|xs| - 1], xs[|xs| - 1];
      DistinctCount(init, x);
      assert xs == init + [y];
    }
  }

  /** Rows a stopped run can leave: genuine, and each combination at most as often as the grid has it. */
  ghost predicate Partial<P(!new)>(worker: P -> Work, combos: seq<P>, rows: seq<Row<P>>) {
    Genuine(worker, rows) && multiset(ParamsOf(rows)) <= multiset(combos)
  }

  /** With distinct combinations, resuming from any partial result completes the uninterrupted sweep. */
  lemma {:induction false} ResumeCompletes<P(!new)>(worker: P -> Work, combos: seq<P>, saved: seq<Row<P>>)
    requires NoDuplicates(combos) && Partial(worker, combos, saved)
    ensures multiset(saved) + Bag(worker, Remaining(combos, saved)) == Bag(worker, combos)
  {
    forall p <- ParamsOf(saved)
      ensures multiset(ParamsOf(saved))[p] == multiset(combos)[p]
    {
      DistinctCount(combos, p);
    }
    ResumeIsUninterruptedIff(worker, combos, saved);
  }

  /** Every combination that yields a row occurs once. */
  ghost predicate YieldingOnce<P(!new)>(worker: P -> Work, combos: seq<P>) {
    forall p <- combos :: worker(p).Done? ==> multiset(combos)[p] == 1
  }

  ghost predicate Completes<P(!new)>(worker: P -> Work, combos: seq<P>, saved: seq<Row<P>>) {
    multiset(saved) + Bag(worker, Remaining(combos, saved)) == Bag(worker, combos)
  }

  /** Every partial result can be resumed to the uninterrupted sweep exactly when no combination that yields a row
      occurs twice in the grid. */
  lemma {:induction false} EveryResumeCompletesIff<P(!new)>(worker: P -> Work, combos: seq<P>)
    ensures (forall saved :: Partial(worker, combos, saved) ==> Completes(worker, combos, saved)) <==>
            YieldingOnce(worker, combos)
  {
    hide Bag, Remaining;
    if YieldingOnce(worker, combos) {
      forall saved | Partial(worker, combos, saved)
        ensures Completes(worker, combos, saved)
      {
        OnceMeansAllSaved(worker, combos, saved);
        ResumeIsUninterruptedIff(worker, combos, saved);
      }
    } else {
      var p :| p in combos && worker(p).Done? && multiset(combos)[p] != 1;
      var saved := [Row(p, worker(p).metric)];
      assert p in multiset(combos);
      assert ParamsOf(saved) == [p];
      assert Partial(worker, combos, saved);
      ResumeIsUninterruptedIff(worker, combos, saved);
      assert p in ParamsOf(saved) && multiset(ParamsOf(saved))[p] == 1;
      assert !Completes(worker, combos, saved);
    }
  }

  lemma {:induction false} OnceMeansAllSaved<P(!new)>(worker: P -> Work, combos: seq<P>, saved: seq<Row<P>>)
    requires YieldingOnce(worker, combos) && Partial(worker, combos, saved)
    ensures AllCopiesSaved(combos, saved)
  {
    forall p <- ParamsOf(saved)
      ensures multiset(ParamsOf(saved))[p] == multiset(combos)[p]
    {
      SavedParams(saved, p);
      assert p in multiset(ParamsOf(saved));
      assert p in multiset(combos);
    }
  }

  /** Repeated grid values break it: cancel after one of two equal combinations and the resumed run never runs the
      other. */
  lemma {:induction false} RepeatedValuesLoseRows(worker: int -> Work, p: int, m: Option<real>)
    requires worker(p) == Done(m)
    ensures multiset([Row(p, m)]) + Bag(worker, Remaining([p, p], [Row(p, m)])) != Bag(worker, [p, p])
  {
    var saved := [Row(p, m)];
    assert ParamsOf(saved) == [p];
    ResumeIsUninterruptedIff(worker, [p, p], saved);
  }
}
