/** What a history sync leaves alone, what it settles, and what syncing again does. */
module HistorySyncProofs {
  import opened BacktestModels
  import opened Options
  import opened Seqs
  import opened HistorySync

  // ----- looking up rows

  lemma {:induction false} LookupIsTheRow(rows: seq<Row>, i: nat)
    requires TicketsUnique(rows) && i < |rows|
    ensures Find(rows, rows[i].account, rows[i].ticket) == Some(i)
  {
    assert rows[i] in rows;
  }

  /** Finding depends only on the accounts and tickets. */
  lemma {:induction false} FindSame(xs: seq<Row>, ys: seq<Row>, account: int, ticket: int)
    requires |xs| == |ys| && forall i | 0 <= i < |xs| :: xs[i].account == ys[i].account && xs[i].ticket == ys[i].ticket
    ensures Find(xs, account, ticket) == Find(ys, account, ticket)
  {
    if xs != [] {
      FindSame(xs[..|xs| - 1], ys[..|ys| - 1], account, ticket);
    }
  }

  /** The row one OUT deal leaves for its position. */
  function Settled(row: Option<Row>, account: int, d: Deal, ins: map<int, Deal>, now: int): Row {
    if row.None? then Import(account, d, Opening(ins, d.positionId), now) else Settle(row.value, d)
  }

  lemma {:induction false} LookupAppended(rows: seq<Row>, row: Row, a: int, t: int)
    ensures Lookup(rows + [row], a, t) == if row.account == a && row.ticket == t then Some(row) else Lookup(rows, a, t)
  {
    assert (rows + [row])[..|rows|] == rows;
  }

  lemma {:induction false} LookupReplaced(rows: seq<Row>, i: nat, row: Row, a: int, t: int)
    requires i < |rows| && row.account == rows[i].account && row.ticket == rows[i].ticket
    ensures Lookup(rows[i := row], a, t) == if Find(rows, a, t) == Some(i) then Some(row) else Lookup(rows, a, t)
  {
    FindSame(rows, rows[i := row], a, t);
    hide Find;
  }

  lemma {:induction false} UpsertLookup(s: Sync, account: int, d: Deal, ins: map<int, Deal>, now: int, a: int, t: int)
    ensures var before := Lookup(s.rows, account, d.positionId);
      Lookup(Upsert(s, account, d, ins, now).rows, a, t) ==
        if a == account && t == d.positionId && !IsClosed(before) then Some(Settled(before, account, d, ins, now))
        else Lookup(s.rows, a, t)
  {
    match Find(s.rows, account, d.positionId)
    case None =>
      var row := Import(account, d, Opening(ins, d.positionId), now);
      LookupAppended(s.rows, row, a, t);
      assert row.account == account && row.ticket == d.positionId;
      hide Find, Import;
    case Some(i) =>
      if s.rows[i].closedAt.None? {
        var row := Settle(s.rows[i], d);
        LookupReplaced(s.rows, i, row, a, t);
        assert row.account == account && row.ticket == d.positionId;
        hide Find, Settle;
      }
  }

  lemma {:induction false} UpsertUnique(s: Sync, account: int, d: Deal, ins: map<int, Deal>, now: int)
    requires TicketsUnique(s.rows)
    ensures TicketsUnique(Upsert(s, account, d, ins, now).rows)
  {
    match Find(s.rows, account, d.positionId)
    case None =>
      assert forall i | 0 <= i < |s.rows| :: s.rows[i] in s.rows;
    case Some(i) =>
  }

  /** The table's unique constraint survives a sync. */
  lemma {:induction false} SyncKeepsTicketsUnique(rows: seq<Row>, account: int, outs: seq<Deal>, ins: map<int, Deal>,
                                                  now: int)
    requires TicketsUnique(rows)
    ensures TicketsUnique(UpsertAll(rows, account, outs, ins, now).rows)
  {
    hide Upsert, TicketsUnique;
    if outs != [] {
      SyncKeepsTicketsUnique(rows, account, outs[..|outs| - 1], ins, now);
      UpsertUnique(UpsertAll(rows, account, outs[..|outs| - 1], ins, now), account, outs[|outs| - 1], ins, now);
    }
  }

  // ----- the whole table after a sync

  predicate HasOut(outs: seq<Deal>, p: int) {
    exists d <- outs :: d.positionId == p
  }

  /** The first OUT deal of a position. */
  function FirstOut(outs: seq<Deal>, p: int): (r: Deal)
    requires HasOut(outs, p)
    ensures r in outs && r.positionId == p
  {
    var init, last := outs[..|outs| - 1], outs[|outs| - 1];
    assert outs == init + [last];
    if HasOut(init, p) then FirstOut(init, p) else last
  }

  lemma {:induction false} HasOutAppend(init: seq<Deal>, d: Deal, p: int)
    ensures HasOut(init + [d], p) <==> HasOut(init, p) || d.positionId == p
  {
    if HasOut(init, p) {
      var e :| e in init && e.positionId == p;
      assert e in init + [d];
    }
    assert d in init + [d];
  }

  lemma {:induction false} FirstOutAppend(init: seq<Deal>, d: Deal, p: int)
    requires HasOut(init + [d], p)
    ensures FirstOut(init + [d], p) == if HasOut(init, p) then FirstOut(init, p) else d
  {
    assert (init + [d])[..|init|] == init;
  }

  lemma {:induction false} FirstStays(init: seq<Deal>, last: Deal, test: Deal -> bool, p: int, d: Deal)
    requires IsFirst(init, test, p, d)
    ensures IsFirst(init + [last], test, p, d)
  {
    var all := init + [last];
    var i :| 0 <= i < |init| && init[i] == d && test(d) && d.positionId == p && NoneBefore(init, test, p, i);
    assert all[i] == d && NoneBefore(all, test, p, i);
  }

  lemma {:induction false} NoneThenLast(init: seq<Deal>, last: Deal, test: Deal -> bool, p: int)
    requires NoneBefore(init, test, p, |init|)
    ensures if test(last) && last.positionId == p then IsFirst(init + [last], test, p, last)
            else NoneBefore(init + [last], test, p, |init| + 1)
  {
    var all, n := init + [last], |init|;
    assert all[n] == last && NoneBefore(all, test, p, n);
  }

  /** It is the first deal of the whole history that closes the position, by an entry of 1 or 2. */
  lemma {:induction false} FirstOutIsFirst(deals: seq<Deal>, p: int)
    ensures HasOut(Outs(deals), p) ==> IsFirst(deals, IsOut, p, FirstOut(Outs(deals), p))
    ensures !HasOut(Outs(deals), p) ==> NoneBefore(deals, IsOut, p, |deals|)
    ensures forall d <- deals :: IsOut(d) <==> d.entry in {1, 2}
  {
    hide HasOut, FirstOut, Outs, IsFirst, NoneBefore;
    if deals == [] {
      NoOuts(p);
    } else {
      var init, last := deals[..|deals| - 1], deals[|deals| - 1];
      var outs := Outs(init);
      assert deals == init + [last];
      FirstOutIsFirst(init, p);
      OutsStep(deals);
      HasOutAppend(outs, last, p);
      if HasOut(outs, p) {
        FirstStays(init, last, IsOut, p, FirstOut(outs, p));
        FirstOutAppend(outs, last, p);
      } else {
        NoneThenLast(init, last, IsOut, p);
        if last.positionId == p {
          FirstOutAppend(outs, last, p);
        }
      }
    }
  }

  lemma {:induction false} NoOuts(p: int)
    ensures !HasOut(Outs([]), p) && NoneBefore([], IsOut, p, 0)
  {
  }

  lemma {:induction false} OutsStep(deals: seq<Deal>)
    requires deals != []
    ensures var init, last := deals[..|deals| - 1], deals[|deals| - 1];
      Outs(deals) == if IsOut(last) then Outs(init) + [last] else Outs(init)
  {
    assert Outs(deals[..|deals| - 1]) + [] == Outs(deals[..|deals| - 1]);
  }

  /** The whole table after a sync: a position with an OUT deal that was not closed takes its first OUT deal's close
      data, over its open row or as a new row built from its IN deal; every other row is as it was. */
  lemma {:induction false} SyncLookup(rows: seq<Row>, account: int, outs: seq<Deal>, ins: map<int, Deal>, now: int,
                                      a: int, t: int)
    ensures var before := Lookup(rows, a, t);
      Lookup(UpsertAll(rows, account, outs, ins, now).rows, a, t) ==
        if a == account && HasOut(outs, t) && !IsClosed(before)
        then Some(Settled(before, account, FirstOut(outs, t), ins, now))
        else before
  {
    hide Upsert, Lookup, Import, Settle;
    if outs != [] {
      var init, d := outs[..|outs| - 1], outs[|outs| - 1];
      assert outs == init + [d];
      HasOutAppend(init, d, t);
      SyncLookup(rows, account, init, ins, now, a, t);
      SyncLookup(rows, account, init, ins, now, account, d.positionId);
      var s := UpsertAll(rows, account, init, ins, now);
      UpsertLookup(s, account, d, ins, now, a, t);
      if a == account && HasOut(init, t) && !IsClosed(Lookup(rows, a, t)) {
        SettledIsClosed(Lookup(rows, a, t), account, FirstOut(init, t), ins, now);
      }
    }
  }

  lemma {:induction false} SettledIsClosed(row: Option<Row>, account: int, d: Deal, ins: map<int, Deal>, now: int)
    ensures IsClosed(Some(Settled(row, account, d, ins, now)))
  {
  }

  lemma {:induction false} UpsertLeavesAlone(s: Sync, account: int, d: Deal, ins: map<int, Deal>, now: int, i: nat)
    requires i < |s.rows| && (s.rows[i].closedAt.Some? || s.rows[i].account != account)
    ensures var after := Upsert(s, account, d, ins, now).rows; i < |after| && after[i] == s.rows[i]
  {
    hide Import, Settle;
  }

  /** A row that is closed, or belongs to another account, is the very same row after a sync. */
  lemma {:induction false} SyncLeavesAlone(rows: seq<Row>, account: int, outs: seq<Deal>, ins: map<int, Deal>,
                                           now: int, i: nat)
    requires i < |rows|
    requires rows[i].closedAt.Some? || rows[i].account != account
    ensures var after := UpsertAll(rows, account, outs, ins, now).rows; i < |after| && after[i] == rows[i]
  {
    hide Upsert;
    if outs != [] {
      var init := outs[..|outs| - 1];
      SyncLeavesAlone(rows, account, init, ins, now, i);
      UpsertLeavesAlone(UpsertAll(rows, account, init, ins, now), account, outs[|outs| - 1], ins, now, i);
    }
  }

  /** A sync neither moves nor renames a row. */
  lemma {:induction false} SyncKeepsPlaces(rows: seq<Row>, account: int, outs: seq<Deal>, ins: map<int, Deal>,
                                           now: int, i: nat)
    requires i < |rows|
    ensures var after := UpsertAll(rows, account, outs, ins, now).rows;
      i < |after| && after[i].account == rows[i].account && after[i].ticket == rows[i].ticket
  {
    if outs != [] {
      SyncKeepsPlaces(rows, account, outs[..|outs| - 1], ins, now, i);
    }
  }

  /** Row by row: an open row of the account whose position has an OUT deal gets the close data of the first one, and
      every other row is the very same row. */
  lemma {:induction false} SyncSettlesRow(rows: seq<Row>, account: int, outs: seq<Deal>, ins: map<int, Deal>,
                                          now: int, i: nat)
    requires TicketsUnique(rows) && i < |rows|
    ensures var after, row := UpsertAll(rows, account, outs, ins, now).rows, rows[i];
      i < |after| && after[i] ==
        if row.account == account && row.closedAt.None? && HasOut(outs, row.ticket)
        then Settle(row, FirstOut(outs, row.ticket)) else row
  {
    var row := rows[i];
    SyncKeepsPlaces(rows, account, outs, ins, now, i);
    SyncKeepsTicketsUnique(rows, account, outs, ins, now);
    LookupIsTheRow(rows, i);
    LookupIsTheRow(UpsertAll(rows, account, outs, ins, now).rows, i);
    SyncLookup(rows, account, outs, ins, now, row.account, row.ticket);
    hide UpsertAll, TicketsUnique, HasOut, FirstOut, Find, Settle;
  }

  // ----- what a row says

  /** The close data of a row come from a deal: its price, its time, and its profit with commission and swap. */
  ghost predicate ClosedBy(row: Row, d: Deal) {
    && row.closePrice == Some(d.price) && row.closedAt == Some(d.time)
    && row.profit == Some(d.profit + d.commission + d.swap)
  }

  /** The row of a position the table did not know: symbol and volume of the closing deal; direction, entry price and
      opening time of the opening deal, or SELL, 0.0 and the present when there is none; no stop or target. */
  ghost predicate ImportedFrom(row: Row, account: int, d: Deal, ins: map<int, Deal>, now: int) {
    && row.account == account && row.ticket == d.positionId && row.symbol == d.symbol && row.volume == d.volume
    && row.stopLoss == 0.0 && row.takeProfit == 0.0 && row.source == "manual" && !row.paper
    && (if d.positionId in ins then
          var opening := ins[d.positionId];
          && row.entryPrice == opening.price && row.openedAt == opening.time
          && (row.direction == BUY <==> opening.kind == 0)
        else row.entryPrice == 0.0 && row.openedAt == now && row.direction == SELL)
    && ClosedBy(row, d)
  }

  /** After a sync, the row of each position with an OUT deal that was not closed yet: an open row has the first OUT
      deal's close data and is otherwise as it was; a missing one is imported from it and the opening deal. */
  lemma {:induction false} SyncWritesTheDeal(rows: seq<Row>, account: int, deals: seq<Deal>, now: int, t: int)
    requires HasOut(Outs(deals), t) && !IsClosed(Lookup(rows, account, t))
    ensures var before, after := Lookup(rows, account, t), Lookup(Synced(rows, account, deals, now).rows, account, t);
      var d := FirstOut(Outs(deals), t);
      && after.Some?
      && (if before.None? then ImportedFrom(after.value, account, d, Ins(deals), now)
          else
            && ClosedBy(after.value, d)
            && after.value.(closePrice := before.value.closePrice, profit := before.value.profit,
                            closedAt := before.value.closedAt) == before.value)
  {
    SyncLookup(rows, account, Outs(deals), Ins(deals), now, account, t);
    hide UpsertAll, Lookup, Outs, Ins, HasOut, FirstOut;
  }

  // ----- what a sync reports

  lemma {:induction false} Reported(rows: seq<Row>, account: int, outs: seq<Deal>, ins: map<int, Deal>, now: int,
                                    t: int)
    ensures var s := UpsertAll(rows, account, outs, ins, now);
      && (t in s.imported <==> HasOut(outs, t) && Lookup(rows, account, t).None?)
      && (t in s.updated <==> HasOut(outs, t) && Lookup(rows, account, t).Some? && !IsClosed(Lookup(rows, account, t)))
  {
    if outs != [] {
      var init, d := outs[..|outs| - 1], outs[|outs| - 1];
      assert outs == init + [d];
      HasOutAppend(init, d, t);
      Reported(rows, account, init, ins, now, t);
      SyncLookup(rows, account, init, ins, now, account, d.positionId);
      hide UpsertAll, Import, Settle, HasOut;
      if d.positionId == t && HasOut(init, t) && !IsClosed(Lookup(rows, account, t)) {
        SettledIsClosed(Lookup(rows, account, t), account, FirstOut(init, t), ins, now);
      }
    }
  }

  lemma {:induction false} ReportedOnce(rows: seq<Row>, account: int, outs: seq<Deal>, ins: map<int, Deal>, now: int)
    ensures var s := UpsertAll(rows, account, outs, ins, now); NoDuplicates(s.imported) && NoDuplicates(s.updated)
  {
    if outs != [] {
      var init, d := outs[..|outs| - 1], outs[|outs| - 1];
      ReportedOnce(rows, account, init, ins, now);
      Reported(rows, account, init, ins, now, d.positionId);
      SyncLookup(rows, account, init, ins, now, account, d.positionId);
      var s := UpsertAll(rows, account, init, ins, now);
      var t := d.positionId;
      if HasOut(init, t) && !IsClosed(Lookup(rows, account, t)) {
        SettledIsClosed(Lookup(rows, account, t), account, FirstOut(init, t), ins, now);
      }
      assert t in s.imported || t in s.updated ==> IsClosed(Lookup(s.rows, account, t));
      hide UpsertAll, Import, Settle, HasOut, FirstOut, Settled, NoDuplicates;
      NoDuplicatesAppend(s.imported, t);
      NoDuplicatesAppend(s.updated, t);
      assert UpsertAll(rows, account, outs, ins, now) == Upsert(s, account, d, ins, now) by {
        UpsertLast(rows, account, outs, ins, now);
      }
    } else {
      assert UpsertAll(rows, account, outs, ins, now) == Sync(rows, [], []);
    }
  }

  lemma {:induction false} UpsertLast(rows: seq<Row>, account: int, outs: seq<Deal>, ins: map<int, Deal>, now: int)
    requires outs != []
    ensures UpsertAll(rows, account, outs, ins, now) ==
            Upsert(UpsertAll(rows, account, outs[..|outs| - 1], ins, now), account, outs[|outs| - 1], ins, now)
  {
  }

  lemma {:induction false} DistinctCount(ts: seq<int>, members: set<int>)
    requires NoDuplicates(ts) && forall t :: t in ts <==> t in members
    ensures |ts| == |members|
  {
    if ts == [] {
      assert forall t :: t !in members;
      assert members == {};
    } else {
      var init, last := ts[..|ts| - 1], ts[|ts| - 1];
      assert ts == init + [last];
      assert last !in init;
      DistinctCount(init, members - {last});
    }
  }

  function OutIds(outs: seq<Deal>): set<int> {
    set d <- outs :: d.positionId
  }

  /** imported + updated is the number of distinct OUT positions that were not closed; no ticket is reported twice. */
  lemma {:induction false} SyncCounts(rows: seq<Row>, account: int, outs: seq<Deal>, ins: map<int, Deal>, now: int)
    ensures var s := UpsertAll(rows, account, outs, ins, now);
      && |s.imported| + |s.updated| == |set t <- OutIds(outs) | !IsClosed(Lookup(rows, account, t))|
      && NoDuplicates(s.imported + s.updated)
  {
    var s := UpsertAll(rows, account, outs, ins, now);
    var all := s.imported + s.updated;
    var members := set t <- OutIds(outs) | !IsClosed(Lookup(rows, account, t));
    ReportedOnce(rows, account, outs, ins, now);
    forall t: int
      ensures t in all <==> t in members
      ensures !(t in s.imported && t in s.updated)
    {
      Reported(rows, account, outs, ins, now, t);
      assert HasOut(outs, t) <==> t in OutIds(outs);
    }
    hide UpsertAll, IsClosed, Lookup, OutIds;
    assert forall i | 0 <= i < |s.imported| :: s.imported[i] in s.imported;
    assert forall i | 0 <= i < |s.updated| :: s.updated[i] in s.updated;
    DistinctCount(all, members);
  }

  // ----- syncing again

  lemma {:induction false} NothingToSettle(rows: seq<Row>, account: int, outs: seq<Deal>, ins: map<int, Deal>, now: int)
    requires forall d <- outs :: IsClosed(Lookup(rows, account, d.positionId))
    ensures UpsertAll(rows, account, outs, ins, now) == Sync(rows, [], [])
  {
    if outs != [] {
      NothingToSettle(rows, account, outs[..|outs| - 1], ins, now);
      assert outs[|outs| - 1] in outs;
    }
  }

  lemma {:induction false} AllClosedAfter(rows: seq<Row>, account: int, outs: seq<Deal>, ins: map<int, Deal>,
                                          now: int, d: Deal)
    requires d in outs
    ensures IsClosed(Lookup(UpsertAll(rows, account, outs, ins, now).rows, account, d.positionId))
  {
    var t := d.positionId;
    SyncLookup(rows, account, outs, ins, now, account, t);
    assert HasOut(outs, t);
    hide UpsertAll, Lookup, Import, Settle;
    if !IsClosed(Lookup(rows, account, t)) {
      SettledIsClosed(Lookup(rows, account, t), account, FirstOut(outs, t), ins, now);
    }
  }

  /** Syncing the same deals again, at any later time, changes nothing and reports nothing. */
  lemma {:induction false} SyncIsIdempotent(rows: seq<Row>, account: int, deals: seq<Deal>, now: int, later: int)
    ensures var after := Synced(rows, account, deals, now).rows;
      Synced(after, account, deals, later) == Sync(after, [], [])
  {
    var outs := Outs(deals);
    var after := Synced(rows, account, deals, now).rows;
    hide UpsertAll, IsClosed, Lookup;
    forall d <- outs
      ensures IsClosed(Lookup(after, account, d.positionId))
    {
      AllClosedAfter(rows, account, outs, Ins(deals), now, d);
    }
    NothingToSettle(after, account, outs, Ins(deals), later);
  }

  // ----- deals that arrive in two batches

  lemma {:induction false} OutsConcat(xs: seq<Deal>, ys: seq<Deal>)
    ensures Outs(xs + ys) == Outs(xs) + Outs(ys)
  {
    if ys == [] {
      assert xs + ys == xs;
    } else {
      OutsConcat(xs, ys[..|ys| - 1]);
      assert (xs + ys)[..|xs + ys| - 1] == xs + ys[..|ys| - 1];
    }
  }

  lemma {:induction false} InsConcat(xs: seq<Deal>, ys: seq<Deal>, p: int)
    ensures p in Ins(xs) ==> p in Ins(xs + ys) && Ins(xs + ys)[p] == Ins(xs)[p]
  {
    if ys == [] {
      assert xs + ys == xs;
    } else {
      InsConcat(xs, ys[..|ys| - 1], p);
      assert (xs + ys)[..|xs + ys| - 1] == xs + ys[..|ys| - 1];
    }
  }

  lemma {:induction false} FirstOutConcat(xs: seq<Deal>, ys: seq<Deal>, p: int)
    ensures HasOut(xs + ys, p) <==> HasOut(xs, p) || HasOut(ys, p)
    ensures HasOut(xs, p) ==> FirstOut(xs + ys, p) == FirstOut(xs, p)
  {
    if ys == [] {
      assert xs + ys == xs;
      assert !HasOut(ys, p);
    } else {
      var init := ys[..|ys| - 1];
      FirstOutConcat(xs, init, p);
      assert (xs + ys)[..|xs + ys| - 1] == xs + init;
      assert ys == init + [ys[|ys| - 1]];
      assert xs + ys == (xs + init) + [ys[|ys| - 1]];
      HasOutAppend(xs + init, ys[|ys| - 1], p);
      HasOutAppend(init, ys[|ys| - 1], p);
    }
  }

  /** The opening deal carries just the values a sync at time `now` makes up when it has none. */
  predicate LooksMissing(opening: Deal, now: int) {
    opening.kind != TYPE_BUY && opening.price == 0.0 && opening.time == now
  }

  /** Position `t` is imported from `xs` without an opening deal, and what the first sync made up is not what the
      second would have written: the opening deal comes with `ys` and says something, or never comes and the clocks
      differ. */
  ghost predicate OpeningMadeUp(rows: seq<Row>, account: int, xs: seq<Deal>, ys: seq<Deal>, now: int, later: int,
                                t: int) {
    && HasOut(Outs(xs), t) && Lookup(rows, account, t).None? && t !in Ins(xs)
    && if t in Ins(xs + ys) then !LooksMissing(Ins(xs + ys)[t], now) else now != later
  }

  /** Syncing a history and later the longer history leaves a row as one late sync of the longer history would, exactly
      when no opening had to be made up for it. */
  lemma {:induction false} SyncInTwoSteps(rows: seq<Row>, account: int, xs: seq<Deal>, ys: seq<Deal>, now: int,
                                          later: int, t: int)
    ensures Lookup(Synced(Synced(rows, account, xs, now).rows, account, xs + ys, later).rows, account, t) ==
            Lookup(Synced(rows, account, xs + ys, later).rows, account, t)
            <==> !OpeningMadeUp(rows, account, xs, ys, now, later, t)
  {
    var outs, more, all := Outs(xs), Outs(ys), Outs(xs + ys);
    var middle := Synced(rows, account, xs, now).rows;
    OutsConcat(xs, ys);
    InsConcat(xs, ys, t);
    FirstOutConcat(outs, more, t);
    SyncLookup(rows, account, outs, Ins(xs), now, account, t);
    SyncLookup(middle, account, all, Ins(xs + ys), later, account, t);
    SyncLookup(rows, account, all, Ins(xs + ys), later, account, t);
    var row := Lookup(rows, account, t);
    if HasOut(outs, t) && !IsClosed(row) {
      var d := FirstOut(outs, t);
      SettledIsClosed(row, account, d, Ins(xs), now);
      SettledSame(row, account, d, Ins(xs), Ins(xs + ys), now, later);
    }
    hide UpsertAll, Lookup, Outs, Ins, Settled, HasOut, FirstOut;
  }

  lemma {:induction false} SettledSame(row: Option<Row>, account: int, d: Deal, xs: map<int, Deal>, ys: map<int, Deal>,
                                       now: int, later: int)
    requires d.positionId in xs ==> d.positionId in ys && ys[d.positionId] == xs[d.positionId]
    ensures Settled(row, account, d, xs, now) == Settled(row, account, d, ys, later) <==>
      (row.None? && d.positionId !in xs ==>
        if d.positionId in ys then LooksMissing(ys[d.positionId], now) else now == later)
  {
  }

  // ----- concrete histories

  const CLOSING := Deal(ENTRY_OUT, 7, 1, 110.0, 10.0, 0.0, 0.0, 5, "EURUSD", 0.1)
  const OPENING := Deal(ENTRY_IN, 7, TYPE_BUY, 100.0, 0.0, 0.0, 0.0, 3, "EURUSD", 0.1)

  lemma {:induction false} ClosingAlone()
    ensures Outs([CLOSING]) == [CLOSING] && Ins([CLOSING]) == map[]
  {
  }

  lemma {:induction false} ClosingThenOpening()
    ensures Outs([CLOSING, OPENING]) == [CLOSING] && Ins([CLOSING, OPENING]) == map[7 := OPENING]
  {
    ClosingAlone();
    assert [CLOSING, OPENING][..1] == [CLOSING];
  }

  /** A position whose IN deal arrives only with the longer history keeps entry price 0. */
  lemma {:induction false} LateOpeningIsLost(account: int, now: int, later: int)
    ensures var twice :=
            Lookup(Synced(Synced([], account, [CLOSING], now).rows, account, [CLOSING, OPENING], later).rows,
                   account, 7);
      twice.Some? && twice.value.entryPrice == 0.0
    ensures var once := Lookup(Synced([], account, [CLOSING, OPENING], later).rows, account, 7);
      once.Some? && once.value.entryPrice == 100.0
  {
    var open := OPENING;
    ClosingAlone();
    ClosingThenOpening();
    FirstOutOfOne(CLOSING);
    SyncLookup([], account, [CLOSING], map[], now, account, 7);
    SyncLookup([], account, [CLOSING], map[7 := open], later, account, 7);
    SyncLookup(Synced([], account, [CLOSING], now).rows, account, [CLOSING], map[7 := open], later, account, 7);
    assert Lookup([], account, 7) == None;
    hide UpsertAll, Lookup, HasOut, FirstOut, Outs, Ins;
  }

  /** A position whose IN deal never arrives keeps the clock of the first sync as its opening time. */
  lemma {:induction false} MissingOpeningKeepsTheFirstClock(account: int, now: int, later: int)
    ensures var twice :=
            Lookup(Synced(Synced([], account, [CLOSING], now).rows, account, [CLOSING], later).rows, account, 7);
      twice.Some? && twice.value.openedAt == now
    ensures var once := Lookup(Synced([], account, [CLOSING], later).rows, account, 7);
      once.Some? && once.value.openedAt == later
  {
    ClosingAlone();
    FirstOutOfOne(CLOSING);
    SyncLookup([], account, [CLOSING], map[], now, account, 7);
    SyncLookup([], account, [CLOSING], map[], later, account, 7);
    SyncLookup(Synced([], account, [CLOSING], now).rows, account, [CLOSING], map[], later, account, 7);
    assert Lookup([], account, 7) == None;
    hide UpsertAll, Lookup, HasOut, FirstOut, Outs, Ins;
  }

  lemma {:induction false} FirstOutOfOne(d: Deal)
    ensures HasOut([d], d.positionId) && FirstOut([d], d.positionId) == d
  {
    assert d in [d];
  }
}
