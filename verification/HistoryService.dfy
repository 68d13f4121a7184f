/** The sync loop over the trades table. */
module HistoryService {
  import opened Options
  import opened Seqs
  import opened HistorySync
  import opened HistorySyncProofs

  /** What a sync reports: counts, and the ids of the rows to analyse, new ones first. */
  datatype Report = Report(imported: nat, updated: nat, totalFetched: nat, newTradeIds: seq<int>)

  /** `found` lists the ids of the account's rows with the given tickets. */
  ghost predicate AreIdsOf(rows: seq<Row>, ids: seq<int>, account: int, tickets: seq<int>, found: seq<int>)
    requires |ids| == |rows|
  {
    |found| == |tickets| && forall k | 0 <= k < |tickets| :: IsIdOf(rows, ids, account, tickets[k], found[k])
  }

  ghost predicate IsIdOf(rows: seq<Row>, ids: seq<int>, account: int, ticket: int, id: int)
    requires |ids| == |rows|
  {
    var at := Find(rows, account, ticket);
    at.Some? && ids[at.value] == id
  }

  lemma {:induction false} FindAppended(rows: seq<Row>, row: Row, account: int, ticket: int)
    ensures Find(rows + [row], account, ticket) ==
      if row.account == account && row.ticket == ticket then Some(|rows|) else Find(rows, account, ticket)
  {
    assert (rows + [row])[..|rows|] == rows;
  }

  /** One upsert leaves every row that could be found where it was. */
  lemma {:induction false} UpsertKeepsIds(s: Sync, account: int, d: Deal, ins: map<int, Deal>, now: int, ids: seq<int>,
                                          later: seq<int>, tickets: seq<int>, found: seq<int>)
    requires |ids| == |s.rows| && AreIdsOf(s.rows, ids, account, tickets, found)
    requires var after := Upsert(s, account, d, ins, now).rows; |later| == |after| && ids <= later
    ensures AreIdsOf(Upsert(s, account, d, ins, now).rows, later, account, tickets, found)
  {
    var after := Upsert(s, account, d, ins, now).rows;
    forall k | 0 <= k < |tickets|
      ensures IsIdOf(after, later, account, tickets[k], found[k])
    {
      assert IsIdOf(s.rows, ids, account, tickets[k], found[k]);
      UpsertKeepsFound(s, account, d, ins, now, tickets[k]);
    }
  }

  lemma {:induction false} UpsertKeepsFound(s: Sync, account: int, d: Deal, ins: map<int, Deal>, now: int, ticket: int)
    requires Find(s.rows, account, ticket).Some?
    ensures Find(Upsert(s, account, d, ins, now).rows, account, ticket) == Find(s.rows, account, ticket)
  {
    match Find(s.rows, account, d.positionId)
    case None =>
      FindAppended(s.rows, Import(account, d, Opening(ins, d.positionId), now), account, ticket);
    case Some(i) =>
      if s.rows[i].closedAt.None? {
        FindSame(s.rows, s.rows[i := Settle(s.rows[i], d)], account, ticket);
      }
  }

  class TradesTable {
    var rows: seq<Row>
    /** The primary key of each row. */
    var ids: seq<int>
    var nextId: int

    ghost predicate Valid()
      reads this
    {
      |ids| == |rows| && NoDuplicates(ids) && forall id <- ids :: id < nextId
    }

    constructor (rows: seq<Row>, ids: seq<int>, nextId: int)
      requires |ids| == |rows| && NoDuplicates(ids) && forall id <- ids :: id < nextId
      ensures Valid() && this.rows == rows && this.ids == ids && this.nextId == nextId
    {
      this.rows, this.ids, this.nextId := rows, ids, nextId;
    }

    /** Insert a row under a fresh id. */
    method Add(row: Row) returns (id: int)
      requires Valid()
      modifies this
      ensures Valid() && rows == old(rows) + [row] && ids == old(ids) + [id] && id == old(nextId) && nextId == id + 1
    {
      id := nextId;
      NoDuplicatesAppend(ids, id);
      rows, ids, nextId := rows + [row], ids + [id], nextId + 1;
    }

    /** Handle one OUT deal: the ids of the row it imported and of the row it updated, if any. */
    method UpsertDeal(account: int, outDeal: Deal, inByPos: map<int, Deal>, now: int, ghost s: Sync)
      returns (added: Option<int>, settled: Option<int>)
      requires Valid() && s.rows == rows
      modifies this
      ensures Valid() && old(ids) <= ids && nextId >= old(nextId)
      ensures var t := Upsert(s, account, outDeal, inByPos, now);
        && rows == t.rows
        && t.imported == s.imported + (if added.Some? then [outDeal.positionId] else [])
        && t.updated == s.updated + (if settled.Some? then [outDeal.positionId] else [])
      ensures added.Some? ==> IsIdOf(rows, ids, account, outDeal.positionId, added.value)
      ensures settled.Some? ==> IsIdOf(rows, ids, account, outDeal.positionId, settled.value)
    {
      hide Settle, Import;
      added, settled := None, None;
      var existing := Find(rows, account, outDeal.positionId);
      if existing.Some? {
        var i := existing.value;
        if rows[i].closedAt.None? {
          SettleKeepsName(rows[i], outDeal);
          FindSame(rows, rows[i := Settle(rows[i], outDeal)], account, outDeal.positionId);
          rows := rows[i := Settle(rows[i], outDeal)];
          settled := Some(ids[i]);
        }
      } else {
        var row := Import(account, outDeal, Opening(inByPos, outDeal.positionId), now);
        ImportNames(account, outDeal, Opening(inByPos, outDeal.positionId), now);
        FindAppended(rows, row, account, outDeal.positionId);
        var id := Add(row);
        added := Some(id);
      }
    }

    /** Upsert pre-fetched deals and commit. When the commit fails everything is rolled back and the caller gets an
        error instead of a report; with nothing to write there is no commit. */
    method SyncDealsToDb(account: int, deals: seq<Deal>, now: int, commits: bool) returns (r: Option<Report>)
      requires Valid()
      modifies this
      ensures Valid()
      ensures var s := Synced(old(rows), account, deals, now);
        if commits || s.imported + s.updated == [] then
          && r.Some? && rows == s.rows && old(ids) <= ids
          && r.value.imported == |s.imported| && r.value.updated == |s.updated| && r.value.totalFetched == |deals|
          && AreIdsOf(rows, ids, account, s.imported + s.updated, r.value.newTradeIds)
        else r == None && rows == old(rows) && ids == old(ids)
      ensures r.Some? ==>
        r.value.imported + r.value.updated == |set t <- OutIds(Outs(deals)) | !IsClosed(Lookup(old(rows), account, t))|
    {
      hide Upsert, Find, AreIdsOf, IsIdOf, Outs, Ins;
      var start, startIds := rows, ids;
      var outs, inByPos := PairDeals(deals);
      var newIds, updatedIds := [], [];
      ghost var s := Sync(rows, [], []);
      NoIds(rows, ids, account);
      assert UpsertAll(start, account, [], inByPos, now) == s;
      for i := 0 to |outs|
        invariant Valid() && startIds <= ids && s.rows == rows && nextId >= old(nextId)
        invariant s == UpsertAll(start, account, outs[..i], inByPos, now)
        invariant AreIdsOf(rows, ids, account, s.imported, newIds)
        invariant AreIdsOf(rows, ids, account, s.updated, updatedIds)
      {
        ghost var before, beforeIds := s, ids;
        var p := outs[i].positionId;
        var added, settled := UpsertDeal(account, outs[i], inByPos, now, s);
        UpsertKeepsIds(before, account, outs[i], inByPos, now, beforeIds, ids, before.imported, newIds);
        UpsertKeepsIds(before, account, outs[i], inByPos, now, beforeIds, ids, before.updated, updatedIds);
        UpsertLast(start, account, outs[..i + 1], inByPos, now);
        assert outs[..i + 1][..i] == outs[..i];
        s := Upsert(before, account, outs[i], inByPos, now);
        if added.Some? {
          OneMoreId(rows, ids, account, before.imported, newIds, p, added.value);
          newIds := newIds + [added.value];
        }
        if settled.Some? {
          OneMoreId(rows, ids, account, before.updated, updatedIds, p, settled.value);
          updatedIds := updatedIds + [settled.value];
        }
        assert s.imported == before.imported + (if added.Some? then [p] else []);
        assert before.imported + [] == before.imported && before.updated + [] == before.updated;
      }
      assert outs[..|outs|] == outs;
      SyncCounts(start, account, outs, inByPos, now);
      SameLengths(rows, ids, account, s.imported, newIds);
      SameLengths(rows, ids, account, s.updated, updatedIds);
      if (newIds != [] || updatedIds != []) && !commits {
        rows, ids := start, startIds;
        return None;
      }
      IdsConcat(rows, ids, account, s.imported, newIds, s.updated, updatedIds);
      return Some(Report(|newIds|, |updatedIds|, |deals|, newIds + updatedIds));
    }
  }

  lemma {:induction false} SettleKeepsName(row: Row, d: Deal)
    ensures Settle(row, d).account == row.account && Settle(row, d).ticket == row.ticket
  {
  }

  lemma {:induction false} ImportNames(account: int, d: Deal, opening: Option<Deal>, now: int)
    ensures Import(account, d, opening, now).account == account
    ensures Import(account, d, opening, now).ticket == d.positionId
  {
  }

  lemma {:induction false} NoIds(rows: seq<Row>, ids: seq<int>, account: int)
    requires |ids| == |rows|
    ensures AreIdsOf(rows, ids, account, [], [])
  {
  }

  lemma {:induction false} SameLengths(rows: seq<Row>, ids: seq<int>, account: int, tickets: seq<int>, found: seq<int>)
    requires |ids| == |rows| && AreIdsOf(rows, ids, account, tickets, found)
    ensures |found| == |tickets|
  {
  }

  lemma {:induction false} OneMoreId(rows: seq<Row>, ids: seq<int>, account: int, tickets: seq<int>, found: seq<int>,
                                     ticket: int, id: int)
    requires |ids| == |rows| && AreIdsOf(rows, ids, account, tickets, found) && IsIdOf(rows, ids, account, ticket, id)
    ensures AreIdsOf(rows, ids, account, tickets + [ticket], found + [id])
  {
  }

  lemma {:induction false} IdsConcat(rows: seq<Row>, ids: seq<int>, account: int, xs: seq<int>, foundX: seq<int>,
                                     ys: seq<int>, foundY: seq<int>)
    requires |ids| == |rows| && AreIdsOf(rows, ids, account, xs, foundX) && AreIdsOf(rows, ids, account, ys, foundY)
    ensures AreIdsOf(rows, ids, account, xs + ys, foundX + foundY)
  {
  }
}
