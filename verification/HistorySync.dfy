/** Upserting closed MT5 positions into the trades table. */
module HistorySync {
  import opened Options
  import opened BacktestModels

  const ENTRY_IN := 0
  const ENTRY_OUT := 1
  const ENTRY_INOUT := 2
  const TYPE_BUY := 0

  datatype Deal = Deal(
    entry: int, positionId: int, kind: int, price: real, profit: real, commission: real, swap: real, time: int,
    symbol: string, volume: real)

  /** A row of the trades table; `notes` stands for the columns a sync neither reads nor writes. */
  datatype Row = Row(
    account: int, ticket: int, symbol: string, direction: Direction, volume: real, entryPrice: real, stopLoss: real,
    takeProfit: real, openedAt: int, closePrice: Option<real>, profit: Option<real>, closedAt: Option<int>,
    source: string, paper: bool, notes: string)

  /** The session during a sync: the rows it sees, and the tickets imported and updated so far. */
  datatype Sync = Sync(rows: seq<Row>, imported: seq<int>, updated: seq<int>)

  // ----- pairing

  predicate IsOut(d: Deal) {
    d.entry == ENTRY_OUT || d.entry == ENTRY_INOUT
  }

  function Outs(deals: seq<Deal>): seq<Deal> {
    if deals == [] then []
    else
      var d := deals[|deals| - 1];
      Outs(deals[..|deals| - 1]) + if IsOut(d) then [d] else []
  }

  function Ins(deals: seq<Deal>): map<int, Deal> {
    if deals == [] then map[]
    else
      var before, d := Ins(deals[..|deals| - 1]), deals[|deals| - 1];
      if d.entry == ENTRY_IN && d.positionId !in before then before[d.positionId := d] else before
  }

  /** Split deals into OUT deals and the first IN deal of each position. */
  method PairDeals(deals: seq<Deal>) returns (outs: seq<Deal>, ins: map<int, Deal>)
    ensures outs == Outs(deals) && ins == Ins(deals)
  {
    outs, ins := [], map[];
    for i := 0 to |deals|
      invariant outs == Outs(deals[..i]) && ins == Ins(deals[..i])
    {
      var deal := deals[i];
      assert deals[..i + 1][..i] == deals[..i];
      if deal.entry == ENTRY_IN {
        if deal.positionId !in ins {
          ins := ins[deal.positionId := deal];
        }
      } else if deal.entry == ENTRY_OUT || deal.entry == ENTRY_INOUT {
        outs := outs + [deal];
      }
    }
    assert deals[..|deals|] == deals;
  }

  /** `d` is the first deal of `deals` that satisfies the test for position `p`. */
  ghost predicate IsFirst(deals: seq<Deal>, test: Deal -> bool, p: int, d: Deal) {
    exists i :: 0 <= i < |deals| && deals[i] == d && test(d) && d.positionId == p && NoneBefore(deals, test, p, i)
  }

  ghost predicate NoneBefore(deals: seq<Deal>, test: Deal -> bool, p: int, i: int)
    requires 0 <= i <= |deals|
  {
    forall j | 0 <= j < i :: !(test(deals[j]) && deals[j].positionId == p)
  }

  /** The IN deal of a position is its first one, and is missing only when there is none. */
  lemma {:induction false} InsAreFirst(deals: seq<Deal>, p: int)
    ensures p in Ins(deals) ==> IsFirst(deals, (d: Deal) => d.entry == 0, p, Ins(deals)[p])
    ensures p !in Ins(deals) ==> NoneBefore(deals, (d: Deal) => d.entry == 0, p, |deals|)
  {
    var test := (d: Deal) => d.entry == 0;
    if deals != [] {
      var init, last := deals[..|deals| - 1], deals[|deals| - 1];
      InsAreFirst(init, p);
      assert forall j | 0 <= j < |init| :: init[j] == deals[j];
      if p in Ins(init) {
        var i :| 0 <= i < |init| && init[i] == Ins(init)[p] && init[i].entry == 0
                 && init[i].positionId == p && NoneBefore(init, test, p, i);
        assert NoneBefore(deals, test, p, i);
      } else if p in Ins(deals) {
        assert NoneBefore(deals, test, p, |init|);
      }
    }
  }

  // ----- the table

  /** The row of an account's ticket, if any. */
  function Find(rows: seq<Row>, account: int, ticket: int): (r: Option<nat>)
    ensures r.Some? ==> r.value < |rows| && rows[r.value].account == account && rows[r.value].ticket == ticket
    ensures r.None? ==> forall row <- rows :: row.account != account || row.ticket != ticket
  {
    if rows == [] then None
    else
      var last := |rows| - 1;
      if rows[last].account == account && rows[last].ticket == ticket then Some(last)
      else Find(rows[..last], account, ticket)
  }

  /** The table's unique constraint. */
  ghost predicate TicketsUnique(rows: seq<Row>) {
    forall i, j | 0 <= i < j < |rows| :: rows[i].account != rows[j].account || rows[i].ticket != rows[j].ticket
  }

  function Lookup(rows: seq<Row>, account: int, ticket: int): Option<Row> {
    match Find(rows, account, ticket)
    case None => None
    case Some(i) => Some(rows[i])
  }

  predicate IsClosed(row: Option<Row>) {
    row.Some? && row.value.closedAt.Some?
  }

  // ----- one OUT deal

  function NetProfit(d: Deal): real {
    d.profit + d.commission + d.swap
  }

  /** An open row with its close data filled in. */
  function Settle(row: Row, d: Deal): Row {
    row.(closePrice := Some(d.price), profit := Some(NetProfit(d)), closedAt := Some(d.time))
  }

  /** The row of a position the table did not know. */
  function Import(account: int, d: Deal, opening: Option<Deal>, now: int): Row {
    Row(account, d.positionId, d.symbol,
        if opening.Some? && opening.value.kind == TYPE_BUY then BUY else SELL,
        d.volume,
        if opening.Some? then opening.value.price else 0.0,
        0.0, 0.0,
        if opening.Some? then opening.value.time else now,
        Some(d.price), Some(NetProfit(d)), Some(d.time), "manual", false, "")
  }

  function Opening(ins: map<int, Deal>, p: int): Option<Deal> {
    if p in ins then Some(ins[p]) else None
  }

  function Upsert(s: Sync, account: int, d: Deal, ins: map<int, Deal>, now: int): Sync {
    match Find(s.rows, account, d.positionId)
    case None =>
      Sync(s.rows + [Import(account, d, Opening(ins, d.positionId), now)], s.imported + [d.positionId], s.updated)
    case Some(i) =>
      if s.rows[i].closedAt.Some? then s
      else Sync(s.rows[i := Settle(s.rows[i], d)], s.imported, s.updated + [d.positionId])
  }

  function UpsertAll(rows: seq<Row>, account: int, outs: seq<Deal>, ins: map<int, Deal>, now: int): Sync {
    if outs == [] then Sync(rows, [], [])
    else Upsert(UpsertAll(rows, account, outs[..|outs| - 1], ins, now), account, outs[|outs| - 1], ins, now)
  }

  /** The table after a sync, and what the sync reports. */
  function Synced(rows: seq<Row>, account: int, deals: seq<Deal>, now: int): Sync {
    UpsertAll(rows, account, Outs(deals), Ins(deals), now)
  }
}
