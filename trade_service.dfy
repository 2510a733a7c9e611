/**
 * `TradeService` of `pkg/service/trade.go`: the stored trades table, the query for the newest
 * stored trades of a market, the insert, and `Sync`, which pulls an exchange's trade history
 * through the batch query and stores every trade whose key is not yet known.
 *
 * The table is the sequence of rows in insertion order; the database numbers rows 1, 2, ...
 * in that order, which is the global ID (`gid`). Database faults are part of the service's
 * configuration: a query for a listed symbol fails with the listed error, and inserting a
 * listed trade fails with the listed error.
 */
module TradeServices {
  import opened Wrappers
  import opened Exchanges
  import opened Trades
  import opened Seqs
  import opened Batch

  /** How many stored trades seed the key set of `Sync`. */
  const SyncSeedLimit: nat := 50

  /** The cursor `Sync` starts from when nothing is stored yet. */
  const FirstTradeID := 1

  /** `types.MarginSettings`. */
  datatype MarginSettings = MarginSettings(isMargin: bool, isIsolatedMargin: bool, isolatedMarginSymbol: string)

  /**
   * The exchange as `Sync` sees it: its name, its margin settings when it is a margin exchange,
   * and, when it offers trade history, the answers it gives to successive history requests per symbol.
   */
  datatype Venue = Venue(name: ExchangeName, margin: Option<MarginSettings>, history: Option<map<string, seq<Response>>>)

  /** What the batch query may ask `venue` about `symbol`; an unlisted symbol has no trades. */
  function HistoryOf(venue: Venue, symbol: string): (h: HistorySource)
    ensures h.NoHistory? <==> venue.history.None?
  {
    match venue.history
    case None => NoHistory
    case Some(scripts) => History(if symbol in scripts then scripts[symbol] else [])
  }

  /** The WHERE clause of `QueryLast`. */
  datatype TradeFilter = TradeFilter(exchange: ExchangeName, symbol: string, isMargin: bool, isIsolated: bool)

  predicate Matches(t: Trade, f: TradeFilter) {
    t.exchange == f.exchange && t.symbol == f.symbol && t.isMargin == f.isMargin && t.isIsolated == f.isIsolated
  }

  /**
   * The market `Sync` works on: the exchange's own margin flags (both false for a spot exchange)
   * and, on an isolated-margin exchange, the isolated symbol in place of the one asked for.
   */
  function SyncFilter(venue: Venue, symbol: string): (f: TradeFilter)
    ensures f.exchange == venue.name
    ensures venue.margin.None? ==> f == TradeFilter(venue.name, symbol, false, false)
    ensures venue.margin.Some? ==> f.isMargin == venue.margin.value.isMargin && f.isIsolated == venue.margin.value.isIsolatedMargin
    ensures f.symbol == if venue.margin.Some? && venue.margin.value.isIsolatedMargin then venue.margin.value.isolatedMarginSymbol else symbol
  {
    match venue.margin
    case None => TradeFilter(venue.name, symbol, false, false)
    case Some(m) => TradeFilter(venue.name, if m.isIsolatedMargin then m.isolatedMarginSymbol else symbol, m.isMargin, m.isIsolatedMargin)
  }

  /** Rows are numbered 1, 2, ... in insertion order. */
  predicate GidsSequential(rows: seq<Trade>) {
    forall i :: 0 <= i < |rows| ==> rows[i].gid == i + 1
  }

  /**
   * The `QueryLast` query: the rows matching `f`, newest (highest `gid`) first, at most `limit` of them.
   */
  function LastRecords(rows: seq<Trade>, f: TradeFilter, limit: nat): (r: seq<Trade>)
    ensures |r| <= limit
    ensures forall i :: 0 <= i < |r| ==> Matches(r[i], f) && r[i] in rows
    decreases |rows|
  {
    if rows == [] || limit == 0 then []
    else
      var init, last := rows[..|rows| - 1], rows[|rows| - 1];
      if Matches(last, f) then [last] + LastRecords(init, f, limit - 1) else LastRecords(init, f, limit)
  }

  /** Strictly decreasing global IDs. */
  predicate NewestFirst(r: seq<Trade>) {
    forall i, j :: 0 <= i < j < |r| ==> r[i].gid > r[j].gid
  }

  /** With rows numbered in insertion order, the records come newest first. */
  lemma {:induction false} LastRecordsNewestFirst(rows: seq<Trade>, f: TradeFilter, limit: nat)
    requires GidsSequential(rows)
    ensures NewestFirst(LastRecords(rows, f, limit))
    decreases |rows|
  {
    if rows != [] && limit != 0 {
      var init, last := rows[..|rows| - 1], rows[|rows| - 1];
      assert GidsSequential(init) by {
        forall i | 0 <= i < |init| ensures init[i].gid == i + 1 { assert init[i] == rows[i]; }
      }
      if !Matches(last, f) {
        LastRecordsNewestFirst(init, f, limit);
      } else {
        var rest := LastRecords(init, f, limit - 1);
        LastRecordsNewestFirst(init, f, limit - 1);
        assert last.gid == |rows|;
        forall j | 0 <= j < |rest| ensures rest[j].gid < last.gid {
          var k :| 0 <= k < |init| && init[k] == rest[j];
          assert init[k] == rows[k];
        }
        var r := [last] + rest;
        assert r == LastRecords(rows, f, limit);
        forall i, j | 0 <= i < j < |r| ensures r[i].gid > r[j].gid {
          assert r[j] == rest[j - 1];
          if i > 0 {
            assert r[i] == rest[i - 1];
          } else {
            assert r[i] == last;
          }
        }
      }
    }
  }

  /** The first record is the newest matching row: no later row matches. */
  lemma {:induction false} LastRecordsStartAtNewest(rows: seq<Trade>, f: TradeFilter, limit: nat, k: nat)
    requires k < |rows| && Matches(rows[k], f) && limit > 0
    ensures var r := LastRecords(rows, f, limit);
      r != [] && exists n :: k <= n < |rows| && rows[n] == r[0] && forall m :: n < m < |rows| ==> !Matches(rows[m], f)
    decreases |rows|
  {
    var init, last := rows[..|rows| - 1], rows[|rows| - 1];
    if Matches(last, f) {
      assert rows[|rows| - 1] == LastRecords(rows, f, limit)[0];
    } else {
      assert k < |init| && init[k] == rows[k];
      LastRecordsStartAtNewest(init, f, limit, k);
      var n :| k <= n < |init| && init[n] == LastRecords(init, f, limit)[0] && forall m :: n < m < |init| ==> !Matches(init[m], f);
      assert rows[n] == init[n];
      forall m | n < m < |rows| ensures !Matches(rows[m], f) {
        if m < |init| { assert rows[m] == init[m]; }
      }
    }
  }

  /** Under the limit, every matching row is among the records. */
  lemma {:induction false} LastRecordsComplete(rows: seq<Trade>, f: TradeFilter, limit: nat)
    requires |LastRecords(rows, f, limit)| < limit
    ensures forall t :: t in rows && Matches(t, f) ==> t in LastRecords(rows, f, limit)
    decreases |rows|
  {
    if rows != [] {
      var init, last := rows[..|rows| - 1], rows[|rows| - 1];
      var r := LastRecords(rows, f, limit);
      var lim := if Matches(last, f) then limit - 1 else limit;
      LastRecordsComplete(init, f, lim);
      forall t | t in rows && Matches(t, f) ensures t in r {
        var k :| 0 <= k < |rows| && rows[k] == t;
        if k < |init| {
          assert init[k] == t;
        }
      }
    }
  }

  /** The row the database stores for `t`: numbered `gid`, without strategy or profit, which the insert does not write. */
  function Row(t: Trade, gid: int): (row: Trade)
    ensures row.Key() == t.Key() && row.gid == gid
    ensures row.strategyId.None? && row.pnl.None?
  {
    t.(gid := gid, strategyId := None, pnl := None)
  }

  /** Every column the insert writes keeps the trade's value. */
  lemma {:induction false} RowKeepsInsertedColumns(t: Trade, gid: int)
    ensures Row(t, gid).(gid := t.gid, strategyId := t.strategyId, pnl := t.pnl) == t
  {
  }

  /** The rows stored for `ts` after `count` rows already in the table. */
  function Rows(count: nat, ts: seq<Trade>): (rows: seq<Trade>)
    ensures |rows| == |ts|
    ensures forall i :: 0 <= i < |ts| ==> rows[i] == Row(ts[i], count + i + 1)
  {
    seq(|ts|, i requires 0 <= i < |ts| => Row(ts[i], count + i + 1))
  }

  lemma {:induction false} RowsSnoc(count: nat, ts: seq<Trade>, t: Trade)
    ensures Rows(count, ts + [t]) == Rows(count, ts) + [Row(t, count + |ts| + 1)]
  {
    var a, b := Rows(count, ts + [t]), Rows(count, ts) + [Row(t, count + |ts| + 1)];
    forall i | 0 <= i < |a| ensures a[i] == b[i] {
      if i < |ts| { assert (ts + [t])[i] == ts[i]; }
    }
  }

  /** One more stored row, numbered after the rows before it. */
  lemma {:induction false} StoredRowsSnoc(rows: seq<Trade>, ts: seq<Trade>, t: Trade)
    ensures var before := rows + Rows(|rows|, ts);
      before + [Row(t, |before| + 1)] == rows + Rows(|rows|, ts + [t])
  {
    RowsSnoc(|rows|, ts, t);
    AppendAssoc(rows, Rows(|rows|, ts), [Row(t, |rows| + |ts| + 1)]);
  }

  /** Storing rows keeps the numbering sequential. */
  lemma {:induction false} RowsKeepGids(rows: seq<Trade>, ts: seq<Trade>)
    requires GidsSequential(rows)
    ensures GidsSequential(rows + Rows(|rows|, ts))
  {
    var all := rows + Rows(|rows|, ts);
    forall i | 0 <= i < |all| ensures all[i].gid == i + 1 {
      if i < |rows| { assert all[i] == rows[i]; } else { assert all[i] == Rows(|rows|, ts)[i - |rows|]; }
    }
  }

  /** What the insert loop of `Sync` stored, and the insert error that stopped it, if any. */
  datatype Stored = Stored(inserted: seq<Trade>, err: Option<string>)

  /**
   * The insert loop of `Sync` over the received trades `ts`, with `seed` the keys already stored:
   * a trade whose key is known is skipped, any other one is inserted, and the first failing
   * insert ends the loop with its error.
   */
  function Store(seed: set<TradeKey>, rejects: map<Trade, string>, ts: seq<Trade>): Stored
    decreases |ts|
  {
    if ts == [] then Stored([], None)
    else
      var init, last := ts[..|ts| - 1], ts[|ts| - 1];
      var before := Store(seed, rejects, init);
      if before.err.Some? || last.Key() in seed + KeysOf(init) then before
      else if last in rejects then Stored(before.inserted, Some(rejects[last]))
      else Stored(before.inserted + [last], None)
  }

  /** `Store` one trade further along the loop. */
  lemma {:induction false} StoreStep(seed: set<TradeKey>, rejects: map<Trade, string>, ts: seq<Trade>, i: nat)
    requires i < |ts|
    ensures var before := Store(seed, rejects, ts[..i]);
      Store(seed, rejects, ts[..i + 1]) ==
        if before.err.Some? || ts[i].Key() in seed + KeysOf(ts[..i]) then before
        else if ts[i] in rejects then Stored(before.inserted, Some(rejects[ts[i]]))
        else Stored(before.inserted + [ts[i]], None)
  {
    var prefix := ts[..i + 1];
    assert prefix[..|prefix| - 1] == ts[..i] && prefix[|prefix| - 1] == ts[i];
  }

  /** `StoreStep` as the receiving loop uses it, with the key set it keeps. */
  lemma {:induction false} StoreNewStep(seed: set<TradeKey>, rejects: map<Trade, string>, ts: seq<Trade>, i: nat, keys: set<TradeKey>, inserted: seq<Trade>)
    requires i < |ts| && keys == seed + KeysOf(ts[..i]) && Store(seed, rejects, ts[..i]) == Stored(inserted, None)
    ensures ts[i].Key() in keys ==> keys == seed + KeysOf(ts[..i + 1]) && Store(seed, rejects, ts[..i + 1]) == Stored(inserted, None)
    ensures ts[i].Key() !in keys ==>
      && keys + {ts[i].Key()} == seed + KeysOf(ts[..i + 1])
      && Store(seed, rejects, ts[..i + 1])
           == if ts[i] in rejects then Stored(inserted, Some(rejects[ts[i]])) else Stored(inserted + [ts[i]], None)
  {
    KeysOfPrefix(ts, i);
    StoreStep(seed, rejects, ts, i);
  }

  /** Once an insert failed, later trades change nothing. */
  lemma {:induction false} StoreErrorSticks(seed: set<TradeKey>, rejects: map<Trade, string>, ts: seq<Trade>, i: nat)
    requires i <= |ts| && Store(seed, rejects, ts[..i]).err.Some?
    ensures Store(seed, rejects, ts) == Store(seed, rejects, ts[..i])
    decreases |ts|
  {
    if i == |ts| {
      assert ts[..i] == ts;
    } else {
      var init := ts[..|ts| - 1];
      assert init[..i] == ts[..i];
      StoreErrorSticks(seed, rejects, init, i);
    }
  }

  /**
   * The stored trades are the leading part of the trades with unknown keys (`Novel`), each of
   * them accepted by the database; all of them when no insert failed, and otherwise the next
   * unknown trade is the one whose insert failed, with its error.
   */
  lemma {:induction false} StoreIsNovelPrefix(seed: set<TradeKey>, rejects: map<Trade, string>, ts: seq<Trade>)
    ensures var s := Store(seed, rejects, ts);
      var novel := Novel(seed, ts);
      && |s.inserted| <= |novel| && s.inserted == novel[..|s.inserted|]
      && (forall t :: t in s.inserted ==> t !in rejects)
      && (s.err.None? ==> s.inserted == novel)
      && (s.err.Some? ==> |s.inserted| < |novel| && novel[|s.inserted|] in rejects && s.err == Some(rejects[novel[|s.inserted|]]))
    decreases |ts|
  {
    if ts != [] {
      var init, last := ts[..|ts| - 1], ts[|ts| - 1];
      assert ts == init + [last];
      StoreIsNovelPrefix(seed, rejects, init);
      NovelSnoc(seed, init, last);
      var before := Store(seed, rejects, init);
      var novel0 := Novel(seed, init);
      var novel := Novel(seed, ts);
      assert novel[..|novel0|] == novel0;
      if before.err.Some? {
        assert novel[..|before.inserted|] == novel0[..|before.inserted|];
        assert novel[|before.inserted|] == novel0[|before.inserted|];
      } else if last.Key() !in seed + KeysOf(init) && last !in rejects {
        assert novel[..|novel|] == novel;
      }
    }
  }

  /** No insert fails when the database accepts every received trade. */
  lemma {:induction false} StoreWithoutFaults(seed: set<TradeKey>, rejects: map<Trade, string>, ts: seq<Trade>)
    requires forall t :: t in ts ==> t !in rejects
    ensures Store(seed, rejects, ts) == Stored(Novel(seed, ts), None)
  {
    StoreIsNovelPrefix(seed, rejects, ts);
    var s := Store(seed, rejects, ts);
    if s.err.Some? {
      var novel := Novel(seed, ts);
      NovelSubsequence(seed, ts);
      SubsequenceElements(novel, ts);
    }
  }

  /** The stored trades have pairwise-distinct keys, none of them known before. */
  lemma {:induction false} StoreDistinctUnseen(seed: set<TradeKey>, rejects: map<Trade, string>, ts: seq<Trade>)
    ensures var s := Store(seed, rejects, ts);
      DistinctKeys(s.inserted) && KeysOf(s.inserted) !! seed
  {
    StoreIsNovelPrefix(seed, rejects, ts);
    var s := Store(seed, rejects, ts);
    var novel := Novel(seed, ts);
    NovelDistinct(seed, ts);
    NovelKeys(seed, ts);
    var n := |s.inserted|;
    forall i, j | 0 <= i < j < n ensures s.inserted[i].Key() != s.inserted[j].Key() {
      assert s.inserted[i] == novel[i] && s.inserted[j] == novel[j];
    }
    forall k | k in KeysOf(s.inserted) ensures k !in seed {
      var i :| 0 <= i < n && s.inserted[i].Key() == k;
      assert s.inserted[i] == novel[i];
      assert novel[i].Key() in KeysOf(novel);
    }
  }

  /** The stored trades keep the order they arrived in. */
  lemma {:induction false} StoreInOrder(seed: set<TradeKey>, rejects: map<Trade, string>, ts: seq<Trade>)
    ensures IsSubsequence(Store(seed, rejects, ts).inserted, ts)
  {
    StoreIsNovelPrefix(seed, rejects, ts);
    var s := Store(seed, rejects, ts);
    var novel := Novel(seed, ts);
    NovelSubsequence(seed, ts);
    var n := |s.inserted|;
    assert novel == s.inserted + novel[n..];
    PrefixSubsequence(s.inserted, novel[n..]);
    SubsequenceTransitive(s.inserted, novel, ts);
  }

  /** When every received key is already known, nothing is stored and no insert is tried. */
  lemma {:induction false} StoreKnownKeys(seed: set<TradeKey>, rejects: map<Trade, string>, ts: seq<Trade>)
    requires KeysOf(ts) <= seed
    ensures Store(seed, rejects, ts) == Stored([], None)
  {
    StoreIsNovelPrefix(seed, rejects, ts);
    NovelOfSeen(seed, ts);
  }

  /** The cursor `Sync` hands to the batch query: the newest stored trade's ID, or the first trade ID. */
  function StartCursor(records: seq<Trade>): int {
    if records == [] then FirstTradeID else records[0].id
  }

  /** The `QueryLast` error as `errors.Wrap` words it. */
  function QueryLastError(e: string): string {
    "query last trade error: " + e
  }

  /**
   * `TradeService.Sync` with every received trade handled before the batch error is looked at:
   * a failing `QueryLast` ends it with that error; otherwise the trades the batch query emits
   * from the start cursor are stored as `Store` says, and the result is the insert error, or
   * else the batch query's error. An exchange without trade history stores nothing and
   * succeeds (the corrected behaviour, see `SyncOutcomeAsWritten`).
   */
  function SyncOutcome(rows: seq<Trade>, queryFailures: map<string, string>, rejects: map<Trade, string>, venue: Venue, symbol: string): Stored
  {
    var f := SyncFilter(venue, symbol);
    if f.symbol in queryFailures then Stored([], Some(QueryLastError(queryFailures[f.symbol])))
    else
      var records := LastRecords(rows, f, SyncSeedLimit);
      match HistoryOf(venue, f.symbol)
      case NoHistory => Stored([], None)
      case History(rs) =>
        var pulled := Pull({}, StartCursor(records), rs);
        var s := Store(KeysOf(records), rejects, pulled.trades);
        if s.err.Some? then s else Stored(s.inserted, pulled.err)
  }

  /**
   * `Sync` as written: on an exchange without trade history the batch query hands back channels
   * it never closes, so the range over the trade channel never ends and `Sync` never returns
   * (`None`). Every other case returns what `SyncOutcome` says.
   */
  function SyncOutcomeAsWritten(rows: seq<Trade>, queryFailures: map<string, string>, rejects: map<Trade, string>, venue: Venue, symbol: string): Option<Stored>
  {
    var f := SyncFilter(venue, symbol);
    if f.symbol !in queryFailures && HistoryOf(venue, f.symbol).NoHistory? then None
    else Some(SyncOutcome(rows, queryFailures, rejects, venue, symbol))
  }

  /** Without trade history and with a working database, `Sync` as written never returns; corrected, it stores nothing and succeeds. */
  lemma {:induction false} SyncWithoutHistory(rows: seq<Trade>, queryFailures: map<string, string>, rejects: map<Trade, string>, venue: Venue, symbol: string)
    requires venue.history.None? && SyncFilter(venue, symbol).symbol !in queryFailures
    ensures SyncOutcomeAsWritten(rows, queryFailures, rejects, venue, symbol).None?
    ensures SyncOutcome(rows, queryFailures, rejects, venue, symbol) == Stored([], None)
  {
  }

  /**
   * The trades `Sync` stores have pairwise-distinct keys, none of them among the keys of the
   * stored trades it was seeded with, and they arrive in the order the exchange delivered them.
   */
  lemma {:induction false} SyncStoresNewTradesInOrder(rows: seq<Trade>, queryFailures: map<string, string>, rejects: map<Trade, string>, venue: Venue, symbol: string)
    ensures var f := SyncFilter(venue, symbol);
      var s := SyncOutcome(rows, queryFailures, rejects, venue, symbol);
      && DistinctKeys(s.inserted)
      && KeysOf(s.inserted) !! KeysOf(LastRecords(rows, f, SyncSeedLimit))
      && IsSubsequence(s.inserted, Delivered(if HistoryOf(venue, f.symbol).History? then HistoryOf(venue, f.symbol).responses else []))
  {
    var f := SyncFilter(venue, symbol);
    var s := SyncOutcome(rows, queryFailures, rejects, venue, symbol);
    var h := HistoryOf(venue, f.symbol);
    var rs := if h.History? then h.responses else [];
    if f.symbol !in queryFailures && h.History? {
      var records := LastRecords(rows, f, SyncSeedLimit);
      var pulled := Pull({}, StartCursor(records), rs);
      StoreDistinctUnseen(KeysOf(records), rejects, pulled.trades);
      StoreInOrder(KeysOf(records), rejects, pulled.trades);
      PullSubsequence({}, StartCursor(records), rs);
      SubsequenceTransitive(s.inserted, pulled.trades, Delivered(rs));
    } else {
      SubsequenceOfEmpty(Delivered(rs));
    }
  }

  /**
   * A failing insert ends `Sync` with that insert's error: the trades stored before it are the
   * unknown ones ahead of it, and nothing after it is stored.
   */
  lemma {:induction false} SyncStopsAtFailedInsert(rows: seq<Trade>, queryFailures: map<string, string>, rejects: map<Trade, string>, venue: Venue, symbol: string)
    requires var f := SyncFilter(venue, symbol); f.symbol !in queryFailures && HistoryOf(venue, f.symbol).History?
    ensures var f := SyncFilter(venue, symbol);
      var records := LastRecords(rows, f, SyncSeedLimit);
      var pulled := Pull({}, StartCursor(records), HistoryOf(venue, f.symbol).responses);
      var novel := Novel(KeysOf(records), pulled.trades);
      var s := SyncOutcome(rows, queryFailures, rejects, venue, symbol);
      && |s.inserted| <= |novel| && s.inserted == novel[..|s.inserted|]
      && (Store(KeysOf(records), rejects, pulled.trades).err.Some? ==>
            |s.inserted| < |novel| && novel[|s.inserted|] in rejects && s.err == Some(rejects[novel[|s.inserted|]]))
      && (Store(KeysOf(records), rejects, pulled.trades).err.None? ==> s.inserted == novel && s.err == pulled.err)
  {
    var f := SyncFilter(venue, symbol);
    var records := LastRecords(rows, f, SyncSeedLimit);
    var pulled := Pull({}, StartCursor(records), HistoryOf(venue, f.symbol).responses);
    StoreIsNovelPrefix(KeysOf(records), rejects, pulled.trades);
  }

  /** When every trade the batch query emits is already among the seed, `Sync` stores nothing. */
  lemma {:induction false} SyncIdempotent(rows: seq<Trade>, queryFailures: map<string, string>, rejects: map<Trade, string>, venue: Venue, symbol: string)
    requires var f := SyncFilter(venue, symbol);
      var records := LastRecords(rows, f, SyncSeedLimit);
      f.symbol !in queryFailures && HistoryOf(venue, f.symbol).History?
      && KeysOf(Pull({}, StartCursor(records), HistoryOf(venue, f.symbol).responses).trades) <= KeysOf(records)
    ensures SyncOutcome(rows, queryFailures, rejects, venue, symbol).inserted == []
  {
    var f := SyncFilter(venue, symbol);
    var records := LastRecords(rows, f, SyncSeedLimit);
    StoreKnownKeys(KeysOf(records), rejects, Pull({}, StartCursor(records), HistoryOf(venue, f.symbol).responses).trades);
  }

  /**
   * On an isolated-margin exchange `Sync` reads and requests the isolated symbol whatever symbol
   * it was asked for: two calls with different symbols do the same thing.
   */
  lemma {:induction false} SyncIsolatedSymbol(rows: seq<Trade>, queryFailures: map<string, string>, rejects: map<Trade, string>, venue: Venue, a: string, b: string)
    requires venue.margin.Some? && venue.margin.value.isIsolatedMargin
    ensures SyncFilter(venue, a).symbol == venue.margin.value.isolatedMarginSymbol
    ensures SyncOutcome(rows, queryFailures, rejects, venue, a) == SyncOutcome(rows, queryFailures, rejects, venue, b)
  {
    assert SyncFilter(venue, a) == SyncFilter(venue, b);
  }

  /** `TradeService`: the trades table and the database's faults. */
  class TradeService {
    var rows: seq<Trade>
    const queryFailures: map<string, string>
    const insertFailures: map<Trade, string>

    constructor (rows: seq<Trade>, queryFailures: map<string, string>, insertFailures: map<Trade, string>)
      ensures this.rows == rows && this.queryFailures == queryFailures && this.insertFailures == insertFailures
    {
      this.rows := rows;
      this.queryFailures := queryFailures;
      this.insertFailures := insertFailures;
    }

    /**
     * `TradeService.QueryLast`: the newest stored trades of the market, at most `limit`, or the
     * wrapped database error.
     */
    method QueryLast(ex: ExchangeName, symbol: string, isMargin: bool, isIsolated: bool, limit: nat)
      returns (records: seq<Trade>, err: Option<string>)
      ensures symbol in queryFailures ==> records == [] && err == Some(QueryLastError(queryFailures[symbol]))
      ensures symbol !in queryFailures ==> records == LastRecords(rows, TradeFilter(ex, symbol, isMargin, isIsolated), limit) && err == None
    {
      if symbol in queryFailures {
        return [], Some(QueryLastError(queryFailures[symbol]));
      }
      records, err := LastRecords(rows, TradeFilter(ex, symbol, isMargin, isIsolated), limit), None;
    }

    /** `TradeService.Insert`: the row is added with the next global ID, or the database's error is returned. */
    method Insert(trade: Trade) returns (err: Option<string>)
      modifies this
      ensures trade in insertFailures ==> err == Some(insertFailures[trade]) && rows == old(rows)
      ensures trade !in insertFailures ==> err == None && rows == old(rows) + [Row(trade, |old(rows)| + 1)]
    {
      if trade in insertFailures {
        return Some(insertFailures[trade]);
      }
      rows := rows + [Row(trade, |rows| + 1)];
      err := None;
    }

    /** `Insert` of the next received trade, with the rows stored so far written as `Rows`. */
    method InsertAfter(trade: Trade, ghost rows0: seq<Trade>, ghost inserted: seq<Trade>) returns (err: Option<string>)
      requires rows == rows0 + Rows(|rows0|, inserted)
      modifies this
      ensures err == if trade in insertFailures then Some(insertFailures[trade]) else None
      ensures rows == rows0 + Rows(|rows0|, if err.None? then inserted + [trade] else inserted)
    {
      err := Insert(trade);
      if err.None? {
        StoredRowsSnoc(rows0, inserted, trade);
      }
    }

    /** The seeding loop of `Sync`: the keys of the stored trades and the cursor to start from. */
    method Seed(records: seq<Trade>) returns (tradeKeys: set<TradeKey>, lastTradeID: int)
      ensures tradeKeys == KeysOf(records) && lastTradeID == StartCursor(records)
    {
      tradeKeys, lastTradeID := {}, FirstTradeID;
      if |records| > 0 {
        var i := 0;
        while i < |records|
          invariant 0 <= i <= |records|
          invariant tradeKeys == KeysOf(records[..i])
        {
          KeysOfPrefix(records, i);
          tradeKeys := tradeKeys + {records[i].Key()};
          i := i + 1;
        }
        assert records[..|records|] == records;
        lastTradeID := records[0].id;
      }
    }

    /** The receiving loop of `Sync`: skip known keys, record and insert the rest, stop at the first failing insert. */
    method StoreNew(trades: seq<Trade>, seed: set<TradeKey>) returns (err: Option<string>)
      modifies this
      ensures var s := Store(seed, insertFailures, trades);
        rows == old(rows) + Rows(|old(rows)|, s.inserted) && err == s.err
    {
      var tradeKeys := seed;
      ghost var rows0 := rows;
      ghost var inserted: seq<Trade> := [];
      var i := 0;
      while i < |trades|
        invariant 0 <= i <= |trades|
        invariant tradeKeys == seed + KeysOf(trades[..i])
        invariant Store(seed, insertFailures, trades[..i]) == Stored(inserted, None)
        invariant rows == rows0 + Rows(|rows0|, inserted)
      {
        var trade := trades[i];
        var key := trade.Key();
        StoreNewStep(seed, insertFailures, trades, i, tradeKeys, inserted);
        if key !in tradeKeys {
          tradeKeys := tradeKeys + {key};
          err := InsertAfter(trade, rows0, inserted);
          if err.Some? {
            StoreErrorSticks(seed, insertFailures, trades, i + 1);
            return;
          }
          inserted := inserted + [trade];
        }
        i := i + 1;
      }
      assert trades[..|trades|] == trades;
      err := None;
    }

    /**
     * `TradeService.Sync`: the table grows by the rows `SyncOutcome` stores and the result is its
     * error; the numbering of the rows stays sequential.
     */
    method Sync(venue: Venue, symbol: string) returns (err: Option<string>)
      modifies this
      ensures var s := SyncOutcome(old(rows), queryFailures, insertFailures, venue, symbol);
        rows == old(rows) + Rows(|old(rows)|, s.inserted) && err == s.err
      ensures GidsSequential(old(rows)) ==> GidsSequential(rows)
    {
      var isMargin, isIsolated := false, false;
      var target := symbol;
      if venue.margin.Some? {
        var marginSettings := venue.margin.value;
        isMargin := marginSettings.isMargin;
        isIsolated := marginSettings.isIsolatedMargin;
        if marginSettings.isIsolatedMargin {
          target := marginSettings.isolatedMarginSymbol;
        }
      }
      ghost var f := TradeFilter(venue.name, target, isMargin, isIsolated);
      assert f == SyncFilter(venue, symbol);
      ghost var rows0 := rows;

      var records, queryErr := QueryLast(venue.name, target, isMargin, isIsolated, SyncSeedLimit);
      if queryErr.Some? {
        assert rows == rows0 + Rows(|rows0|, []);
        return queryErr;
      }
      var tradeKeys, lastTradeID := Seed(records);

      var source := HistoryOf(venue, target);
      var trades, requests, batchErr := Query(source, lastTradeID);
      err := StoreNew(trades, tradeKeys);
      if err.None? {
        err := batchErr;
      }
      if GidsSequential(rows0) {
        RowsKeepGids(rows0, SyncOutcome(rows0, queryFailures, insertFailures, venue, symbol).inserted);
      }
    }
  }
}
