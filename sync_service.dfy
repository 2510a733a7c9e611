/**
 * `SyncService` of `pkg/service/sync.go`: syncing the trades of several symbols one after the
 * other through the trade service, stopping at the first symbol that fails.
 */
module SyncServices {
  import opened Wrappers
  import opened Trades
  import opened TradeServices

  /** The table after one `Sync` of `symbol`, and its error. */
  function SyncOnce(rows: seq<Trade>, queryFailures: map<string, string>, rejects: map<Trade, string>, venue: Venue, symbol: string): (seq<Trade>, Option<string>)
  {
    var s := SyncOutcome(rows, queryFailures, rejects, venue, symbol);
    (rows + Rows(|rows|, s.inserted), s.err)
  }

  /** The symbols synced in order from `rows`, stopping after the first one that fails. */
  function SyncAll(rows: seq<Trade>, queryFailures: map<string, string>, rejects: map<Trade, string>, venue: Venue, symbols: seq<string>): (r: (seq<Trade>, Option<string>))
    ensures symbols == [] ==> r == (rows, None)
    decreases |symbols|
  {
    if symbols == [] then (rows, None)
    else
      var once := SyncOnce(rows, queryFailures, rejects, venue, symbols[0]);
      if once.1.Some? then once else SyncAll(once.0, queryFailures, rejects, venue, symbols[1..])
  }

  /**
   * Syncing `a + b` is syncing `a` and then, unless it failed, `b` from the table `a` left:
   * the symbols are synced in the given order.
   */
  lemma {:induction false} SyncAllAppend(rows: seq<Trade>, queryFailures: map<string, string>, rejects: map<Trade, string>, venue: Venue, a: seq<string>, b: seq<string>)
    ensures var first := SyncAll(rows, queryFailures, rejects, venue, a);
      SyncAll(rows, queryFailures, rejects, venue, a + b)
        == if first.1.Some? then first else SyncAll(first.0, queryFailures, rejects, venue, b)
    decreases |a|
  {
    if a == [] {
      assert a + b == b;
    } else {
      assert (a + b)[0] == a[0] && (a + b)[1..] == a[1..] + b;
      var once := SyncOnce(rows, queryFailures, rejects, venue, a[0]);
      if once.1.None? {
        SyncAllAppend(once.0, queryFailures, rejects, venue, a[1..], b);
      }
    }
  }

  /**
   * When the symbols before `symbols[j]` all succeed and `symbols[j]` fails, its error is the
   * result and no later symbol is synced.
   */
  lemma {:induction false} SyncAllFirstError(rows: seq<Trade>, queryFailures: map<string, string>, rejects: map<Trade, string>, venue: Venue, symbols: seq<string>, j: nat)
    requires j < |symbols|
    requires SyncAll(rows, queryFailures, rejects, venue, symbols[..j]).1.None?
    requires SyncOnce(SyncAll(rows, queryFailures, rejects, venue, symbols[..j]).0, queryFailures, rejects, venue, symbols[j]).1.Some?
    ensures SyncAll(rows, queryFailures, rejects, venue, symbols)
      == SyncOnce(SyncAll(rows, queryFailures, rejects, venue, symbols[..j]).0, queryFailures, rejects, venue, symbols[j])
  {
    var before := SyncAll(rows, queryFailures, rejects, venue, symbols[..j]);
    assert symbols == symbols[..j] + symbols[j..];
    SyncAllAppend(rows, queryFailures, rejects, venue, symbols[..j], symbols[j..]);
    assert symbols[j..][0] == symbols[j];
  }

  /** The result is no error exactly when every symbol, synced in turn, succeeds. */
  lemma {:induction false} SyncAllSucceeds(rows: seq<Trade>, queryFailures: map<string, string>, rejects: map<Trade, string>, venue: Venue, symbols: seq<string>)
    ensures SyncAll(rows, queryFailures, rejects, venue, symbols).1.None?
      <==> forall j :: 0 <= j < |symbols| ==>
             SyncOnce(SyncAll(rows, queryFailures, rejects, venue, symbols[..j]).0, queryFailures, rejects, venue, symbols[j]).1.None?
    decreases |symbols|
  {
    if symbols != [] {
      var once := SyncOnce(rows, queryFailures, rejects, venue, symbols[0]);
      assert symbols[..0] == [];
      if once.1.None? {
        var rest := symbols[1..];
        SyncAllSucceeds(once.0, queryFailures, rejects, venue, rest);
        forall j | 1 <= j < |symbols|
          ensures SyncAll(rows, queryFailures, rejects, venue, symbols[..j]) == SyncAll(once.0, queryFailures, rejects, venue, rest[..j - 1])
          ensures symbols[j] == rest[j - 1]
        {
          SyncAllShift(rows, queryFailures, rejects, venue, symbols, j);
        }
      }
    }
  }

  /** After a first symbol that succeeds, a prefix syncs like the rest of it from the table it left. */
  lemma {:induction false} SyncAllShift(rows: seq<Trade>, queryFailures: map<string, string>, rejects: map<Trade, string>, venue: Venue, symbols: seq<string>, j: nat)
    requires 1 <= j <= |symbols|
    requires SyncOnce(rows, queryFailures, rejects, venue, symbols[0]).1.None?
    ensures SyncAll(rows, queryFailures, rejects, venue, symbols[..j])
      == SyncAll(SyncOnce(rows, queryFailures, rejects, venue, symbols[0]).0, queryFailures, rejects, venue, symbols[1..][..j - 1])
  {
    assert symbols[..j][0] == symbols[0] && symbols[..j][1..] == symbols[1..][..j - 1];
  }

  /** `SyncService`: the trade service it syncs through. */
  class SyncService {
    var tradeService: TradeService

    constructor (tradeService: TradeService)
      ensures this.tradeService == tradeService
    {
      this.tradeService := tradeService;
    }

    /**
     * `SyncService.SyncSessionSymbols`: `Sync` for each symbol in order, returning the first
     * error. The start time is accepted and not used.
     */
    method SyncSessionSymbols(venue: Venue, startTime: int, symbols: seq<string>) returns (err: Option<string>)
      modifies tradeService
      ensures (tradeService.rows, err)
        == SyncAll(old(tradeService.rows), tradeService.queryFailures, tradeService.insertFailures, venue, symbols)
    {
      var service := tradeService;
      ghost var target := SyncAll(service.rows, service.queryFailures, service.insertFailures, venue, symbols);
      var i := 0;
      while i < |symbols|
        invariant 0 <= i <= |symbols|
        invariant SyncAll(service.rows, service.queryFailures, service.insertFailures, venue, symbols[i..]) == target
      {
        assert symbols[i..][0] == symbols[i] && symbols[i..][1..] == symbols[i + 1..];
        err := service.Sync(venue, symbols[i]);
        if err.Some? {
          return;
        }
        i := i + 1;
      }
      err := None;
    }
  }
}
