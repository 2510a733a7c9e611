/**
 * `pkg/exchange/batch/batch.go`: paging through an exchange's trade history by trade-ID cursor,
 * dropping trades already seen. The venue is a script of answers, one per request, in order;
 * the rate limiter, the goroutine and the channels are replaced by a sequential loop whose
 * emitted trades, request cursors and error are returned together.
 */
module Batch {
  import opened Wrappers
  import opened Trades
  import opened Seqs
  import opened Sides

  /** One answer to a trade-history request: a page of trades or an error. */
  datatype Response = Page(trades: seq<Trade>) | Failure(err: string)

  /**
   * What an exchange offers: no trade-history capability at all, or the answers it will give
   * to successive requests. Once the script runs out the venue answers with empty pages.
   */
  datatype HistorySource = NoHistory | History(responses: seq<Response>)

  lemma {:induction false} KeysOfSnoc(ts: seq<Trade>, t: Trade)
    ensures KeysOf(ts + [t]) == KeysOf(ts) + {t.Key()}
  {
    var both := ts + [t];
    forall k | k in KeysOf(both) ensures k in KeysOf(ts) + {t.Key()} {
      var i :| 0 <= i < |both| && both[i].Key() == k;
      if i < |ts| { assert both[i] == ts[i]; }
    }
    forall k | k in KeysOf(ts) + {t.Key()} ensures k in KeysOf(both) {
      if k != t.Key() {
        var i :| 0 <= i < |ts| && ts[i].Key() == k;
        assert both[i] == ts[i];
      } else {
        assert both[|ts|] == t;
      }
    }
  }

  /**
   * The trades of `ts` a consumer passes on when it skips every trade whose key it has seen,
   * counting `seen` and the keys of the trades before it in `ts`.
   */
  function Novel(seen: set<TradeKey>, ts: seq<Trade>): seq<Trade>
    decreases |ts|
  {
    if ts == [] then []
    else
      var init, last := ts[..|ts| - 1], ts[|ts| - 1];
      if last.Key() in seen + KeysOf(init) then Novel(seen, init) else Novel(seen, init) + [last]
  }

  /** One more trade is passed on exactly when its key is new. */
  lemma {:induction false} NovelSnoc(seen: set<TradeKey>, ts: seq<Trade>, t: Trade)
    ensures Novel(seen, ts + [t]) == if t.Key() in seen + KeysOf(ts) then Novel(seen, ts) else Novel(seen, ts) + [t]
  {
    var both := ts + [t];
    assert both[..|both| - 1] == ts && both[|both| - 1] == t;
  }

  /** `KeysOfSnoc` for the prefixes a loop walks through. */
  lemma {:induction false} KeysOfPrefix(ts: seq<Trade>, i: nat)
    requires i < |ts|
    ensures KeysOf(ts[..i + 1]) == KeysOf(ts[..i]) + {ts[i].Key()}
  {
    assert ts[..i + 1] == ts[..i] + [ts[i]];
    KeysOfSnoc(ts[..i], ts[i]);
  }

  /** `NovelSnoc` and `KeysOfSnoc` for the prefixes a loop walks through. */
  lemma {:induction false} PrefixStep(seen: set<TradeKey>, ts: seq<Trade>, i: nat)
    requires i < |ts|
    ensures KeysOf(ts[..i + 1]) == KeysOf(ts[..i]) + {ts[i].Key()}
    ensures Novel(seen, ts[..i + 1]) == if ts[i].Key() in seen + KeysOf(ts[..i]) then Novel(seen, ts[..i]) else Novel(seen, ts[..i]) + [ts[i]]
  {
    assert ts[..i + 1] == ts[..i] + [ts[i]];
    KeysOfPrefix(ts, i);
    NovelSnoc(seen, ts[..i], ts[i]);
  }

  /** The passed-on trades carry exactly the keys of `ts` that were not seen before. */
  lemma {:induction false} NovelKeys(seen: set<TradeKey>, ts: seq<Trade>)
    ensures KeysOf(Novel(seen, ts)) == KeysOf(ts) - seen
    decreases |ts|
  {
    if ts != [] {
      var init, last := ts[..|ts| - 1], ts[|ts| - 1];
      assert ts == init + [last];
      NovelKeys(seen, init);
      KeysOfSnoc(init, last);
      if last.Key() !in seen + KeysOf(init) {
        KeysOfSnoc(Novel(seen, init), last);
      }
    }
  }

  /** The passed-on trades have pairwise-distinct keys. */
  lemma {:induction false} NovelDistinct(seen: set<TradeKey>, ts: seq<Trade>)
    ensures DistinctKeys(Novel(seen, ts))
    decreases |ts|
  {
    if ts != [] {
      var init, last := ts[..|ts| - 1], ts[|ts| - 1];
      NovelDistinct(seen, init);
      if last.Key() !in seen + KeysOf(init) {
        NovelKeys(seen, init);
        var r := Novel(seen, init);
        assert forall i :: 0 <= i < |r| ==> r[i].Key() in KeysOf(r);
      }
    }
  }

  /** The passed-on trades keep their order in `ts`. */
  lemma {:induction false} NovelSubsequence(seen: set<TradeKey>, ts: seq<Trade>)
    ensures IsSubsequence(Novel(seen, ts), ts)
    decreases |ts|
  {
    if ts == [] {
      SubsequenceOfEmpty(ts);
    } else {
      var init, last := ts[..|ts| - 1], ts[|ts| - 1];
      assert ts == init + [last];
      NovelSubsequence(seen, init);
      if last.Key() in seen + KeysOf(init) {
        SubsequenceOfEmpty([last]);
        SubsequenceAppend(Novel(seen, init), init, [], [last]);
        assert Novel(seen, init) + [] == Novel(seen, init);
      } else {
        SubsequenceReflexive([last]);
        SubsequenceAppend(Novel(seen, init), init, [last], [last]);
      }
    }
  }

  /** Trades whose keys were all seen pass nothing on. */
  lemma {:induction false} NovelOfSeen(seen: set<TradeKey>, ts: seq<Trade>)
    requires KeysOf(ts) <= seen
    ensures Novel(seen, ts) == []
  {
    NovelKeys(seen, ts);
    KeysOfEmpty(Novel(seen, ts));
  }

  /** Only the empty sequence has no keys. */
  lemma {:induction false} KeysOfEmpty(ts: seq<Trade>)
    ensures KeysOf(ts) == {} ==> ts == []
  {
    if ts != [] {
      assert ts[0].Key() in KeysOf(ts);
    }
  }

  /** Keys are distinct within each part and disjoint across the parts. */
  lemma {:induction false} DistinctAppend(a: seq<Trade>, b: seq<Trade>)
    requires DistinctKeys(a) && DistinctKeys(b) && KeysOf(a) !! KeysOf(b)
    ensures DistinctKeys(a + b)
  {
    var ab := a + b;
    forall i, j | 0 <= i < j < |ab| ensures ab[i].Key() != ab[j].Key() {
      if j < |a| {
        assert ab[i] == a[i] && ab[j] == a[j];
      } else if |a| <= i {
        assert ab[i] == b[i - |a|] && ab[j] == b[j - |a|];
      } else {
        assert ab[i] == a[i] && ab[j] == b[j - |a|];
        assert a[i].Key() in KeysOf(a) && b[j - |a|].Key() in KeysOf(b);
      }
    }
  }

  /** The cursor after passing on `ts`: the last passed-on trade's ID, or `cursor` unchanged. */
  function LastIdOr(cursor: int, ts: seq<Trade>): int {
    if ts == [] then cursor else ts[|ts| - 1].id
  }

  /** What a query produced: the emitted trades, the cursor of every request made, and the error. */
  datatype Pulled = Pulled(trades: seq<Trade>, requests: seq<int>, err: Option<string>)

  /**
   * Whether a page ends the query: an empty page, a page of one trade already emitted, or (the
   * correction recorded under `PullAsWritten`) a page of trades that were all emitted before.
   */
  predicate Stops(seen: set<TradeKey>, ts: seq<Trade>) {
    |ts| == 0 || (|ts| == 1 && ts[0].Key() in seen) || KeysOf(ts) <= seen
  }

  /**
   * The paging loop of `TradeBatchQuery.Query` from request cursor `cursor` with the keys `seen`
   * already emitted: an error ends it with that error, a page that `Stops` (or a used-up script)
   * ends it quietly, and any other page emits its unseen trades and moves the cursor to the last
   * of them.
   */
  function Pull(seen: set<TradeKey>, cursor: int, rs: seq<Response>): (p: Pulled)
    ensures 1 <= |p.requests| <= |rs| + 1 && p.requests[0] == cursor
    decreases |rs|
  {
    if rs == [] then Pulled([], [cursor], None)
    else match rs[0]
      case Failure(e) => Pulled([], [cursor], Some(e))
      case Page(ts) =>
        if Stops(seen, ts) then Pulled([], [cursor], None)
        else
          var novel := Novel(seen, ts);
          var rest := Pull(seen + KeysOf(ts), LastIdOr(cursor, novel), rs[1..]);
          Pulled(novel + rest.trades, [cursor] + rest.requests, rest.err)
  }

  /**
   * The paging loop exactly as `TradeBatchQuery.Query` writes it: only an empty page or a page of
   * one already-emitted trade ends it quietly. A page of two or more trades that were all emitted
   * before emits nothing and leaves the cursor where it was, so the same request is made again.
   */
  function PullAsWritten(seen: set<TradeKey>, cursor: int, rs: seq<Response>): (p: Pulled)
    ensures 1 <= |p.requests| <= |rs| + 1 && p.requests[0] == cursor
    decreases |rs|
  {
    if rs == [] then Pulled([], [cursor], None)
    else match rs[0]
      case Failure(e) => Pulled([], [cursor], Some(e))
      case Page(ts) =>
        if |ts| == 0 || (|ts| == 1 && ts[0].Key() in seen) then Pulled([], [cursor], None)
        else
          var novel := Novel(seen, ts);
          var rest := PullAsWritten(seen + KeysOf(ts), LastIdOr(cursor, novel), rs[1..]);
          Pulled(novel + rest.trades, [cursor] + rest.requests, rest.err)
  }

  /**
   * As written, a page of two or more trades all emitted before is asked for again and again from
   * the same cursor: answered alike `n` times, the query makes `n + 1` requests, all from
   * `cursor`, emits nothing and has not ended when the answers run out.
   */
  lemma {:induction false} PullAsWrittenStalls(seen: set<TradeKey>, cursor: int, ts: seq<Trade>, n: nat)
    requires |ts| >= 2 && KeysOf(ts) <= seen
    ensures PullAsWritten(seen, cursor, seq(n, _ => Page(ts))) == Pulled([], seq(n + 1, _ => cursor), None)
    decreases n
  {
    var rs := seq(n, _ => Page(ts));
    if n > 0 {
      NovelOfSeen(seen, ts);
      assert seen + KeysOf(ts) == seen;
      assert rs[0] == Page(ts) && rs[1..] == seq(n - 1, _ => Page(ts));
      PullAsWrittenStalls(seen, cursor, ts, n - 1);
      assert [cursor] + seq(n, _ => cursor) == seq(n + 1, _ => cursor);
    }
  }

  /** Corrected, a page of trades that were all emitted before ends the query, whatever would follow. */
  lemma {:induction false} PullStopsOnStalePage(seen: set<TradeKey>, cursor: int, ts: seq<Trade>, rs: seq<Response>)
    requires KeysOf(ts) <= seen
    ensures Pull(seen, cursor, [Page(ts)] + rs) == Pulled([], [cursor], None)
  {
    assert ([Page(ts)] + rs)[0] == Page(ts);
  }

  /**
   * The input that shows the stall: a self-trade reported once as a buy and once as a sell under
   * one ID `x`, and a venue that answers every request from `x` with that pair. From cursor `x` the
   * pair is emitted once; as written every later request is again from `x`, while the corrected
   * query ends after the second request.
   */
  lemma {:induction false} SelfTradeStalls(x: Trade, n: nat)
    ensures var pair := [x.(side := Buy), x.(side := Sell)];
      && PullAsWritten({}, x.id, seq(n + 1, _ => Page(pair))) == Pulled(pair, seq(n + 2, _ => x.id), None)
      && Pull({}, x.id, seq(n + 1, _ => Page(pair))) == Pulled(pair, [x.id, x.id], None)
  {
    SelfTradeAsWritten(x, n);
    SelfTradeCorrected(x, n);
  }

  /** The as-written half of `SelfTradeStalls`. */
  lemma {:induction false} SelfTradeAsWritten(x: Trade, n: nat)
    ensures var pair := [x.(side := Buy), x.(side := Sell)];
      PullAsWritten({}, x.id, seq(n + 1, _ => Page(pair))) == Pulled(pair, seq(n + 2, _ => x.id), None)
  {
    var pair := [x.(side := Buy), x.(side := Sell)];
    var rs := seq(n + 1, _ => Page(pair));
    SelfTradePair(x);
    assert rs[0] == Page(pair) && rs[1..] == seq(n, _ => Page(pair));
    assert {} + KeysOf(pair) == KeysOf(pair);
    PullAsWrittenStalls(KeysOf(pair), x.id, pair, n);
    var rest := PullAsWritten(KeysOf(pair), x.id, rs[1..]);
    assert PullAsWritten({}, x.id, rs) == Pulled(pair + rest.trades, [x.id] + rest.requests, rest.err);
    assert [x.id] + seq(n + 1, _ => x.id) == seq(n + 2, _ => x.id);
  }

  /** The corrected half of `SelfTradeStalls`. */
  lemma {:induction false} SelfTradeCorrected(x: Trade, n: nat)
    ensures var pair := [x.(side := Buy), x.(side := Sell)];
      Pull({}, x.id, seq(n + 1, _ => Page(pair))) == Pulled(pair, [x.id, x.id], None)
  {
    var pair := [x.(side := Buy), x.(side := Sell)];
    var rs := seq(n + 1, _ => Page(pair));
    SelfTradePair(x);
    assert rs[0] == Page(pair);
    if n == 0 {
      assert rs[1..] == [];
    } else {
      assert rs[1..] == [Page(pair)] + rs[2..];
      PullStopsOnStalePage(KeysOf(pair), x.id, pair, rs[2..]);
    }
  }

  /** The buy and the sell of a self-trade have two keys, are both passed on, and leave the cursor at their ID. */
  lemma {:induction false} SelfTradePair(x: Trade)
    ensures var pair := [x.(side := Buy), x.(side := Sell)];
      && Novel({}, pair) == pair && !Stops({}, pair)
      && LastIdOr(x.id, pair) == x.id && pair + [] == pair
  {
    var pair := [x.(side := Buy), x.(side := Sell)];
    assert pair[0].Key() != pair[1].Key();
    assert pair == [pair[0]] + [pair[1]];
    NovelSnoc({}, [], pair[0]);
    assert [] + [pair[0]] == [pair[0]];
    NovelSnoc({}, [pair[0]], pair[1]);
    KeysOfSnoc([], pair[0]);
    assert pair[1].Key() !in KeysOf(pair[..1]);
  }

  /**
   * Corrected, every request but the last follows a page that emitted a trade: the query makes at
   * most one request more than it emits trades, so it ends against any venue with finitely many trades.
   */
  lemma {:induction false} PullProgress(seen: set<TradeKey>, cursor: int, rs: seq<Response>)
    ensures |Pull(seen, cursor, rs).requests| <= |Pull(seen, cursor, rs).trades| + 1
    decreases |rs|
  {
    if rs != [] && rs[0].Page? && !Stops(seen, rs[0].trades) {
      var ts := rs[0].trades;
      var novel := Novel(seen, ts);
      PullPageStep(seen, cursor, rs);
      NovelOfFresh(seen, ts);
      PullProgress(seen + KeysOf(ts), LastIdOr(cursor, novel), rs[1..]);
    }
  }

  /** How a page that does not stop the query contributes to `Pull`; used by the proofs over whole runs. */
  lemma {:induction false} PullPageStep(seen: set<TradeKey>, cursor: int, rs: seq<Response>)
    requires rs != [] && rs[0].Page? && !Stops(seen, rs[0].trades)
    ensures var novel := Novel(seen, rs[0].trades);
      var rest := Pull(seen + KeysOf(rs[0].trades), LastIdOr(cursor, novel), rs[1..]);
      Pull(seen, cursor, rs) == Pulled(novel + rest.trades, [cursor] + rest.requests, rest.err)
  {
  }

  /**
   * A page that passes Go's two stop tests: if it passes nothing on the query ends, otherwise it
   * contributes as `PullPageStep` says.
   */
  lemma {:induction false} PullOnPage(seen: set<TradeKey>, cursor: int, rs: seq<Response>)
    requires rs != [] && rs[0].Page?
    requires var ts := rs[0].trades; !(|ts| == 0 || (|ts| == 1 && ts[0].Key() in seen))
    ensures Novel(seen, rs[0].trades) == [] ==> Pull(seen, cursor, rs) == Pulled([], [cursor], None)
    ensures Novel(seen, rs[0].trades) != [] ==> var novel := Novel(seen, rs[0].trades);
      var rest := Pull(seen + KeysOf(rs[0].trades), LastIdOr(cursor, novel), rs[1..]);
      Pull(seen, cursor, rs) == Pulled(novel + rest.trades, [cursor] + rest.requests, rest.err)
  {
    var ts := rs[0].trades;
    if Novel(seen, ts) == [] {
      NovelKeys(seen, ts);
      forall k | k in KeysOf(ts) ensures k in seen {
        assert k in seen || k in KeysOf(Novel(seen, ts));
      }
    } else {
      if KeysOf(ts) <= seen {
        NovelOfSeen(seen, ts);
      }
      PullPageStep(seen, cursor, rs);
    }
  }

  /** A page with some key not seen before passes at least one trade on. */
  lemma {:induction false} NovelOfFresh(seen: set<TradeKey>, ts: seq<Trade>)
    requires !(KeysOf(ts) <= seen)
    ensures Novel(seen, ts) != []
  {
    NovelKeys(seen, ts);
    var k :| k in KeysOf(ts) && k !in seen;
    assert k in KeysOf(Novel(seen, ts));
  }

  /** The cursor after passing on `a` and then `b`. */
  lemma {:induction false} LastIdOrAppend(cursor: int, a: seq<Trade>, b: seq<Trade>)
    ensures LastIdOr(cursor, a + b) == LastIdOr(LastIdOr(cursor, a), b)
  {
    if b != [] {
      assert (a + b)[|a + b| - 1] == b[|b| - 1];
    } else {
      assert a + b == a;
    }
  }

  /**
   * Every request after the first starts from the last trade emitted so far, that is from the
   * answers to the earlier requests, or from `cursor` if none was emitted yet.
   */
  lemma {:induction false} PullRequestsFollowEmitted(seen: set<TradeKey>, cursor: int, rs: seq<Response>)
    ensures var p := Pull(seen, cursor, rs);
      forall i :: 1 <= i < |p.requests| ==> p.requests[i] == LastIdOr(cursor, Pull(seen, cursor, rs[..i]).trades)
    decreases |rs|
  {
    var p := Pull(seen, cursor, rs);
    if rs != [] && rs[0].Page? && !Stops(seen, rs[0].trades) {
      var ts := rs[0].trades;
      var novel := Novel(seen, ts);
      var seen', cursor' := seen + KeysOf(ts), LastIdOr(cursor, novel);
      var rest := Pull(seen', cursor', rs[1..]);
      PullRequestsFollowEmitted(seen', cursor', rs[1..]);
      PullPageStep(seen, cursor, rs);
      forall i | 1 <= i < |p.requests|
        ensures p.requests[i] == LastIdOr(cursor, Pull(seen, cursor, rs[..i]).trades)
      {
        PullPrefixStep(seen, cursor, rs, i);
        LastIdOrAppend(cursor, novel, Pull(seen', cursor', rs[1..][..i - 1]).trades);
      }
    }
  }

  /** `PullPageStep` for the first `i` answers. */
  lemma {:induction false} PullPrefixStep(seen: set<TradeKey>, cursor: int, rs: seq<Response>, i: nat)
    requires 1 <= i <= |rs| && rs[0].Page? && !Stops(seen, rs[0].trades)
    ensures var novel := Novel(seen, rs[0].trades);
      Pull(seen, cursor, rs[..i]).trades == novel + Pull(seen + KeysOf(rs[0].trades), LastIdOr(cursor, novel), rs[1..][..i - 1]).trades
  {
    var pre := rs[..i];
    assert pre[0] == rs[0] && pre[1..] == rs[1..][..i - 1];
    PullPageStep(seen, cursor, pre);
  }

  /** Emitted trades have pairwise-distinct keys, none of them among the keys seen before. */
  lemma {:induction false} PullDistinct(seen: set<TradeKey>, cursor: int, rs: seq<Response>)
    ensures DistinctKeys(Pull(seen, cursor, rs).trades)
    ensures KeysOf(Pull(seen, cursor, rs).trades) !! seen
    decreases |rs|
  {
    if rs != [] && rs[0].Page? {
      var ts := rs[0].trades;
      if !Stops(seen, ts) {
        var novel := Novel(seen, ts);
        var rest := Pull(seen + KeysOf(ts), LastIdOr(cursor, novel), rs[1..]);
        NovelDistinct(seen, ts);
        NovelKeys(seen, ts);
        PullDistinct(seen + KeysOf(ts), LastIdOr(cursor, novel), rs[1..]);
        DistinctAppend(novel, rest.trades);
        forall k | k in KeysOf(novel + rest.trades) ensures k !in seen {
          var i :| 0 <= i < |novel + rest.trades| && (novel + rest.trades)[i].Key() == k;
          if i < |novel| {
            assert novel[i].Key() in KeysOf(novel);
          } else {
            assert rest.trades[i - |novel|].Key() in KeysOf(rest.trades);
          }
        }
      }
    }
  }

  /** Every trade the venue delivered, page after page; errors deliver none. */
  function Delivered(rs: seq<Response>): seq<Trade>
    decreases |rs|
  {
    if rs == [] then [] else (if rs[0].Page? then rs[0].trades else []) + Delivered(rs[1..])
  }

  /** Emitted trades keep page order and the order within each page. */
  lemma {:induction false} PullSubsequence(seen: set<TradeKey>, cursor: int, rs: seq<Response>)
    ensures IsSubsequence(Pull(seen, cursor, rs).trades, Delivered(rs))
    decreases |rs|
  {
    var p := Pull(seen, cursor, rs);
    if p.trades == [] {
      SubsequenceOfEmpty(Delivered(rs));
    } else {
      var ts := rs[0].trades;
      var novel := Novel(seen, ts);
      NovelSubsequence(seen, ts);
      PullSubsequence(seen + KeysOf(ts), LastIdOr(cursor, novel), rs[1..]);
      SubsequenceAppend(novel, ts, Pull(seen + KeysOf(ts), LastIdOr(cursor, novel), rs[1..]).trades, Delivered(rs[1..]));
    }
  }

  /** The last request is made from the last emitted trade's ID, or from the starting cursor if none was emitted. */
  lemma {:induction false} PullLastRequest(seen: set<TradeKey>, cursor: int, rs: seq<Response>)
    ensures var p := Pull(seen, cursor, rs);
      p.requests[|p.requests| - 1] == LastIdOr(cursor, p.trades)
    decreases |rs|
  {
    if rs != [] && rs[0].Page? {
      var ts := rs[0].trades;
      if !Stops(seen, ts) {
        var novel := Novel(seen, ts);
        var rest := Pull(seen + KeysOf(ts), LastIdOr(cursor, novel), rs[1..]);
        PullLastRequest(seen + KeysOf(ts), LastIdOr(cursor, novel), rs[1..]);
        if rest.trades != [] {
          assert (novel + rest.trades)[|novel + rest.trades| - 1] == rest.trades[|rest.trades| - 1];
        }
      }
    }
  }

  /** Nothing after a failing request matters: it ends the query, whatever the venue would have answered next. */
  lemma {:induction false} PullFailureEnds(seen: set<TradeKey>, cursor: int, rs: seq<Response>, e: string, later: seq<Response>)
    ensures Pull(seen, cursor, rs + [Failure(e)] + later) == Pull(seen, cursor, rs + [Failure(e)])
    decreases |rs|
  {
    var long, short := rs + [Failure(e)] + later, rs + [Failure(e)];
    if rs == [] {
      assert long[0] == Failure(e) && short[0] == Failure(e);
    } else {
      assert long[0] == rs[0] && short[0] == rs[0];
      assert long[1..] == rs[1..] + [Failure(e)] + later;
      assert short[1..] == rs[1..] + [Failure(e)];
      if rs[0].Page? {
        var ts := rs[0].trades;
        PullFailureEnds(seen + KeysOf(ts), LastIdOr(cursor, Novel(seen, ts)), rs[1..], e, later);
      }
    }
  }

  /** A reported error is the error of one of the answers. */
  lemma {:induction false} PullErrorIsVenueError(seen: set<TradeKey>, cursor: int, rs: seq<Response>)
    ensures Pull(seen, cursor, rs).err.Some? ==> Failure(Pull(seen, cursor, rs).err.value) in rs
    decreases |rs|
  {
    if rs != [] && rs[0].Page? {
      var ts := rs[0].trades;
      if !Stops(seen, ts) {
        PullErrorIsVenueError(seen + KeysOf(ts), LastIdOr(cursor, Novel(seen, ts)), rs[1..]);
        assert forall r :: r in rs[1..] ==> r in rs;
      }
    }
  }

  /** The three quiet stops: an empty page, a page of one trade already emitted, and a venue with nothing more to say. */
  lemma {:induction false} PullQuietStops(seen: set<TradeKey>, cursor: int, t: Trade, rs: seq<Response>)
    ensures Pull(seen, cursor, [Page([])] + rs) == Pulled([], [cursor], None)
    ensures t.Key() in seen ==> Pull(seen, cursor, [Page([t])] + rs) == Pulled([], [cursor], None)
    ensures Pull(seen, cursor, []) == Pulled([], [cursor], None)
  {
    assert ([Page([])] + rs)[0] == Page([]);
    assert ([Page([t])] + rs)[0] == Page([t]);
  }

  /**
   * The loop over one page inside `TradeBatchQuery.Query`: each trade whose key is not yet in
   * `tradeKeys` is emitted, its key recorded and the cursor moved to its ID.
   */
  method PassOn(trades: seq<Trade>, tradeKeys: set<TradeKey>, cursor: int)
    returns (emitted: seq<Trade>, keys: set<TradeKey>, lastTradeID: int)
    ensures emitted == Novel(tradeKeys, trades)
    ensures keys == tradeKeys + KeysOf(trades)
    ensures lastTradeID == LastIdOr(cursor, emitted)
  {
    emitted, keys, lastTradeID := [], tradeKeys, cursor;
    var i := 0;
    while i < |trades|
      invariant 0 <= i <= |trades|
      invariant keys == tradeKeys + KeysOf(trades[..i])
      invariant emitted == Novel(tradeKeys, trades[..i])
      invariant lastTradeID == LastIdOr(cursor, emitted)
    {
      var t := trades[i];
      var key := t.Key();
      PassOnStep(tradeKeys, trades, i, keys, emitted, cursor);
      if key !in keys {
        lastTradeID := t.id;
        keys := keys + {key};
        emitted := emitted + [t];
      }
      i := i + 1;
    }
    assert trades[..|trades|] == trades;
  }

  /** One trade further along `PassOn`: the keys, the passed-on trades and the cursor for the longer prefix. */
  lemma {:induction false} PassOnStep(seen: set<TradeKey>, ts: seq<Trade>, i: nat, keys: set<TradeKey>, emitted: seq<Trade>, cursor: int)
    requires i < |ts| && keys == seen + KeysOf(ts[..i]) && emitted == Novel(seen, ts[..i])
    ensures ts[i].Key() in keys ==> keys == seen + KeysOf(ts[..i + 1]) && emitted == Novel(seen, ts[..i + 1])
    ensures ts[i].Key() !in keys ==>
      && keys + {ts[i].Key()} == seen + KeysOf(ts[..i + 1])
      && emitted + [ts[i]] == Novel(seen, ts[..i + 1])
      && LastIdOr(cursor, emitted + [ts[i]]) == ts[i].id
  {
    PrefixStep(seen, ts, i);
  }

  /**
   * `TradeBatchQuery.Query`: without the trade-history capability nothing is emitted and no error
   * reported; otherwise the requests start from `lastTradeID` with an empty key set and follow `Pull`,
   * which also ends the query on a page that passes nothing on (see `PullAsWritten`).
   */
  method Query(source: HistorySource, lastTradeID: int) returns (emitted: seq<Trade>, requests: seq<int>, err: Option<string>)
    ensures source.NoHistory? ==> emitted == [] && requests == [] && err == None
    ensures source.History? ==> Pulled(emitted, requests, err) == Pull({}, lastTradeID, source.responses)
  {
    emitted, requests, err := [], [], None;
    if source.NoHistory? {
      return;
    }
    var responses := source.responses;
    var cursor := lastTradeID;
    var tradeKeys: set<TradeKey> := {};
    var k := 0;
    while true
      invariant 0 <= k <= |responses|
      invariant var p := Pull(tradeKeys, cursor, responses[k..]);
        Pull({}, lastTradeID, responses) == Pulled(emitted + p.trades, requests + p.requests, p.err)
      decreases |responses| - k
    {
      ghost var requested := requests;
      requests := requests + [cursor];
      if k == |responses| {
        // the venue has nothing more: an empty page
        return;
      }
      var response := responses[k];
      if response.Failure? {
        err := Some(response.err);
        return;
      }
      var trades := response.trades;
      if |trades| == 0 {
        return;
      } else if |trades| == 1 {
        if trades[0].Key() in tradeKeys {
          return;
        }
      }
      ghost var seen0, emitted0, cursor0 := tradeKeys, emitted, cursor;
      var novel;
      novel, tradeKeys, cursor := PassOn(trades, tradeKeys, cursor);
      PullOnPage(seen0, cursor0, responses[k..]);
      if novel == [] {
        // nothing new on this page: the same request would be answered alike
        return;
      }
      emitted := emitted + novel;
      assert responses[k..][1..] == responses[k + 1..];
      ghost var rest := Pull(tradeKeys, cursor, responses[k + 1..]);
      assert emitted + rest.trades == emitted0 + (novel + rest.trades);
      assert requests + rest.requests == requested + ([cursor0] + rest.requests);
      k := k + 1;
    }
  }
}
