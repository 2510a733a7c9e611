/** `pkg/types/trade.go`: executed trades, their deduplication key, and the trade slice. */
module Trades {
  import opened Wrappers
  import opened Sides
  import opened Exchanges
  import opened Seqs

  /** The deduplication identity of a trade: the venue's trade ID and the side, nothing else. */
  datatype TradeKey = TradeKey(id: int, side: SideType)

  /** One executed fill. The Go float fields are taken as exact reals. */
  datatype Trade = Trade(
    gid: int,
    id: int,
    orderId: nat,
    exchange: ExchangeName,
    price: real,
    quantity: real,
    quoteQuantity: real,
    symbol: string,
    side: SideType,
    isBuyer: bool,
    isMaker: bool,
    time: int,
    fee: real,
    feeCurrency: string,
    isMargin: bool,
    isIsolated: bool,
    strategyId: Option<string>,
    pnl: Option<real>)
  {
    /** `Trade.Key`. */
    function Key(): TradeKey {
      TradeKey(id, side)
    }

    /** `Trade.Liquidity`: "MAKER" for a maker fill, "TAKER" for every other. */
    function Liquidity(): (o: string)
      ensures o == "MAKER" <==> isMaker
      ensures o == "TAKER" <==> !isMaker
    {
      if isMaker then "MAKER" else "TAKER"
    }
  }

  /**
   * Two trades share a key exactly when they share the trade ID and the side, whatever their
   * symbol, exchange or any other field.
   */
  lemma {:induction false} KeyIdentity(a: Trade, b: Trade)
    ensures a.Key() == b.Key() <==> a.id == b.id && a.side == b.side
  {
  }

  /** The keys of a sequence of trades. */
  function KeysOf(ts: seq<Trade>): (keys: set<TradeKey>)
    ensures forall i :: 0 <= i < |ts| ==> ts[i].Key() in keys
  {
    set i | 0 <= i < |ts| :: ts[i].Key()
  }

  /** No two trades of `ts` share a key. */
  predicate DistinctKeys(ts: seq<Trade>) {
    forall i, j :: 0 <= i < j < |ts| ==> ts[i].Key() != ts[j].Key()
  }

  /** `types.TradeSlice`: a growable list of trades. */
  class TradeSlice {
    var trades: seq<Trade>

    constructor (trades: seq<Trade>)
      ensures this.trades == trades
    {
      this.trades := trades;
    }

    /** `TradeSlice.Copy`: a separate list with the same trades in the same order. */
    method Copy() returns (slice: seq<Trade>)
      ensures slice == trades
    {
      slice := trades[..];
    }

    /** `TradeSlice.Reverse`: swaps from both ends towards the middle. */
    method Reverse()
      modifies this
      ensures trades == Reversed(old(trades))
    {
      var slice := trades;
      var n := |slice|;
      var i, j := 0, n - 1;
      while i < j
        invariant 0 <= i <= n && j == n - 1 - i
        invariant |slice| == n
        invariant forall k :: 0 <= k < i ==> slice[k] == trades[n - 1 - k]
        invariant forall k :: j < k < n ==> slice[k] == trades[n - 1 - k]
        invariant forall k :: i <= k <= j ==> slice[k] == trades[k]
      {
        slice := slice[i := slice[j]][j := slice[i]];
        i, j := i + 1, j - 1;
      }
      assert forall k :: 0 <= k < n ==> slice[k] == trades[n - 1 - k];
      trades := slice;
    }

    /** `TradeSlice.Append`: the trade goes at the end, the earlier trades stay as they were. */
    method Append(t: Trade)
      modifies this
      ensures trades == old(trades) + [t]
    {
      trades := trades + [t];
    }
  }
}
