/**
 * `pkg/engine/market_data_store.go`: per-symbol store of closed k-lines, one bounded window
 * per interval.
 */
module MarketData {

  /** `types.Interval`, a string such as "1m" or "1h". */
  datatype Interval = Interval(name: string)

  /** The parts of a `types.KLine` the store reads (symbol and interval) and what it carries. */
  datatype KLine = KLine(symbol: string, interval: Interval, startTime: int,
                         open: real, high: real, low: real, close: real, volume: real)

  /** A window longer than this is truncated. */
  const MaxNumOfKLines: nat := 5000
  /** How many of the oldest k-lines a truncation drops. */
  const MaxNumOfKLinesTruncate: nat := 1000

  type Windows = map<Interval, seq<KLine>>

  /** `s` is a suffix of `t`. */
  predicate IsSuffix<T(==)>(s: seq<T>, t: seq<T>) {
    |s| <= |t| && t[|t| - |s|..] == s
  }

  /**
   * The window `AddKLine` stores for the k-line's interval: the existing window (or none)
   * extended by the k-line, with the 1000 oldest dropped once it exceeds 5000.
   */
  function NextWindow(windows: Windows, kline: KLine): (w: seq<KLine>)
    ensures |w| > 0 && w[|w| - 1] == kline
    ensures kline.interval !in windows ==> w == [kline]
    ensures kline.interval in windows ==> IsSuffix(w, windows[kline.interval] + [kline])
    ensures kline.interval in windows && |windows[kline.interval]| < MaxNumOfKLines ==> w == windows[kline.interval] + [kline]
    ensures kline.interval in windows && |windows[kline.interval]| <= MaxNumOfKLines ==> |w| <= MaxNumOfKLines
  {
    var extended := if kline.interval in windows then windows[kline.interval] + [kline] else [kline];
    if |extended| > MaxNumOfKLines then extended[MaxNumOfKLinesTruncate..] else extended
  }

  /** A full window of 5000 drops its 1000 oldest k-lines when one more arrives. */
  lemma {:induction false} FullWindowTruncates(windows: Windows, kline: KLine)
    requires kline.interval in windows && |windows[kline.interval]| == MaxNumOfKLines
    ensures NextWindow(windows, kline) == windows[kline.interval][MaxNumOfKLinesTruncate..] + [kline]
    ensures |NextWindow(windows, kline)| == MaxNumOfKLines - MaxNumOfKLinesTruncate + 1
  {
    var old_ := windows[kline.interval];
    assert (old_ + [kline])[MaxNumOfKLinesTruncate..] == old_[MaxNumOfKLinesTruncate..] + [kline];
  }

  /** Every window holds at most 5000 k-lines. */
  predicate Bounded(windows: Windows) {
    forall i :: i in windows ==> |windows[i]| <= MaxNumOfKLines
  }

  /** Adding a k-line keeps every window within the bound and leaves the other intervals alone. */
  lemma {:induction false} AddKeepsBound(windows: Windows, kline: KLine)
    requires Bounded(windows)
    ensures var after := windows[kline.interval := NextWindow(windows, kline)];
      Bounded(after) && forall i :: i in windows && i != kline.interval ==> i in after && after[i] == windows[i]
  {
    var after := windows[kline.interval := NextWindow(windows, kline)];
    forall i | i in after
      ensures |after[i]| <= MaxNumOfKLines
    {
      if i == kline.interval {
        assert |NextWindow(windows, kline)| <= MaxNumOfKLines;
      }
    }
  }

  /** `engine.MarketDataStore`. */
  class MarketDataStore {
    var symbol: string
    var kLineWindows: Windows

    /** `NewMarketDataStore`: no windows yet. */
    constructor (symbol: string)
      ensures this.symbol == symbol && kLineWindows == map[]
    {
      this.symbol := symbol;
      kLineWindows := map[];
    }

    /** `MarketDataStore.SetKLineWindows`: replaces every window at once. */
    method SetKLineWindows(windows: Windows)
      modifies this
      ensures kLineWindows == windows && symbol == old(symbol)
    {
      kLineWindows := windows;
    }

    /** `MarketDataStore.KLinesOfInterval`: the stored window and whether there is one (an empty window when not). */
    method KLinesOfInterval(interval: Interval) returns (kLines: seq<KLine>, ok: bool)
      ensures ok <==> interval in kLineWindows
      ensures ok ==> kLines == kLineWindows[interval]
      ensures !ok ==> kLines == []
    {
      if interval in kLineWindows {
        kLines, ok := kLineWindows[interval], true;
      } else {
        kLines, ok := [], false;
      }
    }

    /** `MarketDataStore.AddKLine`: appends to the k-line's window, truncating a window that grew past the bound. */
    method AddKLine(kline: KLine)
      modifies this
      ensures kLineWindows == old(kLineWindows)[kline.interval := NextWindow(old(kLineWindows), kline)]
      ensures symbol == old(symbol)
    {
      var window: seq<KLine>;
      if kline.interval !in kLineWindows {
        window := [kline];
      } else {
        window := kLineWindows[kline.interval];
        window := window + [kline];
      }

      if |window| > MaxNumOfKLines {
        window := window[MaxNumOfKLinesTruncate..];
      }

      kLineWindows := kLineWindows[kline.interval := window];
    }

    /** `MarketDataStore.handleKLineClosed`: k-lines of other symbols are ignored. */
    method HandleKLineClosed(kline: KLine)
      modifies this
      ensures kline.symbol != old(symbol) ==> kLineWindows == old(kLineWindows)
      ensures kline.symbol == old(symbol) ==> kLineWindows == old(kLineWindows)[kline.interval := NextWindow(old(kLineWindows), kline)]
      ensures symbol == old(symbol)
    {
      if kline.symbol != symbol {
        return;
      }
      AddKLine(kline);
    }
  }
}
