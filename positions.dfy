/**
 * `pkg/engine/position.go`: the position ledger. A position folds fills into a signed base
 * amount, a quote amount and two weighted-average costs, and reports realized profit whenever
 * a fill closes exposure. Fixed-point values are taken as exact reals.
 */
module Positions {
  import opened Sides
  import opened Exchanges
  import opened Trades
  import opened Markets

  /** `engine.ExchangeFee`: the fee rates used to price a fee paid in a third currency. */
  datatype ExchangeFee = ExchangeFee(makerFeeRate: real, takerFeeRate: real)

  /** A trade as the ledger sees it once its fee has been accounted for. */
  datatype Fill = Fill(side: SideType, price: real, quantity: real, quoteQuantity: real, feeInQuote: real)

  /** The four amounts `AddTrade` updates. */
  datatype Ledger = Ledger(base: real, quote: real, averageCost: real, approximateAverageCost: real)

  /** The new amounts and the three results of one `AddTrade`. */
  datatype Outcome = Outcome(ledger: Ledger, profit: real, netProfit: real, madeProfit: bool)

  /**
   * The fee step of `AddTrade`: a fee in the base currency comes off the quantity, a fee in
   * the quote currency comes off the quote quantity, and a fee in any other currency is priced
   * in quote at the exchange's maker or taker rate (nothing when the exchange has no rate).
   */
  function FeeAdjusted(baseCurrency: string, quoteCurrency: string, rates: map<ExchangeName, ExchangeFee>, t: Trade): Fill
  {
    if t.feeCurrency == baseCurrency then
      Fill(t.side, t.price, t.quantity - t.fee, t.quoteQuantity, 0.0)
    else if t.feeCurrency == quoteCurrency then
      Fill(t.side, t.price, t.quantity, t.quoteQuantity - t.fee, 0.0)
    else if t.exchange in rates then
      var rate := if t.isMaker then rates[t.exchange].makerFeeRate else rates[t.exchange].takerFeeRate;
      Fill(t.side, t.price, t.quantity, t.quoteQuantity, rate * t.quoteQuantity)
    else
      Fill(t.side, t.price, t.quantity, t.quoteQuantity, 0.0)
  }

  /** The fee is accounted in exactly one way, chosen by the fee currency. */
  lemma {:induction false} FeeHandling(baseCurrency: string, quoteCurrency: string, rates: map<ExchangeName, ExchangeFee>, t: Trade)
    ensures var f := FeeAdjusted(baseCurrency, quoteCurrency, rates, t);
      && f.side == t.side && f.price == t.price
      && (t.feeCurrency == baseCurrency ==>
            f.quantity == t.quantity - t.fee && f.quoteQuantity == t.quoteQuantity && f.feeInQuote == 0.0)
      && (t.feeCurrency != baseCurrency && t.feeCurrency == quoteCurrency ==>
            f.quantity == t.quantity && f.quoteQuantity == t.quoteQuantity - t.fee && f.feeInQuote == 0.0)
      && (t.feeCurrency != baseCurrency && t.feeCurrency != quoteCurrency ==>
            f.quantity == t.quantity && f.quoteQuantity == t.quoteQuantity
            && f.feeInQuote == (if t.exchange !in rates then 0.0
                                else if t.isMaker then rates[t.exchange].makerFeeRate * t.quoteQuantity
                                else rates[t.exchange].takerFeeRate * t.quoteQuantity))
  {
  }

  /** The two averaging branches divide by the new absolute base; it must not be zero. */
  predicate Divisible(l: Ledger, f: Fill) {
    && (f.side == Buy && l.base >= 0.0 ==> l.base + f.quantity != 0.0)
    && (f.side == Sell && l.base <= 0.0 ==> -l.base + f.quantity != 0.0)
  }

  /** Profit of closing `amount` of a long bought at `cost` by selling at `price`. */
  function LongGain(cost: real, price: real, amount: real): real {
    (price - cost) * amount
  }

  /** Profit of closing `amount` of a short sold at `cost` by buying at `price`. */
  function ShortGain(cost: real, price: real, amount: real): real {
    (cost - price) * amount
  }

  /** The average cost after adding `paid` to `held` units bought at `cost`, giving `newHeld` units. */
  function WeightedAverage(cost: real, held: real, paid: real, newHeld: real): real
    requires newHeld != 0.0
  {
    (cost * held + paid) / newHeld
  }

  /** The state change and results of `AddTrade` on a fee-adjusted fill. */
  function Step(l: Ledger, f: Fill): (o: Outcome)
    requires Divisible(l, f)
    ensures f.side == Buy ==> o.ledger.base == l.base + f.quantity && o.ledger.quote == l.quote - f.quoteQuantity
    ensures f.side == Sell ==> o.ledger.base == l.base - f.quantity && o.ledger.quote == l.quote + f.quoteQuantity
    ensures f.side != Buy && f.side != Sell ==> o == Outcome(l, 0.0, 0.0, false)
    ensures o.madeProfit <==> (f.side == Buy && l.base < 0.0) || (f.side == Sell && l.base > 0.0)
    ensures !o.madeProfit ==> o.profit == 0.0 && o.netProfit == 0.0
  {
    if f.side == Buy then
      if l.base < 0.0 then
        if l.base + f.quantity > 0.0 then
          // the buy closes the short and opens a long at the fill price
          Outcome(Ledger(l.base + f.quantity, l.quote - f.quoteQuantity, f.price, f.price),
                  ShortGain(l.averageCost, f.price, -l.base),
                  ShortGain(l.approximateAverageCost, f.price, -l.base) - f.feeInQuote,
                  true)
        else
          // the buy covers part of the short
          Outcome(l.(base := l.base + f.quantity, quote := l.quote - f.quoteQuantity),
                  ShortGain(l.averageCost, f.price, f.quantity),
                  ShortGain(l.approximateAverageCost, f.price, f.quantity) - f.feeInQuote,
                  true)
      else
        Outcome(Ledger(l.base + f.quantity, l.quote - f.quoteQuantity,
                       WeightedAverage(l.averageCost, l.base, f.quoteQuantity, l.base + f.quantity),
                       WeightedAverage(l.approximateAverageCost, l.base, f.quoteQuantity + f.feeInQuote, l.base + f.quantity)),
                0.0, 0.0, false)
    else if f.side == Sell then
      if l.base > 0.0 then
        if l.base - f.quantity < 0.0 then
          // the sell closes the long and opens a short at the fill price
          Outcome(Ledger(l.base - f.quantity, l.quote + f.quoteQuantity, f.price, f.price),
                  LongGain(l.averageCost, f.price, l.base),
                  LongGain(l.approximateAverageCost, f.price, l.base) - f.feeInQuote,
                  true)
        else
          // the sell reduces the long
          Outcome(l.(base := l.base - f.quantity, quote := l.quote + f.quoteQuantity),
                  LongGain(l.averageCost, f.price, f.quantity),
                  LongGain(l.approximateAverageCost, f.price, f.quantity) - f.feeInQuote,
                  true)
      else
        // extending a short: Base is negative, so its size is -Base
        Outcome(Ledger(l.base - f.quantity, l.quote + f.quoteQuantity,
                       WeightedAverage(l.averageCost, -l.base, f.quoteQuantity, -l.base + f.quantity),
                       WeightedAverage(l.approximateAverageCost, -l.base, f.quoteQuantity - f.feeInQuote, -l.base + f.quantity)),
                0.0, 0.0, false)
    else
      Outcome(l, 0.0, 0.0, false)
  }

  /**
   * A buy on a flat or long position realizes nothing; both averages become the weighted mean,
   * so the cost basis grows by exactly what was paid (plus the priced fee for the approximate one).
   */
  lemma {:induction false} BuyExtendsLong(l: Ledger, f: Fill)
    requires f.side == Buy && l.base >= 0.0 && l.base + f.quantity != 0.0
    ensures var o := Step(l, f);
      && o.profit == 0.0 && o.netProfit == 0.0 && !o.madeProfit
      && o.ledger.averageCost == (l.averageCost * l.base + f.quoteQuantity) / (l.base + f.quantity)
      && o.ledger.approximateAverageCost == (l.approximateAverageCost * l.base + f.quoteQuantity + f.feeInQuote) / (l.base + f.quantity)
      && o.ledger.averageCost * o.ledger.base == l.averageCost * l.base + f.quoteQuantity
      && o.ledger.approximateAverageCost * o.ledger.base == l.approximateAverageCost * l.base + f.quoteQuantity + f.feeInQuote
  {
    var o := Step(l, f);
    var d := l.base + f.quantity;
    assert o.ledger.base == d;
    assert o.ledger.averageCost * d == l.averageCost * l.base + f.quoteQuantity;
    assert o.ledger.approximateAverageCost * d == l.approximateAverageCost * l.base + f.quoteQuantity + f.feeInQuote;
  }

  /** A buy that does not cover the whole short realizes profit on the whole quantity and keeps both averages. */
  lemma {:induction false} BuyCoversShort(l: Ledger, f: Fill)
    requires f.side == Buy && l.base < 0.0 && l.base + f.quantity <= 0.0
    ensures var o := Step(l, f);
      && o.madeProfit
      && o.profit == (l.averageCost - f.price) * f.quantity
      && o.netProfit == (l.approximateAverageCost - f.price) * f.quantity - f.feeInQuote
      && o.ledger.averageCost == l.averageCost
      && o.ledger.approximateAverageCost == l.approximateAverageCost
  {
  }

  lemma {:induction false} CoverRealizes(l: Ledger, f: Fill)
    requires f.side == Buy && l.base < 0.0 && l.base + f.quantity <= 0.0
    requires f.quoteQuantity == f.price * f.quantity
    ensures Step(l, f).profit == CostValue(Step(l, f).ledger) - CostValue(l)
    ensures Step(l, f).netProfit == ApproximateValue(Step(l, f).ledger) - ApproximateValue(l) - f.feeInQuote
  {
    BuyCoversShort(l, f);
    CoverIdentity(l.quote, l.averageCost, l.base, f.price, f.quantity);
    CoverIdentity(l.quote, l.approximateAverageCost, l.base, f.price, f.quantity);
  }

  /**
   * A buy larger than the short realizes profit only on the covered amount −Base, leaves a
   * long of Base + quantity, and resets both averages to the fill price.
   */
  lemma {:induction false} BuyFlipsShort(l: Ledger, f: Fill)
    requires f.side == Buy && l.base < 0.0 && l.base + f.quantity > 0.0
    ensures var o := Step(l, f);
      && o.madeProfit
      && o.profit == (l.averageCost - f.price) * -l.base
      && o.netProfit == (l.approximateAverageCost - f.price) * -l.base - f.feeInQuote
      && o.ledger.base > 0.0
      && o.ledger.averageCost == f.price && o.ledger.approximateAverageCost == f.price
  {
  }

  /** A sell that does not exceed the long realizes profit on the whole quantity and keeps both averages. */
  lemma {:induction false} SellReducesLong(l: Ledger, f: Fill)
    requires f.side == Sell && l.base > 0.0 && l.base - f.quantity >= 0.0
    ensures var o := Step(l, f);
      && o.madeProfit
      && o.profit == (f.price - l.averageCost) * f.quantity
      && o.netProfit == (f.price - l.approximateAverageCost) * f.quantity - f.feeInQuote
      && o.ledger.averageCost == l.averageCost
      && o.ledger.approximateAverageCost == l.approximateAverageCost
  {
  }

  /**
   * A sell larger than the long realizes profit only on the held amount Base, leaves a short
   * of Base − quantity, and resets both averages to the fill price.
   */
  lemma {:induction false} SellFlipsLong(l: Ledger, f: Fill)
    requires f.side == Sell && l.base > 0.0 && l.base - f.quantity < 0.0
    ensures var o := Step(l, f);
      && o.madeProfit
      && o.profit == (f.price - l.averageCost) * l.base
      && o.netProfit == (f.price - l.approximateAverageCost) * l.base - f.feeInQuote
      && o.ledger.base < 0.0
      && o.ledger.averageCost == f.price && o.ledger.approximateAverageCost == f.price
  {
  }

  /**
   * A sell on a flat or short position realizes nothing; the averages weigh the new quantity
   * against the short's size −Base, and the approximate one subtracts the priced fee.
   */
  lemma {:induction false} SellExtendsShort(l: Ledger, f: Fill)
    requires f.side == Sell && l.base <= 0.0 && -l.base + f.quantity != 0.0
    ensures var o := Step(l, f);
      && o.profit == 0.0 && o.netProfit == 0.0 && !o.madeProfit
      && o.ledger.averageCost == (l.averageCost * -l.base + f.quoteQuantity) / (-l.base + f.quantity)
      && o.ledger.approximateAverageCost == (l.approximateAverageCost * -l.base + f.quoteQuantity - f.feeInQuote) / (-l.base + f.quantity)
      && o.ledger.averageCost * -o.ledger.base == l.averageCost * -l.base + f.quoteQuantity
      && o.ledger.approximateAverageCost * -o.ledger.base == l.approximateAverageCost * -l.base + f.quoteQuantity - f.feeInQuote
  {
    var o := Step(l, f);
    var d := -l.base + f.quantity;
    assert -o.ledger.base == d;
    assert o.ledger.averageCost * d == l.averageCost * -l.base + f.quoteQuantity;
    assert o.ledger.approximateAverageCost * d == l.approximateAverageCost * -l.base + f.quoteQuantity - f.feeInQuote;
  }

  /** The quote amount plus the base valued at the average cost. */
  function CostValue(l: Ledger): real {
    l.quote + l.averageCost * l.base
  }

  /** The same valuation at the approximate (fee-inclusive) average cost. */
  function ApproximateValue(l: Ledger): real {
    l.quote + l.approximateAverageCost * l.base
  }

  /** Covering part of a short: the realized amount is the change of value at the kept average. */
  lemma {:induction false} CoverIdentity(quote: real, avg: real, base: real, price: real, qty: real)
    ensures (avg - price) * qty == ((quote - price * qty) + avg * (base + qty)) - (quote + avg * base)
  {
  }

  /** Selling part of a long: the realized amount is the change of value at the kept average. */
  lemma {:induction false} ReduceIdentity(quote: real, avg: real, base: real, price: real, qty: real)
    ensures (price - avg) * qty == ((quote + price * qty) + avg * (base - qty)) - (quote + avg * base)
  {
  }

  /** Buying past a short: only the short's size realizes, the rest reprices at the fill. */
  lemma {:induction false} ShortFlipIdentity(quote: real, avg: real, base: real, price: real, qty: real)
    ensures (avg - price) * -base == ((quote - price * qty) + price * (base + qty)) - (quote + avg * base)
  {
  }

  /** Selling past a long: only the held amount realizes, the rest reprices at the fill. */
  lemma {:induction false} LongFlipIdentity(quote: real, avg: real, base: real, price: real, qty: real)
    ensures (price - avg) * base == ((quote + price * qty) + price * (base - qty)) - (quote + avg * base)
  {
  }

  lemma {:induction false} ShortFlipRealizes(l: Ledger, f: Fill)
    requires f.side == Buy && l.base < 0.0 && l.base + f.quantity > 0.0
    requires f.quoteQuantity == f.price * f.quantity
    ensures Step(l, f).profit == CostValue(Step(l, f).ledger) - CostValue(l)
    ensures Step(l, f).netProfit == ApproximateValue(Step(l, f).ledger) - ApproximateValue(l) - f.feeInQuote
  {
    BuyFlipsShort(l, f);
    ShortFlipIdentity(l.quote, l.averageCost, l.base, f.price, f.quantity);
    ShortFlipIdentity(l.quote, l.approximateAverageCost, l.base, f.price, f.quantity);
  }

  lemma {:induction false} ReduceRealizes(l: Ledger, f: Fill)
    requires f.side == Sell && l.base > 0.0 && l.base - f.quantity >= 0.0
    requires f.quoteQuantity == f.price * f.quantity
    ensures Step(l, f).profit == CostValue(Step(l, f).ledger) - CostValue(l)
    ensures Step(l, f).netProfit == ApproximateValue(Step(l, f).ledger) - ApproximateValue(l) - f.feeInQuote
  {
    SellReducesLong(l, f);
    ReduceIdentity(l.quote, l.averageCost, l.base, f.price, f.quantity);
    ReduceIdentity(l.quote, l.approximateAverageCost, l.base, f.price, f.quantity);
  }

  lemma {:induction false} LongFlipRealizes(l: Ledger, f: Fill)
    requires f.side == Sell && l.base > 0.0 && l.base - f.quantity < 0.0
    requires f.quoteQuantity == f.price * f.quantity
    ensures Step(l, f).profit == CostValue(Step(l, f).ledger) - CostValue(l)
    ensures Step(l, f).netProfit == ApproximateValue(Step(l, f).ledger) - ApproximateValue(l) - f.feeInQuote
  {
    SellFlipsLong(l, f);
    LongFlipIdentity(l.quote, l.averageCost, l.base, f.price, f.quantity);
    LongFlipIdentity(l.quote, l.approximateAverageCost, l.base, f.price, f.quantity);
  }

  /** The buy half of `StepRealizesCostValue`. */
  lemma {:induction false} BuyRealizesCostValue(l: Ledger, f: Fill)
    requires Divisible(l, f) && f.side == Buy
    requires f.quoteQuantity == f.price * f.quantity
    ensures Step(l, f).profit == CostValue(Step(l, f).ledger) - CostValue(l)
    ensures Step(l, f).netProfit == ApproximateValue(Step(l, f).ledger) - ApproximateValue(l) - f.feeInQuote
  {
    if l.base < 0.0 {
      if l.base + f.quantity > 0.0 {
        ShortFlipRealizes(l, f);
      } else {
        CoverRealizes(l, f);
      }
    } else {
      BuyExtendsLong(l, f);
    }
  }

  /** The sell half of `StepRealizesCostValue`. */
  lemma {:induction false} SellRealizesCostValue(l: Ledger, f: Fill)
    requires Divisible(l, f) && f.side == Sell
    requires f.quoteQuantity == f.price * f.quantity
    ensures Step(l, f).profit == CostValue(Step(l, f).ledger) - CostValue(l)
    ensures Step(l, f).netProfit == ApproximateValue(Step(l, f).ledger) - ApproximateValue(l) - f.feeInQuote
  {
    if l.base > 0.0 {
      if l.base - f.quantity < 0.0 {
        LongFlipRealizes(l, f);
      } else {
        ReduceRealizes(l, f);
      }
    } else {
      SellExtendsShort(l, f);
    }
  }

  /**
   * Realized profit is exactly the change of the position's value at cost: for a buy or a sell
   * whose quote quantity is price × quantity, profit is the change of Quote + AverageCost·Base,
   * and net profit the change of Quote + ApproximateAverageCost·Base less the priced fee.
   * This holds on every branch: extending, covering and flipping.
   */
  lemma {:induction false} StepRealizesCostValue(l: Ledger, f: Fill)
    requires Divisible(l, f) && (f.side == Buy || f.side == Sell)
    requires f.quoteQuantity == f.price * f.quantity
    ensures Step(l, f).profit == CostValue(Step(l, f).ledger) - CostValue(l)
    ensures Step(l, f).netProfit == ApproximateValue(Step(l, f).ledger) - ApproximateValue(l) - f.feeInQuote
  {
    if f.side == Buy {
      BuyRealizesCostValue(l, f);
    } else {
      SellRealizesCostValue(l, f);
    }
  }

  /** Every fill of the sequence can be applied in turn. */
  predicate Replayable(l: Ledger, fs: seq<Fill>)
    decreases |fs|
  {
    fs == [] || (Divisible(l, fs[0]) && Replayable(Step(l, fs[0]).ledger, fs[1..]))
  }

  /** The final amounts and the summed profits of a batch. */
  datatype Totals = Totals(ledger: Ledger, profit: real, netProfit: real)

  /** The fold `AddTrades` performs: profits add up only over fills that reported realized. */
  function Replay(l: Ledger, fs: seq<Fill>): Totals
    requires Replayable(l, fs)
    decreases |fs|
  {
    if fs == [] then Totals(l, 0.0, 0.0)
    else
      var o := Step(l, fs[0]);
      var rest := Replay(o.ledger, fs[1..]);
      Totals(rest.ledger,
             (if o.madeProfit then o.profit else 0.0) + rest.profit,
             (if o.madeProfit then o.netProfit else 0.0) + rest.netProfit)
  }

  /** The fees priced in quote over a batch. */
  function FeesInQuote(fs: seq<Fill>): real
    decreases |fs|
  {
    if fs == [] then 0.0 else fs[0].feeInQuote + FeesInQuote(fs[1..])
  }

  /** Buys and sells whose quote quantity is price × quantity. */
  predicate PricedTrades(fs: seq<Fill>) {
    forall i :: 0 <= i < |fs| ==> (fs[i].side == Buy || fs[i].side == Sell) && fs[i].quoteQuantity == fs[i].price * fs[i].quantity
  }

  /**
   * Over a whole batch, the summed profit is the change of value at cost and the summed net
   * profit the change of value at approximate cost less all priced fees.
   */
  lemma {:induction false} ReplayRealizesCostValue(l: Ledger, fs: seq<Fill>)
    requires Replayable(l, fs) && PricedTrades(fs)
    ensures Replay(l, fs).profit == CostValue(Replay(l, fs).ledger) - CostValue(l)
    ensures Replay(l, fs).netProfit == ApproximateValue(Replay(l, fs).ledger) - ApproximateValue(l) - FeesInQuote(fs)
    decreases |fs|
  {
    if fs != [] {
      var o := Step(l, fs[0]);
      StepRealizesCostValue(l, fs[0]);
      assert PricedTrades(fs[1..]) by {
        forall i | 0 <= i < |fs[1..]| ensures (fs[1..][i].side == Buy || fs[1..][i].side == Sell) && fs[1..][i].quoteQuantity == fs[1..][i].price * fs[1..][i].quantity {
          assert fs[1..][i] == fs[i + 1];
        }
      }
      ReplayRealizesCostValue(o.ledger, fs[1..]);
    }
  }

  /** Long 10 at 100, sell 15 at 110 without fee: profit 100, short 5, averages reset to 110. */
  lemma FlipExample()
    ensures var o := Step(Ledger(10.0, -1000.0, 100.0, 100.0), Fill(Sell, 110.0, 15.0, 1650.0, 0.0));
      o == Outcome(Ledger(-5.0, 650.0, 110.0, 110.0), 100.0, 100.0, true)
  {
  }

  /** Long 10 at 100, sell 4 at 120: profit 80, long 6, average still 100. */
  lemma CloseWithoutFlipExample()
    ensures var o := Step(Ledger(10.0, -1000.0, 100.0, 100.0), Fill(Sell, 120.0, 4.0, 480.0, 0.0));
      o == Outcome(Ledger(6.0, -520.0, 100.0, 100.0), 80.0, 80.0, true)
  {
  }

  /** From flat, buy 5 at 100 then 5 at 200: average 150 on a long of 10, nothing realized. */
  lemma AccumulationExample()
    ensures var first := Step(Ledger(0.0, 0.0, 0.0, 0.0), Fill(Buy, 100.0, 5.0, 500.0, 0.0));
      && first == Outcome(Ledger(5.0, -500.0, 100.0, 100.0), 0.0, 0.0, false)
      && Step(first.ledger, Fill(Buy, 200.0, 5.0, 1000.0, 0.0)) == Outcome(Ledger(10.0, -1500.0, 150.0, 150.0), 0.0, 0.0, false)
  {
  }

  /** The fills of a batch of trades under one fee configuration, in order. */
  function FillsOf(baseCurrency: string, quoteCurrency: string, rates: map<ExchangeName, ExchangeFee>, trades: seq<Trade>): (fs: seq<Fill>)
    ensures |fs| == |trades|
    ensures forall i :: 0 <= i < |trades| ==> fs[i] == FeeAdjusted(baseCurrency, quoteCurrency, rates, trades[i])
  {
    seq(|trades|, i requires 0 <= i < |trades| => FeeAdjusted(baseCurrency, quoteCurrency, rates, trades[i]))
  }

  /** `engine.Position`. */
  class Position {
    var symbol: string
    var baseCurrency: string
    var quoteCurrency: string
    var base: real
    var quote: real
    var averageCost: real
    var approximateAverageCost: real
    var exchangeFeeRates: map<ExchangeName, ExchangeFee>

    /** `NewPosition`: a flat position with no fee rates. */
    constructor (symbol: string, base: string, quote: string)
      ensures this.symbol == symbol && baseCurrency == base && quoteCurrency == quote
      ensures Snapshot() == Ledger(0.0, 0.0, 0.0, 0.0) && exchangeFeeRates == map[]
    {
      this.symbol := symbol;
      baseCurrency := base;
      quoteCurrency := quote;
      this.base := 0.0;
      this.quote := 0.0;
      averageCost := 0.0;
      approximateAverageCost := 0.0;
      exchangeFeeRates := map[];
    }

    /** `NewPositionFromMarket`: a flat position for the market's symbol and currencies. */
    constructor FromMarket(market: Market)
      ensures symbol == market.symbol && baseCurrency == market.baseCurrency && quoteCurrency == market.quoteCurrency
      ensures Snapshot() == Ledger(0.0, 0.0, 0.0, 0.0) && exchangeFeeRates == map[]
    {
      symbol := market.symbol;
      baseCurrency := market.baseCurrency;
      quoteCurrency := market.quoteCurrency;
      base := 0.0;
      quote := 0.0;
      averageCost := 0.0;
      approximateAverageCost := 0.0;
      exchangeFeeRates := map[];
    }

    function Snapshot(): Ledger
      reads this
    {
      Ledger(base, quote, averageCost, approximateAverageCost)
    }

    /** The fee-adjusted view of a trade under this position's currencies and fee rates. */
    function FillOf(t: Trade): Fill
      reads this
    {
      FeeAdjusted(baseCurrency, quoteCurrency, exchangeFeeRates, t)
    }

    /** `Position.Reset`: Base, Quote and AverageCost go to zero; the approximate average cost stays. */
    method Reset()
      modifies this
      ensures Snapshot() == Ledger(0.0, 0.0, 0.0, old(approximateAverageCost))
      ensures symbol == old(symbol) && baseCurrency == old(baseCurrency) && quoteCurrency == old(quoteCurrency)
      ensures exchangeFeeRates == old(exchangeFeeRates)
    {
      base := 0.0;
      quote := 0.0;
      averageCost := 0.0;
    }

    /** `Position.SetExchangeFeeRate`: records (or replaces) the exchange's rates. */
    method SetExchangeFeeRate(ex: ExchangeName, exchangeFee: ExchangeFee)
      modifies this
      ensures exchangeFeeRates == old(exchangeFeeRates)[ex := exchangeFee]
      ensures Snapshot() == old(Snapshot())
      ensures symbol == old(symbol) && baseCurrency == old(baseCurrency) && quoteCurrency == old(quoteCurrency)
    {
      exchangeFeeRates := exchangeFeeRates[ex := exchangeFee];
    }

    /**
     * The fee step at the start of `Position.AddTrade`: the trade's quantity and quote quantity
     * net of a fee paid in base or quote, and a fee paid elsewhere priced in quote.
     */
    method AdjustForFee(t: Trade) returns (quantity: real, quoteQuantity: real, feeInQuote: real)
      ensures Fill(t.side, t.price, quantity, quoteQuantity, feeInQuote) == FillOf(t)
    {
      quantity := t.quantity;
      quoteQuantity := t.quoteQuantity;
      var fee := t.fee;

      feeInQuote := 0.0;
      if t.feeCurrency == baseCurrency {
        quantity := quantity - fee;
      } else if t.feeCurrency == quoteCurrency {
        quoteQuantity := quoteQuantity - fee;
      } else if t.exchange in exchangeFeeRates {
        var exchangeFee := exchangeFeeRates[t.exchange];
        if t.isMaker {
          feeInQuote := feeInQuote + exchangeFee.makerFeeRate * quoteQuantity;
        } else {
          feeInQuote := feeInQuote + exchangeFee.takerFeeRate * quoteQuantity;
        }
      }
    }

    /** `Position.AddTrade`: folds one trade into the position and reports what it realized. */
    method AddTrade(t: Trade) returns (profit: real, netProfit: real, madeProfit: bool)
      requires Divisible(Snapshot(), FillOf(t))
      modifies this
      ensures Outcome(Snapshot(), profit, netProfit, madeProfit) == Step(old(Snapshot()), old(FillOf(t)))
      ensures symbol == old(symbol) && baseCurrency == old(baseCurrency) && quoteCurrency == old(quoteCurrency)
      ensures exchangeFeeRates == old(exchangeFeeRates)
    {
      var price := t.price;
      var quantity, quoteQuantity, feeInQuote := AdjustForFee(t);
      if t.side == Buy {
        if base < 0.0 {
          if base + quantity > 0.0 {
            // convert the short position to a long position
            profit := ShortGain(averageCost, price, -base);
            netProfit := ShortGain(approximateAverageCost, price, -base) - feeInQuote;
            base := base + quantity;
            quote := quote - quoteQuantity;
            averageCost := price;
            approximateAverageCost := price;
            return profit, netProfit, true;
          } else {
            // cover part of the short position
            base := base + quantity;
            quote := quote - quoteQuantity;
            profit := ShortGain(averageCost, price, quantity);
            netProfit := ShortGain(approximateAverageCost, price, quantity) - feeInQuote;
            return profit, netProfit, true;
          }
        }
        approximateAverageCost := WeightedAverage(approximateAverageCost, base, quoteQuantity + feeInQuote, base + quantity);
        averageCost := WeightedAverage(averageCost, base, quoteQuantity, base + quantity);
        base := base + quantity;
        quote := quote - quoteQuantity;
        return 0.0, 0.0, false;
      } else if t.side == Sell {
        if base > 0.0 {
          if base - quantity < 0.0 {
            // convert the long position to a short position
            profit := LongGain(averageCost, price, base);
            netProfit := LongGain(approximateAverageCost, price, base) - feeInQuote;
            base := base - quantity;
            quote := quote + quoteQuantity;
            averageCost := price;
            approximateAverageCost := price;
            return profit, netProfit, true;
          } else {
            base := base - quantity;
            quote := quote + quoteQuantity;
            profit := LongGain(averageCost, price, quantity);
            netProfit := LongGain(approximateAverageCost, price, quantity) - feeInQuote;
            return profit, netProfit, true;
          }
        }
        approximateAverageCost := WeightedAverage(approximateAverageCost, -base, quoteQuantity - feeInQuote, -base + quantity);
        averageCost := WeightedAverage(averageCost, -base, quoteQuantity, -base + quantity);
        base := base - quantity;
        quote := quote + quoteQuantity;
        return 0.0, 0.0, false;
      }
      return 0.0, 0.0, false;
    }

    /**
     * `Position.AddTrades`: applies the trades in order and sums profit and net profit over those
     * that reported realized; the flag says the summed profit is non-zero.
     */
    method AddTrades(trades: seq<Trade>) returns (totalProfit: real, totalNetProfit: real, madeProfit: bool)
      requires Replayable(Snapshot(), FillsOf(baseCurrency, quoteCurrency, exchangeFeeRates, trades))
      modifies this
      ensures var r := Replay(old(Snapshot()), FillsOf(old(baseCurrency), old(quoteCurrency), old(exchangeFeeRates), trades));
        Snapshot() == r.ledger && totalProfit == r.profit && totalNetProfit == r.netProfit
      ensures madeProfit == (totalProfit != 0.0)
      ensures symbol == old(symbol) && baseCurrency == old(baseCurrency) && quoteCurrency == old(quoteCurrency)
      ensures exchangeFeeRates == old(exchangeFeeRates)
    {
      ghost var fs := FillsOf(baseCurrency, quoteCurrency, exchangeFeeRates, trades);
      ghost var whole := Replay(Snapshot(), fs);
      totalProfit, totalNetProfit := 0.0, 0.0;
      var i := 0;
      while i < |trades|
        invariant 0 <= i <= |trades|
        invariant symbol == old(symbol) && baseCurrency == old(baseCurrency) && quoteCurrency == old(quoteCurrency)
        invariant exchangeFeeRates == old(exchangeFeeRates)
        invariant Replayable(Snapshot(), fs[i..])
        invariant whole.ledger == Replay(Snapshot(), fs[i..]).ledger
        invariant whole.profit == totalProfit + Replay(Snapshot(), fs[i..]).profit
        invariant whole.netProfit == totalNetProfit + Replay(Snapshot(), fs[i..]).netProfit
      {
        assert fs[i..][1..] == fs[i + 1..];
        var profit, netProfit, realized := AddTrade(trades[i]);
        if realized {
          totalProfit := totalProfit + profit;
          totalNetProfit := totalNetProfit + netProfit;
        }
        i := i + 1;
      }
      madeProfit := totalProfit != 0.0;
    }
  }
}
