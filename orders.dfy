/** `pkg/types/order.go`: submitted orders, orders, and the margin side-effect setting. */
module Orders {
  import opened Wrappers
  import opened Text
  import opened Sides
  import opened Exchanges
  import opened Markets

  /** `types.MarginOrderSideEffectType` is a Go string type. */
  datatype MarginOrderSideEffectType = MarginOrderSideEffectType(name: string)

  const NoSideEffect := MarginOrderSideEffectType("NO_SIDE_EFFECT")
  const MarginBuy := MarginOrderSideEffectType("MARGIN_BUY")
  const AutoRepay := MarginOrderSideEffectType("AUTO_REPAY")

  predicate IsNoSideEffectAlias(u: string) {
    u == "NO_SIDE_EFFECT" || u == ""
  }

  predicate IsMarginBuyAlias(u: string) {
    u == "MARGIN_BUY" || u == "BORROW" || u == "MARGINBUY"
  }

  predicate IsAutoRepayAlias(u: string) {
    u == "AUTO_REPAY" || u == "REPAY" || u == "AUTOREPAY"
  }

  /**
   * `MarginOrderSideEffectType.UnmarshalJSON` after the JSON string has been decoded: the new
   * value of the target and the error. The input is upper-cased first; a string that is none of
   * the accepted aliases is an error and leaves the target as it was.
   */
  function UnmarshalSideEffect(current: MarginOrderSideEffectType, s: string): (r: (MarginOrderSideEffectType, Option<string>))
    ensures r.1.None? <==> IsNoSideEffectAlias(ToUpper(s)) || IsMarginBuyAlias(ToUpper(s)) || IsAutoRepayAlias(ToUpper(s))
    ensures r.1.None? ==> r.0 == NoSideEffect || r.0 == MarginBuy || r.0 == AutoRepay
    ensures r.1.Some? ==> r.0 == current
  {
    var u := ToUpper(s);
    if IsNoSideEffectAlias(u) then (NoSideEffect, None)
    else if IsMarginBuyAlias(u) then (MarginBuy, None)
    else if IsAutoRepayAlias(u) then (AutoRepay, None)
    else (current, Some("invalid side effect type: \"" + s + "\""))
  }

  lemma ToUpperIdempotent(s: string)
    ensures ToUpper(ToUpper(s)) == ToUpper(s)
  {
  }

  /** The accepted spellings of no side effect, in lower case. */
  lemma {:induction false} NoSideEffectAliases(current: MarginOrderSideEffectType)
    ensures UnmarshalSideEffect(current, "") == (NoSideEffect, None)
    ensures UnmarshalSideEffect(current, "no_side_effect") == (NoSideEffect, None)
  {
    assert ToUpper("no_side_effect") == "NO_SIDE_EFFECT";
  }

  /** The accepted spellings of margin buy, in lower case. */
  lemma {:induction false} MarginBuyAliases(current: MarginOrderSideEffectType)
    ensures UnmarshalSideEffect(current, "margin_buy") == (MarginBuy, None)
    ensures UnmarshalSideEffect(current, "borrow") == (MarginBuy, None)
    ensures UnmarshalSideEffect(current, "marginbuy") == (MarginBuy, None)
  {
    assert ToUpper("margin_buy") == "MARGIN_BUY";
    assert ToUpper("borrow") == "BORROW";
    assert ToUpper("marginbuy") == "MARGINBUY";
  }

  /** The accepted spellings of auto repay, in lower case. */
  lemma {:induction false} AutoRepayAliases(current: MarginOrderSideEffectType)
    ensures UnmarshalSideEffect(current, "auto_repay") == (AutoRepay, None)
    ensures UnmarshalSideEffect(current, "repay") == (AutoRepay, None)
    ensures UnmarshalSideEffect(current, "autorepay") == (AutoRepay, None)
  {
    assert ToUpper("auto_repay") == "AUTO_REPAY";
    assert ToUpper("repay") == "REPAY";
    assert ToUpper("autorepay") == "AUTOREPAY";
  }

  /** Decoding ignores case: a string and its upper-case form decode alike. */
  lemma {:induction false} SideEffectIgnoresCase(current: MarginOrderSideEffectType, s: string)
    ensures UnmarshalSideEffect(current, s).0 == UnmarshalSideEffect(current, ToUpper(s)).0
    ensures UnmarshalSideEffect(current, s).1.None? == UnmarshalSideEffect(current, ToUpper(s)).1.None?
  {
    ToUpperIdempotent(s);
  }

  /** `types.OrderType`, a Go string type. */
  datatype OrderType = OrderType(name: string)

  /** `types.OrderStatus`, a Go string type. */
  datatype OrderStatus = OrderStatus(name: string)

  const StatusNew := OrderStatus("NEW")
  const StatusFilled := OrderStatus("FILLED")
  const StatusPartiallyFilled := OrderStatus("PARTIALLY_FILLED")
  const StatusCanceled := OrderStatus("CANCELED")
  const StatusRejected := OrderStatus("REJECTED")

  /** `types.SubmitOrder`: an order as it is sent to the exchange. */
  datatype SubmitOrder = SubmitOrder(
    clientOrderId: string,
    symbol: string,
    side: SideType,
    orderType: OrderType,
    quantity: real,
    price: real,
    stopPrice: real,
    market: Market,
    stopPriceString: string,
    priceString: string,
    quantityString: string,
    timeInForce: string,
    groupId: nat,
    marginSideEffect: MarginOrderSideEffectType)

  /** `types.Order`: a submitted order together with the exchange's view of it. */
  datatype Order = Order(
    submitOrder: SubmitOrder,
    exchange: ExchangeName,
    gid: nat,
    orderId: nat,
    status: OrderStatus,
    executedQuantity: real,
    isWorking: bool,
    creationTime: int,
    updateTime: int,
    isMargin: bool,
    isIsolated: bool)
  {
    /**
     * `Order.Backup`: the order form that re-submits what is left of this order — the
     * unexecuted quantity, no client order ID (it cannot be reused), everything else as submitted.
     */
    function Backup(): (so: SubmitOrder)
      ensures so.quantity == submitOrder.quantity - executedQuantity
      ensures so.clientOrderId == ""
      ensures so.(quantity := submitOrder.quantity, clientOrderId := submitOrder.clientOrderId) == submitOrder
    {
      submitOrder.(quantity := submitOrder.quantity - executedQuantity, clientOrderId := "")
    }
  }
}
