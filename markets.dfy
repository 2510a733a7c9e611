/** `pkg/types/market.go`: the trading rules of one symbol (declarations only). */
module Markets {
  datatype Market = Market(
    symbol: string,
    localSymbol: string,
    pricePrecision: int,
    volumePrecision: int,
    quoteCurrency: string,
    baseCurrency: string,
    minNotional: real,
    minAmount: real,
    minQuantity: real,
    maxQuantity: real,
    stepSize: real,
    minPrice: real,
    maxPrice: real,
    tickSize: real)
}
