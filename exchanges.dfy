/** `pkg/types/exchange.go`: exchange names. */
module Exchanges {
  import opened Wrappers
  import opened Text

  /** `types.ExchangeName` is a Go string type. */
  datatype ExchangeName = ExchangeName(name: string) {
    /** `ExchangeName.String` gives the underlying string back. */
    function String(): string {
      name
    }
  }

  const Binance := ExchangeName("binance")

  /**
   * `ValidExchangeName`: "binance" or its short form "bn", in any case, name Binance;
   * any other string gives the empty name and an error.
   */
  function ValidExchangeName(a: string): (r: (ExchangeName, Option<string>))
    ensures r.1.None? <==> ToLower(a) == "binance" || ToLower(a) == "bn"
    ensures r.1.None? ==> r.0 == Binance
    ensures r.1.Some? ==> r.0 == ExchangeName("") && r.1 == Some("invalid exchange name: " + a)
  {
    match ToLower(a)
    case "binance" => (Binance, None)
    case "bn" => (Binance, None)
    case _ => (ExchangeName(""), Some("invalid exchange name: " + a))
  }

  /**
   * `ExchangeName.UnmarshalJSON` after the JSON string has been decoded: only the exact,
   * lower-case "binance" is accepted; a rejected string leaves the target as it was.
   */
  function UnmarshalExchangeName(current: ExchangeName, s: string): (r: (ExchangeName, Option<string>))
    ensures r.1.None? <==> s == "binance"
    ensures r.0 == if r.1.None? then Binance else current
  {
    if s == "binance" then (ExchangeName(s), None)
    else (current, Some("unknown or unsupported exchange name: " + s + ", valid names are: max, binance, ftx"))
  }

  /** The strict decoder refuses the upper-case spelling that the lenient parser accepts. */
  lemma {:induction false} UnmarshalIsCaseSensitive(current: ExchangeName)
    ensures UnmarshalExchangeName(current, "BINANCE").0 == current
    ensures UnmarshalExchangeName(current, "BINANCE").1.Some?
    ensures ValidExchangeName("BINANCE") == (Binance, None)
    ensures ValidExchangeName("Bn") == (Binance, None)
  {
    assert "BINANCE"[0] != "binance"[0];
    assert ToLower("BINANCE") == "binance";
    assert ToLower("Bn") == "bn";
  }

  /** The printed name of Binance is accepted by both parsers. */
  lemma {:induction false} ExchangeNameRoundTrip(current: ExchangeName)
    ensures ValidExchangeName(Binance.String()) == (Binance, None)
    ensures UnmarshalExchangeName(current, Binance.String()) == (Binance, None)
  {
    assert ToLower("binance") == "binance";
  }
}
