/** `pkg/types/side.go`: the side of an order or a trade. */
module Sides {
  import opened Wrappers
  import opened Text

  /** `types.SideType` is a Go string type: any string is a side, four of them are named. */
  datatype SideType = SideType(name: string) {
    /** `SideType.String` gives the underlying string back. */
    function String(): string {
      name
    }

    /** `SideType.Reverse`: the opposite side for BUY and SELL, the side itself otherwise. */
    function Reverse(): (r: SideType)
      ensures this == Buy ==> r == Sell
      ensures this == Sell ==> r == Buy
      ensures this != Buy && this != Sell ==> r == this
    {
      if this == Buy then Sell
      else if this == Sell then Buy
      else this
    }
  }

  const Buy := SideType("BUY")
  const Sell := SideType("SELL")
  const Self := SideType("SELF")
  /** Only used in configuration. */
  const Both := SideType("BOTH")

  const ErrInvalidSideType := "invalid side type"

  /**
   * `StrToSideType`: the named side whose name equals `s` up to case (SELF is not accepted);
   * otherwise the empty side and `ErrInvalidSideType`.
   */
  function StrToSideType(s: string): (r: (SideType, Option<string>))
    ensures r.1.None? ==> (r.0 == Buy || r.0 == Sell || r.0 == Both) && ToLower(r.0.name) == ToLower(s)
    ensures r.1.Some? ==> r.0 == SideType("") && r.1 == Some(ErrInvalidSideType)
    ensures ToLower(s) == "buy" || ToLower(s) == "sell" || ToLower(s) == "both" ==> r.1.None?
  {
    LowerNames();
    match ToLower(s)
    case "buy" => (Buy, None)
    case "sell" => (Sell, None)
    case "both" => (Both, None)
    case _ => (SideType(""), Some(ErrInvalidSideType))
  }

  /**
   * `SideType.UnmarshalJSON` after the JSON string has been decoded: the new value of the
   * target and the error; a rejected string leaves the target as it was.
   */
  function UnmarshalSide(current: SideType, s: string): (r: (SideType, Option<string>))
    ensures r.1 == StrToSideType(s).1
    ensures r.0 == if r.1.None? then StrToSideType(s).0 else current
  {
    var (side, err) := StrToSideType(s);
    if err.Some? then (current, err) else (side, None)
  }

  lemma LowerNames()
    ensures ToLower("BUY") == "buy" && ToLower("SELL") == "sell" && ToLower("BOTH") == "both"
    ensures ToLower("SELF") == "self"
  {
    assert ToLower("BUY") == "buy";
    assert ToLower("SELL") == "sell";
    assert ToLower("BOTH") == "both";
    assert ToLower("SELF") == "self";
  }

  /** Lower-casing twice is lower-casing once. */
  lemma ToLowerIdempotent(s: string)
    ensures ToLower(ToLower(s)) == ToLower(s)
  {
  }

  /** Parsing ignores case: a string and its lower-case form parse alike. */
  lemma {:induction false} StrToSideTypeIgnoresCase(s: string)
    ensures StrToSideType(s) == StrToSideType(ToLower(s))
  {
    ToLowerIdempotent(s);
  }

  /** Every accepted side prints back to a string that parses to it; SELF is refused. */
  lemma {:induction false} StrToSideTypeRoundTrip(side: SideType)
    requires side == Buy || side == Sell || side == Both
    ensures StrToSideType(side.String()) == (side, None)
    ensures StrToSideType(Self.String()) == (SideType(""), Some(ErrInvalidSideType))
  {
    LowerNames();
  }

  /** `Reverse` undoes itself. */
  lemma {:induction false} ReverseInvolution(side: SideType)
    ensures side.Reverse().Reverse() == side
  {
  }
}
