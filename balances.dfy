/** `pkg/types/balance.go`: per-currency balances and the balance map. */
module Balances {

  /** One currency's balance; the Go fixed-point fields are taken as exact reals. */
  datatype Balance = Balance(
    currency: string,
    available: real,
    locked: real,
    borrowed: real,
    interest: real,
    netAsset: real,
    maxWithdrawAmount: real)
  {
    /** `Balance.Total`: what is held, free or reserved for orders. */
    function Total(): real {
      available + locked
    }

    /** `Balance.Debt`: what is owed, principal and interest. */
    function Debt(): real {
      borrowed + interest
    }

    /** `Balance.Net`: what is held minus what is owed. */
    function Net(): (n: real)
      ensures n == available + locked - borrowed - interest
    {
      Total() - Debt()
    }

    /**
     * `Balance.Add`: the five amounts add field by field; the currency and the maximum
     * withdrawal amount are those of the receiver.
     */
    function Add(b2: Balance): (r: Balance)
      ensures r.currency == currency && r.maxWithdrawAmount == maxWithdrawAmount
      ensures r.available == available + b2.available && r.locked == locked + b2.locked
      ensures r.borrowed == borrowed + b2.borrowed && r.interest == interest + b2.interest
      ensures r.netAsset == netAsset + b2.netAsset
    {
      this.(available := available + b2.available,
            locked := locked + b2.locked,
            borrowed := borrowed + b2.borrowed,
            netAsset := netAsset + b2.netAsset,
            interest := interest + b2.interest)
    }
  }

  /** Total, Debt and Net are additive over `Add`. */
  lemma {:induction false} AddIsAdditive(b: Balance, b2: Balance)
    ensures b.Add(b2).Total() == b.Total() + b2.Total()
    ensures b.Add(b2).Debt() == b.Debt() + b2.Debt()
    ensures b.Add(b2).Net() == b.Net() + b2.Net()
  {
  }

  type BalanceMap = map<string, Balance>

  /** The entries `NotZero` drops: nothing held, nothing owed, nothing net. */
  predicate IsZero(b: Balance) {
    b.Total() == 0.0 && b.Debt() == 0.0 && b.Net() == 0.0
  }

  /** The entries `Debts` keeps: something borrowed or some interest accrued. */
  predicate HasDebt(b: Balance) {
    b.borrowed > 0.0 || b.interest > 0.0
  }

  /** The map `NotZero` builds. */
  function NonZeroEntries(m: BalanceMap): BalanceMap {
    map c | c in m && !IsZero(m[c]) :: m[c]
  }

  /** The map `Debts` builds. */
  function DebtEntries(m: BalanceMap): BalanceMap {
    map c | c in m && HasDebt(m[c]) :: m[c]
  }

  /** `BalanceMap.NotZero`: a new map with every entry that holds, owes or nets something. */
  method NotZero(m: BalanceMap) returns (bm: BalanceMap)
    ensures bm == NonZeroEntries(m)
  {
    bm := map[];
    var todo := m.Keys;
    while todo != {}
      invariant todo <= m.Keys
      invariant bm == map c | c in m && c !in todo && !IsZero(m[c]) :: m[c]
      decreases todo
    {
      var c :| c in todo;
      if !IsZero(m[c]) {
        bm := bm[c := m[c]];
      }
      todo := todo - {c};
    }
  }

  /** `BalanceMap.Debts`: a new map with every entry that has a positive borrowed amount or interest. */
  method Debts(m: BalanceMap) returns (bm: BalanceMap)
    ensures bm == DebtEntries(m)
  {
    bm := map[];
    var todo := m.Keys;
    while todo != {}
      invariant todo <= m.Keys
      invariant bm == map c | c in m && c !in todo && HasDebt(m[c]) :: m[c]
      decreases todo
    {
      var c :| c in todo;
      if HasDebt(m[c]) {
        bm := bm[c := m[c]];
      }
      todo := todo - {c};
    }
  }

  /** `BalanceMap.Copy`: a new map equal to the receiver. */
  method Copy(m: BalanceMap) returns (d: BalanceMap)
    ensures d == m
  {
    d := map[];
    var todo := m.Keys;
    while todo != {}
      invariant todo <= m.Keys
      invariant d == map c | c in m && c !in todo :: m[c]
      decreases todo
    {
      var c :| c in todo;
      d := d[c := m[c]];
      todo := todo - {c};
    }
  }

  /**
   * `NotZero` keeps exactly the non-zero entries with their values, so it is idempotent:
   * filtering a filtered map changes nothing.
   */
  lemma {:induction false} NotZeroIdempotent(m: BalanceMap)
    ensures forall c :: c in NonZeroEntries(m) <==> c in m && !IsZero(m[c])
    ensures forall c :: c in NonZeroEntries(m) ==> NonZeroEntries(m)[c] == m[c]
    ensures NonZeroEntries(NonZeroEntries(m)) == NonZeroEntries(m)
  {
  }

  /** `Debts` keeps exactly the indebted entries with their values. */
  lemma {:induction false} DebtsExact(m: BalanceMap)
    ensures forall c :: c in DebtEntries(m) <==> c in m && HasDebt(m[c])
    ensures forall c :: c in DebtEntries(m) ==> DebtEntries(m)[c] == m[c]
    ensures DebtEntries(DebtEntries(m)) == DebtEntries(m)
  {
  }

  /**
   * When no entry has a negative borrowed amount or interest, every indebted entry
   * is also one that `NotZero` keeps.
   */
  lemma {:induction false} DebtsAreNotZero(m: BalanceMap)
    requires forall c :: c in m ==> m[c].borrowed >= 0.0 && m[c].interest >= 0.0
    ensures DebtEntries(m).Keys <= NonZeroEntries(m).Keys
  {
  }
}
