/**
 * `queryTradesSQL` of `pkg/service/trade.go`: the text of the trade-listing query built from
 * `QueryTradesOptions` (exchange and symbol filters, a global-ID cursor, the ordering and a limit).
 */
module TradeQueries {
  import opened Text
  import opened Exchanges
  import opened Seqs

  /** `QueryTradesOptions`; `Ordering` is the caller's free text ("ASC", "desc", anything else). */
  datatype QueryTradesOptions = QueryTradesOptions(exchange: ExchangeName, symbol: string, lastGID: int, ordering: string, limit: int)

  const SelectTrades := "SELECT * FROM trades"
  const ExchangeCondition := "exchange = :exchange"
  const SymbolCondition := "symbol = :symbol"
  const AfterGid := "gid > :gid"
  const BeforeGid := "gid < :gid"

  /** The ordering keyword: the upper-cased request when it is "ASC" or "DESC", and "ASC" otherwise. */
  function Ordering(requested: string): (o: string)
    ensures o == "ASC" || o == "DESC"
    ensures o == "DESC" <==> ToUpper(requested) == "DESC"
    ensures o == "ASC" <==> ToUpper(requested) != "DESC"
  {
    var v := ToUpper(requested);
    if v == "DESC" || v == "ASC" then v else "ASC"
  }

  /** Where each condition goes: exchange, then symbol, then the global-ID cursor. */
  function Rank(condition: string): nat {
    if condition == ExchangeCondition then 0 else if condition == SymbolCondition then 1 else 2
  }

  /** The `where` list: one condition per filter that is set, the cursor test following the ordering. */
  function Conditions(opts: QueryTradesOptions, ordering: string): (where: seq<string>)
    requires ordering == "ASC" || ordering == "DESC"
    ensures ExchangeCondition in where <==> |opts.exchange.name| > 0
    ensures SymbolCondition in where <==> |opts.symbol| > 0
    ensures AfterGid in where <==> opts.lastGID > 0 && ordering == "ASC"
    ensures BeforeGid in where <==> opts.lastGID > 0 && ordering == "DESC"
    ensures forall c :: c in where ==> c in {ExchangeCondition, SymbolCondition, AfterGid, BeforeGid}
    ensures where != [] <==> |opts.exchange.name| > 0 || |opts.symbol| > 0 || opts.lastGID > 0
    ensures forall i, j :: 0 <= i < j < |where| ==> Rank(where[i]) < Rank(where[j])
  {
    var byExchange := if |opts.exchange.name| > 0 then [ExchangeCondition] else [];
    var bySymbol := if |opts.symbol| > 0 then [SymbolCondition] else [];
    var byGid :=
      if opts.lastGID > 0 then
        (if ordering == "ASC" then [AfterGid] else [BeforeGid])
      else [];
    byExchange + bySymbol + byGid
  }

  /** ` WHERE ` and the conditions joined by ` AND `, or nothing without conditions. */
  function WhereClause(where: seq<string>): string {
    if |where| > 0 then " WHERE " + Join(where, " AND ") else ""
  }

  function OrderClause(ordering: string): string {
    " ORDER BY gid " + ordering
  }

  /** ` LIMIT n` for a positive limit, nothing otherwise. */
  function LimitClause(limit: int): string {
    if limit > 0 then " LIMIT " + NatToString(limit) else ""
  }

  /** `queryTradesSQL`. */
  function QueryTradesSQL(opts: QueryTradesOptions): (sql: string)
  {
    var ordering := Ordering(opts.ordering);
    SelectTrades + WhereClause(Conditions(opts, ordering)) + OrderClause(ordering) + LimitClause(opts.limit)
  }

  lemma {:induction false} PrefixOfAppend(p: string, rest: string)
    ensures HasPrefix(p + rest, p)
  {
    assert (p + rest)[..|p|] == p;
  }

  lemma {:induction false} SuffixOfAppend(rest: string, p: string)
    ensures HasSuffix(rest + p, p)
  {
    assert (rest + p)[|rest|..] == p;
  }

  /** Beyond a shared head, one text starts with another exactly when their tails do. */
  lemma {:induction false} PrefixAfter(head: string, rest: string, p: string)
    ensures HasPrefix(head + rest, head + p) <==> HasPrefix(rest, p)
  {
    if |p| <= |rest| {
      assert (head + rest)[..|head| + |p|] == head + rest[..|p|];
      if HasPrefix(head + rest, head + p) {
        assert rest[..|p|] == (head + rest)[..|head| + |p|][|head|..];
      }
    }
  }

  /** The text cut after the table name and before the limit. */
  lemma {:induction false} QueryTradesParts(opts: QueryTradesOptions)
    ensures var o := Ordering(opts.ordering);
      var where := WhereClause(Conditions(opts, o));
      && QueryTradesSQL(opts) == SelectTrades + (where + OrderClause(o) + LimitClause(opts.limit))
      && QueryTradesSQL(opts) == SelectTrades + where + OrderClause(o) + LimitClause(opts.limit)
      && QueryTradesSQL(opts) == SelectTrades + where + (OrderClause(o) + LimitClause(opts.limit))
  {
    var o := Ordering(opts.ordering);
    var where := WhereClause(Conditions(opts, o));
    AppendAssoc(SelectTrades, where, OrderClause(o));
    AppendAssoc(SelectTrades, where + OrderClause(o), LimitClause(opts.limit));
    AppendAssoc(SelectTrades + where, OrderClause(o), LimitClause(opts.limit));
  }

  /** A non-empty WHERE clause starts the rest of the text with " WHERE ". */
  lemma {:induction false} WhereClauseLeads(where: seq<string>, a: string, b: string)
    requires where != []
    ensures HasPrefix(WhereClause(where) + a + b, " WHERE ")
  {
    var joined := Join(where, " AND ");
    assert WhereClause(where) + a + b == " WHERE " + (joined + a + b);
    PrefixOfAppend(" WHERE ", joined + a + b);
  }

  /** The ORDER BY clause does not start with " WHERE ". */
  lemma {:induction false} OrderClauseLeads(ordering: string, limit: int)
    ensures !HasPrefix(OrderClause(ordering) + LimitClause(limit), " WHERE ")
  {
    assert (OrderClause(ordering) + LimitClause(limit))[1] == 'O';
  }

  /** Whatever the conditions, " WHERE " follows the table name exactly when there are some. */
  lemma {:induction false} WhereIffConditions(where: seq<string>, ordering: string, limit: int)
    ensures HasPrefix(SelectTrades + WhereClause(where) + OrderClause(ordering) + LimitClause(limit), SelectTrades + " WHERE ")
      <==> where != []
  {
    var rest := WhereClause(where) + OrderClause(ordering) + LimitClause(limit);
    AppendAssoc(SelectTrades, WhereClause(where), OrderClause(ordering));
    AppendAssoc(SelectTrades, WhereClause(where) + OrderClause(ordering), LimitClause(limit));
    PrefixAfter(SelectTrades, rest, " WHERE ");
    if where == [] {
      assert rest == OrderClause(ordering) + LimitClause(limit);
      OrderClauseLeads(ordering, limit);
    } else {
      WhereClauseLeads(where, OrderClause(ordering), LimitClause(limit));
    }
  }

  /** A WHERE clause follows the table name exactly when the exchange, the symbol or a positive cursor is given. */
  lemma {:induction false} QueryTradesWhere(opts: QueryTradesOptions)
    ensures HasPrefix(QueryTradesSQL(opts), SelectTrades + " WHERE ")
      <==> |opts.exchange.name| > 0 || |opts.symbol| > 0 || opts.lastGID > 0
  {
    var o := Ordering(opts.ordering);
    WhereIffConditions(Conditions(opts, o), o, opts.limit);
  }

  /** With a positive limit the text ends with the ORDER BY clause followed by ` LIMIT n`. */
  lemma {:induction false} QueryTradesLimited(opts: QueryTradesOptions)
    requires opts.limit > 0
    ensures HasSuffix(QueryTradesSQL(opts), " ORDER BY gid " + Ordering(opts.ordering) + " LIMIT " + NatToString(opts.limit))
  {
    var o := Ordering(opts.ordering);
    var selected := SelectTrades + WhereClause(Conditions(opts, o));
    var tail := OrderClause(o) + LimitClause(opts.limit);
    QueryTradesParts(opts);
    AppendAssoc(OrderClause(o), " LIMIT ", NatToString(opts.limit));
    SuffixOfAppend(selected, tail);
  }

  /** Without a positive limit the text ends with the ORDER BY clause. */
  lemma {:induction false} QueryTradesUnlimited(opts: QueryTradesOptions)
    requires opts.limit <= 0
    ensures HasSuffix(QueryTradesSQL(opts), " ORDER BY gid " + Ordering(opts.ordering))
  {
    var o := Ordering(opts.ordering);
    var selected := SelectTrades + WhereClause(Conditions(opts, o));
    assert QueryTradesSQL(opts) == selected + OrderClause(o);
    SuffixOfAppend(selected, OrderClause(o));
  }

  /** A positive limit ends the text in a digit, a missing one ends it in the ordering keyword. */
  lemma {:induction false} LimitIffPositive(opts: QueryTradesOptions)
    ensures var sql := QueryTradesSQL(opts);
      opts.limit > 0 <==> IsDigit(sql[|sql| - 1])
  {
    var o := Ordering(opts.ordering);
    var sql := QueryTradesSQL(opts);
    var head := SelectTrades + WhereClause(Conditions(opts, o)) + OrderClause(o);
    QueryTradesParts(opts);
    if opts.limit > 0 {
      var digits := NatToString(opts.limit);
      assert LimitClause(opts.limit) == " LIMIT " + digits;
      assert sql[|sql| - 1] == digits[|digits| - 1];
    } else {
      assert sql == head;
      assert sql[|sql| - 1] == o[|o| - 1];
    }
  }
}
