/** The ClickHouse dialect: the whole statement, rendered clause by clause. */
module ClickHouse {
  import opened Strings
  import opened Options
  import opened BindValues
  import BT = BindText
  import BindLaws
  import opened QueryIr
  import opened ChStatement
  import opened ChBinding
  import opened ChText
  import opened ChLowering
  import Scan = ChScan

  function JoinTexts(items: seq<string>): string {
    if items == [] then ""
    else if |items| == 1 then items[0]
    else items[0] + ", " + JoinTexts(items[1..])
  }

  function OrderTexts(items: seq<OrderItem>): (r: seq<string>)
    ensures |r| == |items|
  {
    if items == [] then []
    else [items[0].expr + (if items[0].asc then " ASC" else " DESC")] + OrderTexts(items[1..])
  }

  lemma {:induction false} TextOfTexts(items: seq<string>)
    ensures SqlText(TextsToks(items)) == JoinTexts(items)
  {
    if |items| == 1 {
      TextOne(TText(items[0]));
    } else if items != [] {
      TextOfTexts(items[1..]);
      TextOne(TText(items[0]));
      TextInfix([TText(items[0])], TComma, TextsToks(items[1..]));
    }
  }

  lemma TextOfOrder(o: OrderItem, tail: seq<Tk>)
    ensures SqlText([TText(o.expr)] + ([TKw(if o.asc then KAsc else KDesc)] + tail)) ==
            o.expr + (if o.asc then " ASC" else " DESC") + SqlText(tail)
  {
    var dir := TKw(if o.asc then KAsc else KDesc);
    DirectionText(o.asc);
    TextTwo(o.expr, dir, tail);
  }

  lemma DirectionText(asc: bool)
    ensures Spell(TKw(if asc then KAsc else KDesc)) == if asc then " ASC" else " DESC"
  {
  }

  lemma TextTwo(s: string, t: Tk, tail: seq<Tk>)
    ensures SqlText([TText(s)] + ([t] + tail)) == s + Spell(t) + SqlText(tail)
  {
    TextCons(TText(s), [t] + tail);
    TextCons(t, tail);
    Assoc(s, Spell(t), SqlText(tail));
  }

  lemma {:induction false} TextOfOrders(items: seq<OrderItem>)
    ensures SqlText(OrdersToks(items)) == JoinTexts(OrderTexts(items))
  {
    if items != [] {
      TextOfOrders(items[1..]);
      Cons(OrderTexts(items)[0], OrderTexts(items[1..]));
      var tail := if |items| == 1 then [] else [TComma] + OrdersToks(items[1..]);
      TextOfOrder(items[0], tail);
      TextCons(TComma, OrdersToks(items[1..]));
      if |items| == 1 {
        assert OrderTexts(items)[0] + "" == OrderTexts(items)[0];
      } else {
        Assoc(OrderTexts(items)[0], ", ", JoinTexts(OrderTexts(items[1..])));
      }
    }
  }

  /** An optional clause and what follows it. */
  lemma TextOfClause(k: Keyword, body: seq<Tk>, empty: bool, tail: seq<Tk>)
    ensures SqlText(ClauseToks(k, body, empty)) == (if empty then "" else SpellKw(k) + SqlText(body))
    ensures SqlText(ClauseToks(k, body, empty) + tail) == SqlText(ClauseToks(k, body, empty)) + SqlText(tail)
  {
    TextCons(TKw(k), body);
    TextAppend(ClauseToks(k, body, empty), tail);
  }

  method RenderLimit(l: Option<Limit>, ghost pq: PQuery, env: Env, ordered: ValueList) returns (r: Rendered)
    requires pq.limit == PutLimit(l, NoValues)
    modifies ordered
    ensures Renders(r, LimitToks(pq), LimitNames(l), true, env, old(ordered.items), ordered.items)
  {
    match l {
      case None => r := Ok("");
      case Some(LimLit(n)) =>
        TextCons(TKw(KLimit), [TText(DecInt(n))]);
        TextOne(TText(DecInt(n)));
        r := Ok(" LIMIT " + DecInt(n));
      case Some(LimBind(n)) =>
        r := RenderBind(n, env, ordered);
        TextCons(TKw(KLimit), [TSlot(SlotOf(n, NoValues))]);
        if r.Ok? {
          r := Ok(" LIMIT " + r.text);
        }
    }
  }

  /** Text in front of a rendered part. */
  lemma RendersAfter(head: string, toks: seq<Tk>, r: Rendered, tail: seq<Tk>, names: seq<string>,
                     checked: bool, env: Env, v0: seq<BindValue>, v1: seq<BindValue>)
    requires Renders(r, tail, names, checked, env, v0, v1) && SqlText(toks) == head + SqlText(tail)
    ensures Renders(if r.Ok? then Ok(head + r.text) else Fail, toks, names, checked, env, v0, v1)
  {
  }

  lemma GroupTailText(pq: PQuery)
    ensures SqlText(GroupTail(pq)) ==
            (if pq.groupBy == [] then "" else " GROUP BY " + JoinTexts(pq.groupBy))
            + (if pq.orderBy == [] then "" else " ORDER BY " + JoinTexts(OrderTexts(pq.orderBy)))
            + SqlText(LimitToks(pq))
  {
    TextOfTexts(pq.groupBy);
    TextOfOrders(pq.orderBy);
    TextOfClause(KOrder, OrdersToks(pq.orderBy), pq.orderBy == [], LimitToks(pq));
    TextOfClause(KGroup, TextsToks(pq.groupBy), pq.groupBy == [], OrderTail(pq));
    Assoc(SqlText(ClauseToks(KGroup, TextsToks(pq.groupBy), pq.groupBy == [])),
          SqlText(ClauseToks(KOrder, OrdersToks(pq.orderBy), pq.orderBy == [])), SqlText(LimitToks(pq)));
  }

  /** GROUP BY and ORDER BY text is copied; only LIMIT can hold a bind. */
  method RenderGroupTail(q: Query, ghost pq: PQuery, env: Env, ordered: ValueList) returns (r: Rendered)
    requires pq.groupBy == q.groupBy && pq.orderBy == q.orderBy && pq.limit == PutLimit(q.limit, NoValues)
    modifies ordered
    ensures Renders(r, GroupTail(pq), LimitNames(q.limit), true, env, old(ordered.items), ordered.items)
  {
    var group := if q.groupBy == [] then "" else " GROUP BY " + JoinTexts(q.groupBy);
    var order := if q.orderBy == [] then "" else " ORDER BY " + JoinTexts(OrderTexts(q.orderBy));
    var lim := RenderLimit(q.limit, pq, env, ordered);
    GroupTailText(pq);
    RendersAfter(group + order, GroupTail(pq), lim, LimitToks(pq), LimitNames(q.limit), true, env,
                 old(ordered.items), ordered.items);
    r := if lim.Ok? then Ok(group + order + lim.text) else Fail;
  }

  /** An optional PREWHERE or WHERE. */
  method RenderFilter(k: Keyword, ps: seq<Pred>, env: Env, ordered: ValueList) returns (r: Rendered)
    modifies ordered
    ensures Renders(r, ClauseToks(k, ConjToks(PutPreds(ps, NoValues)), ps == []), PredsNames(ps), CheckPreds(ps),
                    env, old(ordered.items), ordered.items)
  {
    if ps == [] {
      return Ok("");
    }
    var c := RenderConjuncts(ps, env, ordered);
    TextOfClause(k, ConjToks(PutPreds(ps, NoValues)), false, []);
    RendersAfter(SpellKw(k), ClauseToks(k, ConjToks(PutPreds(ps, NoValues)), false), c,
                 ConjToks(PutPreds(ps, NoValues)), PredsNames(ps), CheckPreds(ps), env,
                 old(ordered.items), ordered.items);
    r := if c.Ok? then Ok(SpellKw(k) + c.text) else Fail;
  }

  /** Two adjacent parts. */
  lemma RendersAdjacent(a: Rendered, ta: seq<Tk>, na: seq<string>, ca: bool,
                        b: Rendered, tb: seq<Tk>, nb: seq<string>, cb: bool,
                        env: Env, v0: seq<BindValue>, v1: seq<BindValue>, v2: seq<BindValue>)
    requires Renders(a, ta, na, ca, env, v0, v1)
    requires a.Ok? ==> Renders(b, tb, nb, cb, env, v1, v2)
    ensures Renders(if a.Ok? && b.Ok? then Ok(a.text + b.text) else Fail, ta + tb, na + nb, ca && cb, env, v0, v2)
  {
    TextAppend(ta, tb);
    RendersBoth(ta + tb, if a.Ok? && b.Ok? then a.text + b.text else "", a, ta, na, ca, b, tb, nb, cb, env, v0, v1, v2);
  }

  method RenderWhereTail(q: Query, rest: seq<Pred>, ghost pq: PQuery, env: Env, ordered: ValueList)
    returns (r: Rendered)
    requires pq.groupBy == q.groupBy && pq.orderBy == q.orderBy && pq.limit == PutLimit(q.limit, NoValues)
    requires pq.where_ == PutPreds(rest, NoValues)
    modifies ordered
    ensures Renders(r, WhereTail(pq), PredsNames(rest) + LimitNames(q.limit), CheckPreds(rest), env,
                    old(ordered.items), ordered.items)
  {
    var f := RenderFilter(KWhere, rest, env, ordered);
    ghost var mid := ordered.items;
    var g := Fail;
    if f.Ok? {
      g := RenderGroupTail(q, pq, env, ordered);
    }
    RendersAdjacent(f, ClauseToks(KWhere, ConjToks(PutPreds(rest, NoValues)), rest == []),
                    PredsNames(rest), CheckPreds(rest),
                    g, GroupTail(pq), LimitNames(q.limit), true, env, old(ordered.items), mid, ordered.items);
    r := if f.Ok? && g.Ok? then Ok(f.text + g.text) else Fail;
  }

  method RenderPreTail(q: Query, pre: seq<Pred>, rest: seq<Pred>, ghost pq: PQuery, env: Env, ordered: ValueList)
    returns (r: Rendered)
    requires pq.groupBy == q.groupBy && pq.orderBy == q.orderBy && pq.limit == PutLimit(q.limit, NoValues)
    requires pq.where_ == PutPreds(rest, NoValues) && pq.prewhere == PutPreds(pre, NoValues)
    modifies ordered
    ensures Renders(r, PreTail(pq), PredsNames(pre) + (PredsNames(rest) + LimitNames(q.limit)),
                    CheckPreds(pre) && CheckPreds(rest), env, old(ordered.items), ordered.items)
  {
    var f := RenderFilter(KPrewhere, pre, env, ordered);
    ghost var mid := ordered.items;
    var g := Fail;
    if f.Ok? {
      g := RenderWhereTail(q, rest, pq, env, ordered);
    }
    RendersAdjacent(f, ClauseToks(KPrewhere, ConjToks(PutPreds(pre, NoValues)), pre == []),
                    PredsNames(pre), CheckPreds(pre),
                    g, WhereTail(pq), PredsNames(rest) + LimitNames(q.limit), CheckPreds(rest),
                    env, old(ordered.items), mid, ordered.items);
    r := if f.Ok? && g.Ok? then Ok(f.text + g.text) else Fail;
  }

  method RenderJoinTail(q: Query, pre: seq<Pred>, rest: seq<Pred>, ghost pq: PQuery, env: Env, ordered: ValueList)
    returns (r: Rendered)
    requires pq.groupBy == q.groupBy && pq.orderBy == q.orderBy && pq.limit == PutLimit(q.limit, NoValues)
    requires pq.where_ == PutPreds(rest, NoValues) && pq.prewhere == PutPreds(pre, NoValues)
    requires pq.joins == PutJoins(q.joins, NoValues)
    modifies ordered
    ensures Renders(r, JoinTail(pq),
                    JoinsNames(q.joins) + (PredsNames(pre) + (PredsNames(rest) + LimitNames(q.limit))),
                    CheckPreds(pre) && CheckPreds(rest), env, old(ordered.items), ordered.items)
  {
    var j := RenderJoins(q.joins, env, ordered);
    ghost var mid := ordered.items;
    var g := Fail;
    if j.Ok? {
      g := RenderPreTail(q, pre, rest, pq, env, ordered);
    }
    RendersAdjacent(j, JoinsToks(pq.joins), JoinsNames(q.joins), true,
                    g, PreTail(pq), PredsNames(pre) + (PredsNames(rest) + LimitNames(q.limit)),
                    CheckPreds(pre) && CheckPreds(rest), env, old(ordered.items), mid, ordered.items);
    r := if j.Ok? && g.Ok? then Ok(j.text + g.text) else Fail;
  }

  lemma FromText(pq: PQuery)
    ensures SqlText(FromTail(pq)) == " FROM " + pq.from + (if pq.final then " FINAL" else "") + SqlText(JoinTail(pq))
  {
    var fin := if pq.final then [TKw(KFinal)] else [];
    assert [TKw(KFrom), TText(pq.from)] + (fin + JoinTail(pq)) ==
           [TKw(KFrom)] + ([TText(pq.from)] + (fin + JoinTail(pq)));
    TextCons(TKw(KFrom), [TText(pq.from)] + (fin + JoinTail(pq)));
    TextCons(TText(pq.from), fin + JoinTail(pq));
    TextAppend(fin, JoinTail(pq));
    TextOne(TKw(KFinal));
    Flatten4(" FROM ", pq.from, SqlText(fin), SqlText(JoinTail(pq)));
  }

  lemma Group2(a: string, b: string, c: string)
    ensures "SELECT " + (a + (b + c)) == "SELECT " + a + b + c
  {
  }


  // ---- The dialect ----------------------------------------------------------------

  datatype Lowering = Statement(sql: string, values: seq<BindValue>) | Refused

  /** The names of the query in the order they are written, before any hoisting. */
  function WrittenNames(q: Query): seq<string> {
    TextsNames(q.select) + (JoinsNames(q.joins) + (PredsNames(q.where_) + LimitNames(q.limit)))
  }

  lemma {:induction false} ChosenNames(ps: seq<Pred>, keys: seq<string>, env: Env)
    ensures BT.Resolved(PredsNames(ps), env) <==>
            && BT.Resolved(PredsNames(Chosen(ps, keys, true)), env)
            && BT.Resolved(PredsNames(Chosen(ps, keys, false)), env)
  {
    if ps != [] {
      ChosenNames(ps[1..], keys, env);
      var x, y := Chosen(ps[1..], keys, true), Chosen(ps[1..], keys, false);
      Cons(ps[0], x);
      Cons(ps[0], y);
      assert Chosen(ps, keys, true) == if Hoist(ps[0], keys) then [ps[0]] + x else x;
      assert Chosen(ps, keys, false) == if Hoist(ps[0], keys) then y else [ps[0]] + y;
      NamesSplit(PredNames(ps[0]), PredsNames(ps[1..]), env);
      NamesSplit(PredNames(ps[0]), PredsNames(x), env);
      NamesSplit(PredNames(ps[0]), PredsNames(y), env);
    }
  }

  /** Hoisting changes the order of the names, not which of them need a value. */
  lemma HoistingKeepsNames(q: Query, keys: seq<string>, env: Env)
    ensures BT.Resolved(QueryNames(q, keys), env) <==> BT.Resolved(WrittenNames(q), env)
  {
    var pre, rest := PredsNames(Chosen(q.where_, keys, true)), PredsNames(Chosen(q.where_, keys, false));
    var l, j, s := LimitNames(q.limit), JoinsNames(q.joins), TextsNames(q.select);
    ChosenNames(q.where_, keys, env);
    NamesSplit(rest, l, env);
    NamesSplit(pre, rest + l, env);
    NamesSplit(PredsNames(q.where_), l, env);
    NamesSplit(j, pre + (rest + l), env);
    NamesSplit(j, PredsNames(q.where_) + l, env);
    NamesSplit(s, j + (pre + (rest + l)), env);
    NamesSplit(s, j + (PredsNames(q.where_) + l), env);
  }

  /** `lower_ir`: succeeds exactly when every mentioned name has a value and the load-time cast
      validation accepts the query; then the text is that of the statement tokens with a `?` for
      every bind, it reads back as those tokens, and the values follow the names in print order. */
  method LowerIr(q: Query, env: Env, keys: seq<string>, final: bool) returns (r: Lowering)
    ensures r.Statement? <==> BT.Resolved(WrittenNames(q), env) && ValidateClickHouse(q)
    ensures r.Statement? ==>
              && BT.Resolved(QueryNames(q, keys), env)
              && r.sql == SqlText(StmtToks(PutQuery(q, NoValues, keys, final)))
              && Scan.ReadsAs(r.sql, StmtToks(PutQuery(q, NoValues, keys, final)))
              && r.values == BT.Values(QueryNames(q, keys), env)
  {
    var ordered := new ValueList();
    ghost var pq := PutQuery(q, NoValues, keys, final);
    var s := RenderSelect(q.select, env, ordered);
    ghost var mid := ordered.items;
    var pre, rest := SplitPrewhere(q.where_, keys);
    CheckChosen(q.where_, keys);
    HoistingKeepsNames(q, keys, env);
    var f := Fail;
    if s.Ok? {
      f := RenderJoinTail(q, pre, rest, pq, env, ordered);
    }
    ghost var names := JoinsNames(q.joins) + (PredsNames(pre) + (PredsNames(rest) + LimitNames(q.limit)));
    var table := " FROM " + RenderTable(q.from) + (if final then " FINAL" else "");
    var out := if s.Ok? && f.Ok? then "SELECT " + s.text + table + f.text else "";
    StatementText(pq);
    RendersBoth(StmtToks(pq), out, s, RawsToks(pq.select), TextsNames(q.select), true,
                f, JoinTail(pq), names, CheckPreds(pre) && CheckPreds(rest), env, [], mid, ordered.items);
    r := if s.Ok? && f.Ok? then Statement(out, ordered.items) else Refused;
    if r.Statement? {
      FillsStatement(q, env, keys, final);
      Scan.TextReadsBack(StmtToks(pq));
    }
  }

  lemma StatementText(pq: PQuery)
    ensures SqlText(StmtToks(pq)) ==
            "SELECT " + SqlText(RawsToks(pq.select))
            + (" FROM " + pq.from + (if pq.final then " FINAL" else "")) + SqlText(JoinTail(pq))
  {
    FromText(pq);
    TextCons(TKw(KSelect), RawsToks(pq.select) + FromTail(pq));
    TextAppend(RawsToks(pq.select), FromTail(pq));
    Group2(SqlText(RawsToks(pq.select)), " FROM " + pq.from + (if pq.final then " FINAL" else ""),
           SqlText(JoinTail(pq)));
  }

  /** `Dialect::lower` of ClickHouse: a query without IR goes through the Postgres scanner and
      the placeholder translator, which is the direct `?` lowering on clean text. */
  method Lower(substituted: string, ir: Option<Query>, env: Env, keys: seq<string>, final: bool) returns (r: Lowering)
    ensures ir.None? ==>
              var ts := BT.Tokens(false, substituted);
              && (r.Statement? <==> BT.Resolved(BT.BindNames(ts), env))
              && (r.Statement? ==>
                    && r.values == BT.Values(BT.BindNames(ts), env)
                    && (r.sql == BT.ChText(ts) <==> BindLaws.Clean(false, substituted, env)))
    ensures ir.Some? ==>
              && (r.Statement? <==> BT.Resolved(WrittenNames(ir.value), env) && ValidateClickHouse(ir.value))
              && (r.Statement? ==>
                    && BT.Resolved(QueryNames(ir.value, keys), env)
                    && r.sql == SqlText(StmtToks(PutQuery(ir.value, NoValues, keys, final)))
                    && Scan.ReadsAs(r.sql, StmtToks(PutQuery(ir.value, NoValues, keys, final)))
                    && r.values == BT.Values(QueryNames(ir.value, keys), env))
  {
    match ir {
      case Some(q) => r := LowerIr(q, env, keys, final);
      case None =>
        var pg := BT.LowerBinds(substituted, env);
        match pg {
          case Bound(sql, values) =>
            var ch := BT.PgPlaceholdersToCh(sql);
            BindLaws.ScannersAgree(substituted, env);
            r := Statement(ch, values);
          case Unresolved(n) => r := Refused;
        }
    }
  }
}
