/** When the `?`s of the lowered text are exactly its binds, said of the query itself. */
module ChMarks {
  import opened Strings
  import opened Options
  import opened BindValues
  import opened BindText
  import opened QueryIr
  import opened ChStatement
  import opened ChBinding
  import T = ChText

  predicate Quiet(s: string) { '?' !in s }

  predicate QuietExpr(e: Expr)
    decreases e, 1
  {
    match e
    case Col(c) => Quiet(c)
    case BindE(_) => true
    case LitE(t) => Quiet(t)
    case Fn(f, args) => Quiet(f) && QuietExprs(args)
    case Cast(x, _) => QuietExpr(x)
    case Raw(t) => Quiet(t)
  }

  predicate QuietExprs(es: seq<Expr>)
    decreases es, 0
  {
    es == [] || (QuietExpr(es[0]) && QuietExprs(es[1..]))
  }

  predicate QuietPred(p: Pred) {
    match p
    case Compare(l, _, r) => QuietExpr(l) && QuietExpr(r)
    case InList(e, items, _) => QuietExpr(e) && QuietExprs(items)
    case And(a, b) => QuietPred(a) && QuietPred(b)
    case Or(a, b) => QuietPred(a) && QuietPred(b)
    case Not(q) => QuietPred(q)
    case RawP(t) => Quiet(t)
  }

  predicate QuietPreds(ps: seq<Pred>) { ps == [] || (QuietPred(ps[0]) && QuietPreds(ps[1..])) }

  predicate QuietTexts(items: seq<string>) { items == [] || (Quiet(items[0]) && QuietTexts(items[1..])) }

  predicate QuietOrders(items: seq<OrderItem>) {
    items == [] || (Quiet(items[0].expr) && QuietOrders(items[1..]))
  }

  predicate QuietJoins(js: seq<Join>) {
    js == [] || (Quiet(RenderTable(js[0].table)) && Quiet(js[0].on) && QuietJoins(js[1..]))
  }

  /** No text the query carries contains a question mark. */
  predicate QuietQuery(q: Query) {
    && QuietTexts(q.select) && Quiet(RenderTable(q.from)) && QuietJoins(q.joins)
    && QuietPreds(q.where_) && QuietTexts(q.groupBy) && QuietOrders(q.orderBy)
  }

  lemma {:induction false} NoMarks(s: string)
    ensures T.QMarks(s) == 0 <==> Quiet(s)
  {
    if s != "" {
      NoMarks(s[1..]);
      assert s == [s[0]] + s[1..];
    }
  }

  lemma {:induction false} VerbatimAppend(a: seq<Tk>, b: seq<Tk>)
    ensures T.VerbatimQs(a + b) == T.VerbatimQs(a) + T.VerbatimQs(b)
  {
    if a == [] {
      assert a + b == b;
    } else {
      HeadTail(a, b);
      VerbatimAppend(a[1..], b);
    }
  }

  lemma VerbatimCons(t: Tk, ts: seq<Tk>)
    ensures T.VerbatimQs([t] + ts) == T.VerbatimQ(t) + T.VerbatimQs(ts)
    ensures T.VerbatimQs([t]) == T.VerbatimQ(t)
  {
    Cons(t, ts);
  }

  lemma KeywordQuiet(k: Keyword)
    ensures Quiet(T.SpellKw(k))
  {
  }

  lemma OpQuiet(op: CmpOp)
    ensures Quiet(" " + T.SpellOp(op) + " ")
  {
  }

  lemma CastQuiet(ty: IrType)
    ensures Quiet(" AS " + ChSpelling(ty))
  {
  }

  predicate Mark(t: Tk) {
    t.TIn? || t.TAnd? || t.TOr? || t.TNot? || t.TL? || t.TR? || t.TComma? || t.TCastOpen?
  }

  lemma MarkQuiet(t: Tk)
    requires Mark(t)
    ensures Quiet(T.Spell(t))
  {
  }

  /** Punctuation and keywords have no question mark. */
  lemma Punctuation(t: Tk)
    requires t.TKw? || t.TCmp? || Mark(t)
    ensures T.VerbatimQ(t) == 0
  {
    if t.TKw? { KeywordQuiet(t.k); } else if t.TCmp? { OpQuiet(t.op); } else { MarkQuiet(t); }
    NoMarks(T.Spell(t));
  }

  lemma VerbatimText(t: Tk)
    requires t.TText? || t.TCol? || t.TLit? || t.TFnOpen?
    ensures T.VerbatimQ(t) == 0 <==>
            Quiet(match t case TText(s) => s case TCol(s) => s case TLit(s) => s case TFnOpen(s) => s)
  {
    NoMarks(T.Spell(t));
  }

  lemma {:induction false} RawQAppend(a: seq<RPiece>, b: seq<RPiece>)
    ensures T.RawQ(a + b) == T.RawQ(a) + T.RawQ(b)
  {
    if a == [] {
      assert a + b == b;
    } else {
      HeadTail(a, b);
      RawQAppend(a[1..], b);
    }
  }

  lemma BindQuiet(s: string, j: nat)
    requires |s| > 1 && s[0] == ':' && j == 1 + IdentLen(s[1..])
    ensures Quiet(s) <==> Quiet(s[j..])
  {
    assert forall i :: 1 <= i < j ==> s[i] == s[1..][i - 1];
    assert '?' !in s[..j];
    TakeDrop(s, j);
  }

  lemma QuietCons(s: string)
    requires s != ""
    ensures Quiet(s) <==> s[0] != '?' && Quiet(s[1..])
  {
    assert s == [s[0]] + s[1..];
  }

  /** The first token's part. */
  lemma RawQCons(t: Tok, us: seq<Tok>)
    ensures T.RawQ(PutToks([t] + us, NoValues)) ==
            (if t == Ch('?') then 1 else 0) + T.RawQ(PutToks(us, NoValues))
  {
    Cons(t, us);
    Cons(match t case Ch(c) => RCh(c) case Bind(n) => RSlot(Hole), PutToks(us, NoValues));
  }

  lemma {:induction false} VerbatimRaw(pc: bool, s: string)
    ensures T.RawQ(PutToks(Tokens(pc, s), NoValues)) == 0 <==> Quiet(s)
    decreases |s|
  {
    if s == "" {
    } else if BindHere(pc, s) {
      var j := 1 + IdentLen(s[1..]);
      VerbatimRaw(false, s[j..]);
      RawQCons(Bind(s[1..j]), Tokens(false, s[j..]));
      BindQuiet(s, j);
    } else {
      VerbatimRaw(s[0] == ':', s[1..]);
      RawQCons(Ch(s[0]), Tokens(s[0] == ':', s[1..]));
      QuietCons(s);
    }
  }

  lemma VerbatimRawTok(s: string)
    ensures T.VerbatimQs([TRaw(PutText(s, NoValues))]) == 0 <==> Quiet(s)
  {
    VerbatimRaw(false, s);
    VerbatimCons(TRaw(PutText(s, NoValues)), []);
  }

  lemma VerbatimInfix(a: seq<Tk>, t: Tk, b: seq<Tk>)
    requires T.VerbatimQ(t) == 0
    ensures T.VerbatimQs(a + ([t] + b)) == T.VerbatimQs(a) + T.VerbatimQs(b)
  {
    VerbatimCons(t, b);
    VerbatimAppend(a, [t] + b);
  }

  lemma VerbatimClosed(a: seq<Tk>)
    ensures T.VerbatimQs(a + [TR]) == T.VerbatimQs(a)
  {
    Punctuation(TR);
    VerbatimInfix(a, TR, []);
    assert [TR] + [] == [TR];
  }

  lemma VerbatimCast(x: seq<Tk>, ty: IrType)
    ensures T.VerbatimQs([TCastOpen] + (x + [TAs(ChSpelling(ty)), TR])) == T.VerbatimQs(x)
  {
    var t := TAs(ChSpelling(ty));
    CastQuiet(ty);
    NoMarks(T.Spell(t));
    Punctuation(TCastOpen);
    Punctuation(TR);
    VerbatimInfix(x, t, [TR]);
    VerbatimCons(TR, []);
    assert [t] + [TR] == [t, TR];
    VerbatimCons(TCastOpen, x + [t, TR]);
  }

  lemma {:induction false} ExprMarks(e: Expr)
    ensures T.VerbatimQs(ExprToks(PutExpr(e, NoValues))) == 0 <==> QuietExpr(e)
    decreases e, 1
  {
    match e
    case Col(c) => VerbatimText(TCol(c)); VerbatimCons(TCol(c), []);
    case BindE(n) => VerbatimCons(TSlot(Hole), []);
    case LitE(t) => VerbatimText(TLit(t)); VerbatimCons(TLit(t), []);
    case Fn(f, args) =>
      var l := ListToks(PutExprs(args, NoValues));
      ListMarks(args);
      VerbatimText(TFnOpen(f));
      VerbatimClosed(l);
      VerbatimCons(TFnOpen(f), l + [TR]);
    case Cast(x, ty) => ExprMarks(x); VerbatimCast(ExprToks(PutExpr(x, NoValues)), ty);
    case Raw(t) => VerbatimRawTok(t);
  }

  lemma {:induction false} ListMarks(es: seq<Expr>)
    ensures T.VerbatimQs(ListToks(PutExprs(es, NoValues))) == 0 <==> QuietExprs(es)
    decreases es, 0
  {
    if es != [] {
      ExprMarks(es[0]);
      ListMarks(es[1..]);
      Cons(PutExpr(es[0], NoValues), PutExprs(es[1..], NoValues));
      Punctuation(TComma);
      VerbatimInfix(ExprToks(PutExpr(es[0], NoValues)), TComma, ListToks(PutExprs(es[1..], NoValues)));
    }
  }

  lemma ParenMarks(a: seq<Tk>, t: Tk, b: seq<Tk>)
    requires t == TAnd || t == TOr
    ensures T.VerbatimQs([TL] + (a + ([t] + (b + [TR])))) == T.VerbatimQs(a) + T.VerbatimQs(b)
  {
    VerbatimClosed(b);
    Punctuation(t);
    VerbatimInfix(a, t, b + [TR]);
    Punctuation(TL);
    VerbatimCons(TL, a + ([t] + (b + [TR])));
  }

  lemma InMarks(a: seq<Tk>, neg: bool, b: seq<Tk>)
    ensures T.VerbatimQs(a + ([TIn(neg), TL] + (b + [TR]))) == T.VerbatimQs(a) + T.VerbatimQs(b)
  {
    VerbatimClosed(b);
    Punctuation(TL);
    VerbatimCons(TL, b + [TR]);
    Punctuation(TIn(neg));
    VerbatimInfix(a, TIn(neg), [TL] + (b + [TR]));
    assert [TIn(neg)] + ([TL] + (b + [TR])) == [TIn(neg), TL] + (b + [TR]);
  }

  lemma NotMarks(a: seq<Tk>)
    ensures T.VerbatimQs([TNot, TL] + (a + [TR])) == T.VerbatimQs(a)
  {
    VerbatimClosed(a);
    Punctuation(TL);
    VerbatimCons(TL, a + [TR]);
    Punctuation(TNot);
    VerbatimCons(TNot, [TL] + (a + [TR]));
    assert [TNot] + ([TL] + (a + [TR])) == [TNot, TL] + (a + [TR]);
  }

  lemma ComparisonMarks(l: Expr, op: CmpOp, r: Expr)
    ensures T.VerbatimQs(PredToks(PutPred(Compare(l, op, r), NoValues))) == 0 <==> QuietExpr(l) && QuietExpr(r)
  {
    ExprMarks(l);
    ExprMarks(r);
    Punctuation(TCmp(op));
    VerbatimInfix(ExprToks(PutExpr(l, NoValues)), TCmp(op), ExprToks(PutExpr(r, NoValues)));
  }

  lemma MembershipMarks(e: Expr, items: seq<Expr>, neg: bool)
    ensures T.VerbatimQs(PredToks(PutPred(InList(e, items, neg), NoValues))) == 0 <==> QuietExpr(e) && QuietExprs(items)
  {
    ExprMarks(e);
    ListMarks(items);
    InMarks(ExprToks(PutExpr(e, NoValues)), neg, ListToks(PutExprs(items, NoValues)));
  }

  lemma {:induction false} PredMarks(p: Pred)
    ensures T.VerbatimQs(PredToks(PutPred(p, NoValues))) == 0 <==> QuietPred(p)
  {
    match p
    case Compare(l, op, r) => ComparisonMarks(l, op, r);
    case InList(e, items, neg) => MembershipMarks(e, items, neg);
    case And(a, b) =>
      PredMarks(a);
      PredMarks(b);
      ParenMarks(PredToks(PutPred(a, NoValues)), TAnd, PredToks(PutPred(b, NoValues)));
    case Or(a, b) =>
      PredMarks(a);
      PredMarks(b);
      ParenMarks(PredToks(PutPred(a, NoValues)), TOr, PredToks(PutPred(b, NoValues)));
    case Not(q) => PredMarks(q); NotMarks(PredToks(PutPred(q, NoValues)));
    case RawP(t) => VerbatimRawTok(t);
  }

  lemma {:induction false} ConjMarks(ps: seq<Pred>)
    ensures T.VerbatimQs(ConjToks(PutPreds(ps, NoValues))) == 0 <==> QuietPreds(ps)
  {
    if ps != [] {
      PredMarks(ps[0]);
      ConjMarks(ps[1..]);
      Cons(PutPred(ps[0], NoValues), PutPreds(ps[1..], NoValues));
      Punctuation(TAnd);
      VerbatimInfix(PredToks(PutPred(ps[0], NoValues)), TAnd, ConjToks(PutPreds(ps[1..], NoValues)));
    }
  }

  lemma {:induction false} RawsMarks(items: seq<string>)
    ensures T.VerbatimQs(RawsToks(PutTexts(items, NoValues))) == 0 <==> QuietTexts(items)
  {
    if items != [] {
      VerbatimRawTok(items[0]);
      RawsMarks(items[1..]);
      Cons(PutText(items[0], NoValues), PutTexts(items[1..], NoValues));
      Punctuation(TComma);
      VerbatimInfix([TRaw(PutText(items[0], NoValues))], TComma, RawsToks(PutTexts(items[1..], NoValues)));
    }
  }

  lemma {:induction false} TextsMarks(items: seq<string>)
    ensures T.VerbatimQs(TextsToks(items)) == 0 <==> QuietTexts(items)
  {
    if items != [] {
      VerbatimText(TText(items[0]));
      VerbatimCons(TText(items[0]), []);
      TextsMarks(items[1..]);
      Punctuation(TComma);
      VerbatimInfix([TText(items[0])], TComma, TextsToks(items[1..]));
    }
  }

  lemma {:induction false} OrdersMarks(items: seq<OrderItem>)
    ensures T.VerbatimQs(OrdersToks(items)) == 0 <==> QuietOrders(items)
  {
    if items != [] {
      OrdersMarks(items[1..]);
      var dir := TKw(if items[0].asc then KAsc else KDesc);
      var tail := if |items| == 1 then [] else [TComma] + OrdersToks(items[1..]);
      Punctuation(TComma);
      VerbatimCons(TComma, OrdersToks(items[1..]));
      Punctuation(dir);
      VerbatimCons(dir, tail);
      VerbatimText(TText(items[0].expr));
      VerbatimCons(TText(items[0].expr), [dir] + tail);
    }
  }

  lemma JoinHeadMarks(kind: JoinKind, table: string, on: string)
    ensures T.VerbatimQs(JoinHeadToks(PJoin(kind, table, PutText(on, NoValues)))) == 0 <==> Quiet(table) && Quiet(on)
  {
    var a := [TRaw(PutText(on, NoValues))];
    VerbatimRawTok(on);
    Punctuation(TKw(KOn));
    VerbatimCons(TKw(KOn), a);
    VerbatimText(TText(table));
    VerbatimCons(TText(table), [TKw(KOn)] + a);
    Punctuation(TKw(KJoin(kind)));
    VerbatimCons(TKw(KJoin(kind)), [TText(table)] + ([TKw(KOn)] + a));
    assert [TKw(KJoin(kind))] + ([TText(table)] + ([TKw(KOn)] + a)) ==
           JoinHeadToks(PJoin(kind, table, PutText(on, NoValues)));
  }

  lemma {:induction false} JoinsMarks(js: seq<Join>)
    ensures T.VerbatimQs(JoinsToks(PutJoins(js, NoValues))) == 0 <==> QuietJoins(js)
  {
    if js != [] {
      var j := PJoin(js[0].kind, RenderTable(js[0].table), PutText(js[0].on, NoValues));
      JoinHeadMarks(js[0].kind, RenderTable(js[0].table), js[0].on);
      JoinsMarks(js[1..]);
      Cons(j, PutJoins(js[1..], NoValues));
      VerbatimAppend(JoinHeadToks(j), JoinsToks(PutJoins(js[1..], NoValues)));
    }
  }

  lemma ClauseMarks(k: Keyword, body: seq<Tk>, empty: bool, tail: seq<Tk>)
    requires empty ==> T.VerbatimQs(body) == 0
    ensures T.VerbatimQs(ClauseToks(k, body, empty) + tail) == T.VerbatimQs(body) + T.VerbatimQs(tail)
  {
    VerbatimAppend(ClauseToks(k, body, empty), tail);
    Punctuation(TKw(k));
    VerbatimCons(TKw(k), body);
  }

  lemma DecQuiet(i: int)
    ensures Quiet(DecInt(i))
  {
    DecRoundTrip(if i < 0 then -i else i);
  }

  lemma LimitMarks(q: Query, keys: seq<string>, final: bool)
    ensures T.VerbatimQs(LimitToks(PutQuery(q, NoValues, keys, final))) == 0
  {
    Punctuation(TKw(KLimit));
    match q.limit
    case None =>
    case Some(LimBind(n)) => VerbatimCons(TKw(KLimit), [TSlot(Hole)]); VerbatimCons(TSlot(Hole), []);
    case Some(LimLit(n)) =>
      DecQuiet(n);
      var t := TText(DecInt(n));
      VerbatimText(t);
      VerbatimCons(TKw(KLimit), [t]);
      VerbatimCons(t, []);
  }

  lemma {:induction false} ChosenQuiet(ps: seq<Pred>, keys: seq<string>)
    ensures QuietPreds(ps) <==> QuietPreds(Chosen(ps, keys, true)) && QuietPreds(Chosen(ps, keys, false))
  {
    if ps != [] {
      ChosenQuiet(ps[1..], keys);
      var x, y := Chosen(ps[1..], keys, true), Chosen(ps[1..], keys, false);
      Cons(ps[0], x);
      Cons(ps[0], y);
      assert Chosen(ps, keys, true) == if Hoist(ps[0], keys) then [ps[0]] + x else x;
      assert Chosen(ps, keys, false) == if Hoist(ps[0], keys) then y else [ps[0]] + y;
    }
  }

  lemma FilterMarks(q: Query, keys: seq<string>, final: bool)
    ensures T.VerbatimQs(PreTail(PutQuery(q, NoValues, keys, final))) == 0 <==>
            QuietPreds(q.where_) && QuietTexts(q.groupBy) && QuietOrders(q.orderBy)
  {
    var p := PutQuery(q, NoValues, keys, final);
    LimitMarks(q, keys, final);
    OrdersMarks(q.orderBy);
    ClauseMarks(KOrder, OrdersToks(q.orderBy), q.orderBy == [], LimitToks(p));
    TextsMarks(q.groupBy);
    ClauseMarks(KGroup, TextsToks(q.groupBy), q.groupBy == [], OrderTail(p));
    ConjMarks(Chosen(q.where_, keys, false));
    ClauseMarks(KWhere, ConjToks(p.where_), p.where_ == [], GroupTail(p));
    ConjMarks(Chosen(q.where_, keys, true));
    ClauseMarks(KPrewhere, ConjToks(p.prewhere), p.prewhere == [], WhereTail(p));
    ChosenQuiet(q.where_, keys);
  }

  lemma FromMarks(from: string, final: bool, tail: seq<Tk>)
    ensures var fin := if final then [TKw(KFinal)] else [];
            T.VerbatimQs([TKw(KFrom), TText(from)] + (fin + tail)) == 0 <==> Quiet(from) && T.VerbatimQs(tail) == 0
  {
    var fin := if final then [TKw(KFinal)] else [];
    FinalMarks(final, tail);
    HeadMarks(from, fin + tail);
  }

  lemma FinalMarks(final: bool, tail: seq<Tk>)
    ensures T.VerbatimQs((if final then [TKw(KFinal)] else []) + tail) == T.VerbatimQs(tail)
  {
    Punctuation(TKw(KFinal));
    VerbatimCons(TKw(KFinal), tail);
    assert [] + tail == tail;
  }

  lemma HeadMarks(from: string, tail: seq<Tk>)
    ensures T.VerbatimQs([TKw(KFrom), TText(from)] + tail) == 0 <==> Quiet(from) && T.VerbatimQs(tail) == 0
  {
    VerbatimText(TText(from));
    VerbatimCons(TText(from), tail);
    Punctuation(TKw(KFrom));
    VerbatimCons(TKw(KFrom), [TText(from)] + tail);
    assert [TKw(KFrom)] + ([TText(from)] + tail) == [TKw(KFrom), TText(from)] + tail;
  }

  /** The statement shows a `?` besides its binds exactly when some text of the query has one. */
  lemma StatementMarks(q: Query, keys: seq<string>, final: bool)
    ensures T.VerbatimQs(StmtToks(PutQuery(q, NoValues, keys, final))) == 0 <==> QuietQuery(q)
  {
    var p := PutQuery(q, NoValues, keys, final);
    FilterMarks(q, keys, final);
    JoinsMarks(q.joins);
    VerbatimAppend(JoinsToks(p.joins), PreTail(p));
    FromMarks(p.from, final, JoinTail(p));
    RawsMarks(q.select);
    VerbatimAppend(RawsToks(p.select), FromTail(p));
    Punctuation(TKw(KSelect));
    VerbatimCons(TKw(KSelect), RawsToks(p.select) + FromTail(p));
  }

  /** The text and values of a successful lowering: the `?`s pair off with the values exactly
      when no text of the query contains one, and then the client's positional binding puts
      every name's own value in its place. */
  lemma PositionsExact(q: Query, env: Env, keys: seq<string>, final: bool)
    requires Resolved(QueryNames(q, keys), env)
    ensures var sql := T.SqlText(StmtToks(PutQuery(q, NoValues, keys, final)));
            var values := Values(QueryNames(q, keys), env);
            && (T.QMarks(sql) == |values| <==> QuietQuery(q))
            && (QuietQuery(q) ==> T.Pairs(sql, values, T.Pieces(StmtToks(PutQuery(q, env, keys, final)))))
  {
    FillsStatement(q, env, keys, final);
    StatementMarks(q, keys, final);
    T.PairingExact(StmtToks(PutQuery(q, NoValues, keys, final)), Values(QueryNames(q, keys), env),
                   StmtToks(PutQuery(q, env, keys, final)));
  }

  // ---- A mark inside a literal -------------------------------------------------------------------

  /** Two conditions, on a literal with a question mark and on a bind. */
  function LiteralThenBind(sel: string, c: string, d: string, n: string): Query {
    Query([sel], TableRef(None, "t", None), [],
          [Compare(Col(c), Eq, LitE("'?'")), Compare(Col(d), Eq, BindE(n))], [], [], None)
  }

  /** A question mark in a literal breaks the pairing, whatever is selected, hoisted and bound. */
  lemma LiteralMarkMisbinds(sel: string, c: string, d: string, n: string, keys: seq<string>, env: Env)
    requires Resolved(QueryNames(LiteralThenBind(sel, c, d, n), keys), env)
    ensures var q := LiteralThenBind(sel, c, d, n);
            T.QMarks(T.SqlText(StmtToks(PutQuery(q, NoValues, keys, false)))) != |Values(QueryNames(q, keys), env)|
  {
    var q := LiteralThenBind(sel, c, d, n);
    assert "'?'"[1] == '?' && !Quiet("'?'");
    assert !QuietExpr(LitE("'?'"));
    assert !QuietPred(q.where_[0]);
    assert !QuietPreds(q.where_);
    PositionsExact(q, env, keys, false);
  }

  /** A client that gives the `k`-th `?` the `k`-th value for as long as it has values. */
  function Bindings(s: string, vs: seq<BindValue>): seq<Piece> {
    if s == "" then []
    else if s[0] == '?' && vs != [] then [Arg(vs[0])] + Bindings(s[1..], vs[1..])
    else [Lit(s[0])] + Bindings(s[1..], vs)
  }

  lemma {:induction false} BindingsNone(s: string)
    ensures Bindings(s, []) == Lits(s)
  {
    if s != "" { BindingsNone(s[1..]); }
  }

  /** The first value goes to the first mark. */
  lemma {:induction false} BindingsFirst(a: string, b: string, v: BindValue)
    requires Quiet(a)
    ensures Bindings(a + ("?" + b), [v]) == Lits(a) + ([Arg(v)] + Lits(b))
  {
    if a == "" {
      assert a + ("?" + b) == "?" + b;
      assert ("?" + b)[1..] == b;
      BindingsNone(b);
    } else {
      HeadTail(a, "?" + b);
      assert a[0] in a;
      BindingsFirst(a[1..], b, v);
    }
  }

  lemma {:induction false} PlainTokens(pc: bool, s: string)
    requires Free(s, ':')
    ensures T.RawText(PutToks(Tokens(pc, s), NoValues)) == s && BindNames(Tokens(pc, s)) == []
  {
    if s != "" {
      assert s[0] in s;
      PlainTokens(s[0] == ':', s[1..]);
      assert s == [s[0]] + s[1..];
    }
  }

  /** Without keys nothing is hoisted. */
  lemma {:induction false} NothingHoisted(ps: seq<Pred>)
    ensures Chosen(ps, [], true) == [] && Chosen(ps, [], false) == ps
  {
    if ps != [] {
      NothingHoisted(ps[1..]);
      assert ps == [ps[0]] + ps[1..];
    }
  }

  lemma LiteralNames(sel: string, c: string, d: string, n: string)
    requires Free(sel, ':')
    ensures QueryNames(LiteralThenBind(sel, c, d, n), []) == [n]
  {
    var q := LiteralThenBind(sel, c, d, n);
    PlainTokens(false, sel);
    NothingHoisted(q.where_);
    assert TextsNames([sel]) == [] by { assert [sel][1..] == []; }
    var x, y := Compare(Col(c), Eq, LitE("'?'")), Compare(Col(d), Eq, BindE(n));
    assert [x, y][1..] == [y] && [y][1..] == [];
    assert PredNames(y) == [n] && PredNames(x) == [];
    assert PredsNames([y]) == [n];
    assert PredsNames([x, y]) == [n];
  }

  /** The tokens of the two conditions. */
  function Conditions(c: string, d: string): seq<Tk> {
    [TKw(KWhere)] + (([TCol(c)] + ([TCmp(Eq)] + [TLit("'?'")])) + ([TAnd] + ([TCol(d)] + ([TCmp(Eq)] + [TSlot(Hole)]))))
  }

  lemma LiteralToks(sel: string, c: string, d: string, n: string)
    ensures StmtToks(PutQuery(LiteralThenBind(sel, c, d, n), NoValues, [], false)) ==
            [TKw(KSelect)] + ([TRaw(PutText(sel, NoValues))] + ([TKw(KFrom)] + ([TText("t")] + Conditions(c, d))))
  {
    var q := LiteralThenBind(sel, c, d, n);
    var p := PutQuery(q, NoValues, [], false);
    NothingHoisted(q.where_);
    LiteralConditions(c, d, n);
    var w := PutPreds(q.where_, NoValues);
    assert p.prewhere == [] && p.where_ == w && p.joins == [] && p.groupBy == [] && p.orderBy == [] && p.limit == None;
    assert GroupTail(p) == [];
    assert WhereTail(p) == Conditions(c, d);
    assert JoinTail(p) == Conditions(c, d);
    assert [sel][1..] == [];
    assert RawsToks(p.select) == [TRaw(PutText(sel, NoValues))];
    assert RenderTable(q.from) == "t";
    assert FromTail(p) == [TKw(KFrom)] + ([TText("t")] + Conditions(c, d));
  }

  lemma LiteralConditions(c: string, d: string, n: string)
    ensures var w := PutPreds(LiteralThenBind("", c, d, n).where_, NoValues);
            w != [] && [TKw(KWhere)] + ConjToks(w) == Conditions(c, d)
  {
    var x, y := Compare(Col(c), Eq, LitE("'?'")), Compare(Col(d), Eq, BindE(n));
    assert [x, y][1..] == [y] && [y][1..] == [];
    var u, v := PutPred(x, NoValues), PutPred(y, NoValues);
    assert PutPreds([y], NoValues) == [v];
    assert PutPreds([x, y], NoValues) == [u, v];
    assert [u, v][1..] == [v];
  }

  lemma TextCons(t: Tk, ts: seq<Tk>)
    ensures T.SqlText([t] + ts) == T.Spell(t) + T.SqlText(ts) && T.SqlText([t]) == T.Spell(t)
  {
    Cons(t, ts);
    assert [t][1..] == [];
  }

  lemma ComparisonText(c: string, t: Tk)
    ensures T.SqlText([TCol(c)] + ([TCmp(Eq)] + [t])) == c + (" = " + T.Spell(t))
  {
    TextCons(t, []);
    TextCons(TCmp(Eq), [t]);
    TextCons(TCol(c), [TCmp(Eq)] + [t]);
  }

  lemma ConditionsText(c: string, d: string)
    ensures T.SqlText(Conditions(c, d)) == " WHERE " + ((c + (" = " + "'?'")) + (" AND " + (d + (" = " + "?"))))
  {
    var x, y := [TCol(c)] + ([TCmp(Eq)] + [TLit("'?'")]), [TCol(d)] + ([TCmp(Eq)] + [TSlot(Hole)]);
    ComparisonText(c, TLit("'?'"));
    ComparisonText(d, TSlot(Hole));
    TextCons(TAnd, y);
    T.TextAppend(x, [TAnd] + y);
    TextCons(TKw(KWhere), x + ([TAnd] + y));
  }

  function LiteralFront(sel: string, c: string): string {
    "SELECT " + (sel + (" FROM " + ("t" + (" WHERE " + (c + (" = " + "'"))))))
  }

  function LiteralBack(d: string): string { "'" + (" AND " + (d + (" = " + "?"))) }

  lemma Inside(s: string, e: string, r: string)
    ensures (s + (e + ("'" + ("?" + "'")))) + r == s + (e + ("'" + ("?" + ("'" + r))))
  {
  }

  lemma Reassociate(a: string, b: string, c: string, d: string, e: string, f: string, g: string, h: string, r: string)
    ensures a + (b + (c + (d + (e + (f + (g + (h + r))))))) == (a + (b + (c + (d + (e + (f + (g + h))))))) + r
  {
  }

  lemma LiteralText(sel: string, c: string, d: string, n: string)
    requires Free(sel, ':')
    ensures T.SqlText(StmtToks(PutQuery(LiteralThenBind(sel, c, d, n), NoValues, [], false))) ==
            LiteralFront(sel, c) + ("?" + LiteralBack(d))
  {
    LiteralToks(sel, c, d, n);
    PlainTokens(false, sel);
    ConditionsText(c, d);
    var w := Conditions(c, d);
    TextCons(TText("t"), w);
    TextCons(TKw(KFrom), [TText("t")] + w);
    TextCons(TRaw(PutText(sel, NoValues)), [TKw(KFrom)] + ([TText("t")] + w));
    TextCons(TKw(KSelect), [TRaw(PutText(sel, NoValues))] + ([TKw(KFrom)] + ([TText("t")] + w)));
    var rest := " AND " + (d + (" = " + "?"));
    assert "'?'" == "'" + ("?" + "'");
    Inside(c, " = ", rest);
    Reassociate("SELECT ", sel, " FROM ", "t", " WHERE ", c, " = ", "'", "?" + ("'" + rest));
  }

  lemma FrontIsQuiet(sel: string, c: string)
    requires Quiet(sel) && Quiet(c)
    ensures Quiet(LiteralFront(sel, c))
  {
  }

  /** The value of the bind ends up inside the literal, and the bind's own `?` gets none. */
  lemma LiteralTakesValue(sel: string, c: string, d: string, n: string, env: Env)
    requires n in env && Free(sel, ':') && Quiet(sel) && Quiet(c)
    ensures var q := LiteralThenBind(sel, c, d, n);
            && Resolved(QueryNames(q, []), env)
            && Bindings(T.SqlText(StmtToks(PutQuery(q, NoValues, [], false))), Values(QueryNames(q, []), env)) ==
               Lits(LiteralFront(sel, c)) + ([Arg(env[n])] + Lits(LiteralBack(d)))
  {
    LiteralNames(sel, c, d, n);
    LiteralText(sel, c, d, n);
    FrontIsQuiet(sel, c);
    OneValue(n, env);
    BindingsFirst(LiteralFront(sel, c), LiteralBack(d), env[n]);
  }

  lemma OneValue(n: string, env: Env)
    requires n in env
    ensures Resolved([n], env) && Values([n], env) == [env[n]]
  {
  }
}
