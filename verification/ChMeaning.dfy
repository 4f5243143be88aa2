/** What a lowered ClickHouse statement means: running the positional statement gives what
    running the query by name gives. */
module ChMeaning {
  import opened Strings
  import opened Options
  import opened BindValues
  import opened BindText
  import opened QueryIr
  import opened ChStatement
  import opened ChBinding
  import T = ChText
  import L = ChLowering
  import S = ChScan

  // ---- An arbitrary engine ------------------------------------------------------

  datatype Truth = True | False | Unknown

  function Both(a: Truth, b: Truth): Truth {
    if a == False || b == False then False else if a == True && b == True then True else Unknown
  }

  function Negate(a: Truth): Truth {
    match a case True => False case False => True case Unknown => Unknown
  }

  function Either(a: Truth, b: Truth): Truth { Negate(Both(Negate(a), Negate(b))) }

  /** The operations of an engine; nothing is assumed about any of them. `source` yields the
      rows of the FROM and JOIN clauses, `finish` selects, groups, orders and limits. */
  datatype Engine<!V, !Row, !Out> = Engine(
    col: (Row, string) -> V,
    lit: string -> V,
    param: BindValue -> V,
    fn: (string, seq<V>) -> V,
    cast: (V, IrType) -> V,
    raw: (Row, seq<Piece>) -> V,
    cmp: (CmpOp, V, V) -> Truth,
    member: (V, seq<V>) -> Truth,
    rawTruth: (Row, seq<Piece>) -> Truth,
    source: (string, bool, seq<(JoinKind, string, seq<Piece>)>) -> seq<Row>,
    finish: (seq<seq<Piece>>, seq<string>, seq<OrderItem>, Option<LimitValue>, seq<Row>) -> Out)

  datatype LimitValue = LimitParam(v: BindValue) | LimitCount(n: int)

  // ---- Running the query by name --------------------------------------------------

  type Get = string -> BindValue

  function NamedToks(ts: seq<Tok>, get: Get): seq<Piece> {
    if ts == [] then []
    else [match ts[0] case Ch(c) => Lit(c) case Bind(n) => Arg(get(n))] + NamedToks(ts[1..], get)
  }

  function NamedText(s: string, get: Get): seq<Piece> { NamedToks(Tokens(false, s), get) }

  function NamedExpr<V, Row, Out>(g: Engine<V, Row, Out>, e: Expr, get: Get, row: Row): V
    decreases e, 1
  {
    match e
    case Col(c) => g.col(row, c)
    case BindE(n) => g.param(get(n))
    case LitE(t) => g.lit(t)
    case Fn(f, args) => g.fn(f, NamedExprs(g, args, get, row))
    case Cast(x, ty) => g.cast(NamedExpr(g, x, get, row), ty)
    case Raw(t) => g.raw(row, NamedText(t, get))
  }

  function NamedExprs<V, Row, Out>(g: Engine<V, Row, Out>, es: seq<Expr>, get: Get, row: Row): seq<V>
    decreases es, 0
  {
    if es == [] then [] else [NamedExpr(g, es[0], get, row)] + NamedExprs(g, es[1..], get, row)
  }

  function NamedPred<V, Row, Out>(g: Engine<V, Row, Out>, p: Pred, get: Get, row: Row): Truth {
    match p
    case Compare(l, op, r) => g.cmp(op, NamedExpr(g, l, get, row), NamedExpr(g, r, get, row))
    case InList(e, items, neg) =>
      var t := g.member(NamedExpr(g, e, get, row), NamedExprs(g, items, get, row));
      if neg then Negate(t) else t
    case And(a, b) => Both(NamedPred(g, a, get, row), NamedPred(g, b, get, row))
    case Or(a, b) => Either(NamedPred(g, a, get, row), NamedPred(g, b, get, row))
    case Not(q) => Negate(NamedPred(g, q, get, row))
    case RawP(t) => g.rawTruth(row, NamedText(t, get))
  }

  /** The conjunction of the filters, in their written order. */
  function NamedFilter<V, Row, Out>(g: Engine<V, Row, Out>, ps: seq<Pred>, get: Get, row: Row): Truth {
    if ps == [] then True else Both(NamedPred(g, ps[0], get, row), NamedFilter(g, ps[1..], get, row))
  }

  function NamedRows<V, Row, Out>(g: Engine<V, Row, Out>, ps: seq<Pred>, get: Get, rows: seq<Row>): seq<Row> {
    if rows == [] then []
    else (if NamedFilter(g, ps, get, rows[0]) == True then [rows[0]] else [])
         + NamedRows(g, ps, get, rows[1..])
  }

  function NamedTexts(items: seq<string>, get: Get): seq<seq<Piece>> {
    if items == [] then [] else [NamedText(items[0], get)] + NamedTexts(items[1..], get)
  }

  function NamedJoins(js: seq<Join>, get: Get): seq<(JoinKind, string, seq<Piece>)> {
    if js == [] then []
    else [(js[0].kind, RenderTable(js[0].table), NamedText(js[0].on, get))] + NamedJoins(js[1..], get)
  }

  function NamedLimit(l: Option<Limit>, get: Get): Option<LimitValue> {
    match l
    case None => None
    case Some(LimBind(n)) => Some(LimitParam(get(n)))
    case Some(LimLit(n)) => Some(LimitCount(n))
  }

  function RunNamed<V, Row, Out>(g: Engine<V, Row, Out>, q: Query, final: bool, get: Get): Out {
    var rows := g.source(RenderTable(q.from), final, NamedJoins(q.joins, get));
    g.finish(NamedTexts(q.select, get), q.groupBy, q.orderBy, NamedLimit(q.limit, get),
             NamedRows(g, q.where_, get, rows))
  }

  // ---- Running a statement whose positions hold values ------------------------------

  predicate Filled(q: PQuery) { q.limit.Some? && q.limit.value.PLimSlot? ==> q.limit.value.s.Val? }

  function CastType(spelling: string): IrType {
    if spelling == "Int64" then Int8 else if spelling == "Float64" then Float8
    else if spelling == "String" then TextTy else if spelling == "Bool" then BoolTy
    else Other(spelling)
  }

  /** A position nothing was bound to reads as the text `?`. */
  function SlotValue<V, Row, Out>(g: Engine<V, Row, Out>, s: Slot): V {
    match s case Hole => g.lit("?") case Val(v) => g.param(v)
  }

  function PosExpr<V, Row, Out>(g: Engine<V, Row, Out>, e: PExpr, row: Row): V
    decreases e, 1
  {
    match e
    case PCol(c) => g.col(row, c)
    case PSlot(s) => SlotValue(g, s)
    case PLit(t) => g.lit(t)
    case PFn(f, args) => g.fn(f, PosExprs(g, args, row))
    case PCast(x, ty) => g.cast(PosExpr(g, x, row), CastType(ty))
    case PRaw(ps) => g.raw(row, T.RawPieces(ps))
  }

  function PosExprs<V, Row, Out>(g: Engine<V, Row, Out>, es: seq<PExpr>, row: Row): seq<V>
    decreases es, 0
  {
    if es == [] then [] else [PosExpr(g, es[0], row)] + PosExprs(g, es[1..], row)
  }

  function PosPred<V, Row, Out>(g: Engine<V, Row, Out>, p: PPred, row: Row): Truth {
    match p
    case PCompare(l, op, r) => g.cmp(op, PosExpr(g, l, row), PosExpr(g, r, row))
    case PInList(e, items, neg) =>
      var t := g.member(PosExpr(g, e, row), PosExprs(g, items, row));
      if neg then Negate(t) else t
    case PAnd(a, b) => Both(PosPred(g, a, row), PosPred(g, b, row))
    case POr(a, b) => Either(PosPred(g, a, row), PosPred(g, b, row))
    case PNot(q) => Negate(PosPred(g, q, row))
    case PRawP(ps) => g.rawTruth(row, T.RawPieces(ps))
  }

  function PosFilter<V, Row, Out>(g: Engine<V, Row, Out>, ps: seq<PPred>, row: Row): Truth {
    if ps == [] then True else Both(PosPred(g, ps[0], row), PosFilter(g, ps[1..], row))
  }

  /** PREWHERE drops rows first, WHERE drops rows of what is left. */
  function PosRows<V, Row, Out>(g: Engine<V, Row, Out>, ps: seq<PPred>, rows: seq<Row>): seq<Row> {
    if rows == [] then []
    else (if PosFilter(g, ps, rows[0]) == True then [rows[0]] else []) + PosRows(g, ps, rows[1..])
  }

  function PosTexts(items: seq<seq<RPiece>>): seq<seq<Piece>> {
    if items == [] then [] else [T.RawPieces(items[0])] + PosTexts(items[1..])
  }

  function PosJoins(js: seq<PJoin>): seq<(JoinKind, string, seq<Piece>)> {
    if js == [] then [] else [(js[0].kind, js[0].table, T.RawPieces(js[0].on))] + PosJoins(js[1..])
  }

  function PosLimit(q: PQuery): Option<LimitValue>
    requires Filled(q)
  {
    match q.limit
    case None => None
    case Some(PLimSlot(s)) => Some(LimitParam(s.v))
    case Some(PLimLit(n)) => Some(LimitCount(n))
  }

  function RunPositional<V, Row, Out>(g: Engine<V, Row, Out>, q: PQuery): Out
    requires Filled(q)
  {
    var rows := g.source(q.from, q.final, PosJoins(q.joins));
    g.finish(PosTexts(q.select), q.groupBy, q.orderBy, PosLimit(q),
             PosRows(g, q.where_, PosRows(g, q.prewhere, rows)))
  }

  // ---- They agree ---------------------------------------------------------------------

  /** `get` reads the resolved values. */
  ghost predicate Reads(get: Get, env: Env) { forall n :: n in env ==> get(n) == env[n] }

  lemma {:induction false} ToksAgree(ts: seq<Tok>, env: Env, get: Get)
    requires Reads(get, env) && Resolved(BindNames(ts), env)
    ensures T.RawPieces(PutToks(ts, env)) == NamedToks(ts, get)
  {
    if ts != [] {
      match ts[0] {
        case Ch(c) => assert BindNames(ts) == BindNames(ts[1..]);
        case Bind(n) => ValuesAppend([n], BindNames(ts[1..]), env); assert n in [n];
      }
      ToksAgree(ts[1..], env, get);
      assert PutToks(ts, env)[1..] == PutToks(ts[1..], env);
    }
  }

  lemma CastTypeBack(ty: IrType)
    requires ChType(ty).Some?
    ensures CastType(ChSpelling(ty)) == ty
  {
  }

  lemma {:induction false} ExprAgrees<V, Row, Out>(g: Engine<V, Row, Out>, e: Expr, env: Env, get: Get, row: Row)
    requires Reads(get, env) && Resolved(ExprNames(e), env) && L.CheckExpr(e)
    ensures PosExpr(g, PutExpr(e, env), row) == NamedExpr(g, e, get, row)
    decreases e, 1
  {
    match e
    case Col(_) =>
    case LitE(_) =>
    case BindE(n) => assert n in [n];
    case Fn(f, args) => ExprsAgree(g, args, env, get, row);
    case Cast(x, ty) => ExprAgrees(g, x, env, get, row); CastTypeBack(ty);
    case Raw(t) => ToksAgree(Tokens(false, t), env, get);
  }

  lemma {:induction false} ExprsAgree<V, Row, Out>(g: Engine<V, Row, Out>, es: seq<Expr>, env: Env, get: Get, row: Row)
    requires Reads(get, env) && Resolved(ListNames(es), env) && L.CheckList(es)
    ensures PosExprs(g, PutExprs(es, env), row) == NamedExprs(g, es, get, row)
    decreases es, 0
  {
    if es != [] {
      ValuesAppend(ExprNames(es[0]), ListNames(es[1..]), env);
      ExprAgrees(g, es[0], env, get, row);
      ExprsAgree(g, es[1..], env, get, row);
      Cons(PutExpr(es[0], env), PutExprs(es[1..], env));
    }
  }

  lemma LeafAgrees<V, Row, Out>(g: Engine<V, Row, Out>, p: Pred, env: Env, get: Get, row: Row)
    requires (p.Compare? || p.InList?) && Reads(get, env) && Resolved(PredNames(p), env) && L.CheckPred(p)
    ensures PosPred(g, PutPred(p, env), row) == NamedPred(g, p, get, row)
  {
    if p.Compare? {
      ValuesAppend(ExprNames(p.lhs), ExprNames(p.rhs), env);
      ExprAgrees(g, p.lhs, env, get, row);
      ExprAgrees(g, p.rhs, env, get, row);
    } else {
      ValuesAppend(ExprNames(p.item), ListNames(p.items), env);
      ExprAgrees(g, p.item, env, get, row);
      ExprsAgree(g, p.items, env, get, row);
    }
  }

  lemma {:induction false} PredAgrees<V, Row, Out>(g: Engine<V, Row, Out>, p: Pred, env: Env, get: Get, row: Row)
    requires Reads(get, env) && Resolved(PredNames(p), env) && L.CheckPred(p)
    ensures PosPred(g, PutPred(p, env), row) == NamedPred(g, p, get, row)
  {
    match p
    case Compare(_, _, _) => LeafAgrees(g, p, env, get, row);
    case InList(_, _, _) => LeafAgrees(g, p, env, get, row);
    case And(a, b) =>
      ValuesAppend(PredNames(a), PredNames(b), env);
      PredAgrees(g, a, env, get, row);
      PredAgrees(g, b, env, get, row);
    case Or(a, b) =>
      ValuesAppend(PredNames(a), PredNames(b), env);
      PredAgrees(g, a, env, get, row);
      PredAgrees(g, b, env, get, row);
    case Not(q) => PredAgrees(g, q, env, get, row);
    case RawP(t) => ToksAgree(Tokens(false, t), env, get);
  }

  lemma {:induction false} FilterAgrees<V, Row, Out>(g: Engine<V, Row, Out>, ps: seq<Pred>, env: Env,
                                                     get: Get, row: Row)
    requires Reads(get, env) && Resolved(PredsNames(ps), env) && L.CheckPreds(ps)
    ensures PosFilter(g, PutPreds(ps, env), row) == NamedFilter(g, ps, get, row)
  {
    if ps != [] {
      ValuesAppend(PredNames(ps[0]), PredsNames(ps[1..]), env);
      PredAgrees(g, ps[0], env, get, row);
      FilterAgrees(g, ps[1..], env, get, row);
      Cons(PutPred(ps[0], env), PutPreds(ps[1..], env));
    }
  }

  /** Conjunction does not care which of its members stand in PREWHERE. */
  lemma {:induction false} SplitFilter<V, Row, Out>(g: Engine<V, Row, Out>, ps: seq<Pred>, keys: seq<string>,
                                                    get: Get, row: Row)
    ensures NamedFilter(g, ps, get, row) == Both(NamedFilter(g, Chosen(ps, keys, true), get, row),
                                                 NamedFilter(g, Chosen(ps, keys, false), get, row))
  {
    if ps != [] {
      SplitFilter(g, ps[1..], keys, get, row);
      var a, b := Chosen(ps[1..], keys, true), Chosen(ps[1..], keys, false);
      Cons(ps[0], a);
      Cons(ps[0], b);
      assert Chosen(ps, keys, true) == if Hoist(ps[0], keys) then [ps[0]] + a else a;
      assert Chosen(ps, keys, false) == if Hoist(ps[0], keys) then b else [ps[0]] + b;
    }
  }

  lemma {:induction false} RowsAgree<V, Row, Out>(g: Engine<V, Row, Out>, ps: seq<Pred>, keys: seq<string>,
                                                  env: Env, get: Get, rows: seq<Row>)
    requires Reads(get, env) && L.CheckPreds(ps)
    requires Resolved(PredsNames(Chosen(ps, keys, true)), env) && Resolved(PredsNames(Chosen(ps, keys, false)), env)
    ensures PosRows(g, PutPreds(Chosen(ps, keys, false), env),
                    PosRows(g, PutPreds(Chosen(ps, keys, true), env), rows))
            == NamedRows(g, ps, get, rows)
  {
    if rows != [] {
      RowsAgree(g, ps, keys, env, get, rows[1..]);
      L.CheckChosen(ps, keys);
      FilterAgrees(g, Chosen(ps, keys, true), env, get, rows[0]);
      FilterAgrees(g, Chosen(ps, keys, false), env, get, rows[0]);
      SplitFilter(g, ps, keys, get, rows[0]);
      FilterTwice(g, PutPreds(Chosen(ps, keys, true), env), PutPreds(Chosen(ps, keys, false), env), rows);
    }
  }

  /** Both filters of the first row, then both filters of the others. */
  lemma FilterTwice<V, Row, Out>(g: Engine<V, Row, Out>, pre: seq<PPred>, wh: seq<PPred>, rows: seq<Row>)
    requires rows != []
    ensures PosRows(g, wh, PosRows(g, pre, rows)) ==
            (if PosFilter(g, pre, rows[0]) == True && PosFilter(g, wh, rows[0]) == True then [rows[0]] else [])
            + PosRows(g, wh, PosRows(g, pre, rows[1..]))
  {
    var tail := PosRows(g, pre, rows[1..]);
    Cons(rows[0], tail);
    assert [] + tail == tail;
  }

  lemma {:induction false} TextsAgree(items: seq<string>, env: Env, get: Get)
    requires Reads(get, env) && Resolved(TextsNames(items), env)
    ensures PosTexts(PutTexts(items, env)) == NamedTexts(items, get)
  {
    if items != [] {
      ValuesAppend(TextNames(items[0]), TextsNames(items[1..]), env);
      ToksAgree(Tokens(false, items[0]), env, get);
      TextsAgree(items[1..], env, get);
      Cons(PutText(items[0], env), PutTexts(items[1..], env));
    }
  }

  lemma {:induction false} JoinsAgree(js: seq<Join>, env: Env, get: Get)
    requires Reads(get, env) && Resolved(JoinsNames(js), env)
    ensures PosJoins(PutJoins(js, env)) == NamedJoins(js, get)
  {
    if js != [] {
      ValuesAppend(TextNames(js[0].on), JoinsNames(js[1..]), env);
      ToksAgree(Tokens(false, js[0].on), env, get);
      JoinsAgree(js[1..], env, get);
      Cons(PJoin(js[0].kind, RenderTable(js[0].table), PutText(js[0].on, env)), PutJoins(js[1..], env));
    }
  }

  /** The parts of a query whose names all resolve. */
  lemma PartsResolved(q: Query, keys: seq<string>, env: Env)
    requires Resolved(QueryNames(q, keys), env)
    ensures Resolved(TextsNames(q.select), env) && Resolved(JoinsNames(q.joins), env)
    ensures Resolved(PredsNames(Chosen(q.where_, keys, true)), env)
    ensures Resolved(PredsNames(Chosen(q.where_, keys, false)), env)
    ensures Resolved(LimitNames(q.limit), env)
  {
    var f := FilterNames(q, keys);
    var r := PredsNames(Chosen(q.where_, keys, false)) + LimitNames(q.limit);
    ValuesAppend(TextsNames(q.select), JoinsNames(q.joins) + f, env);
    ValuesAppend(JoinsNames(q.joins), f, env);
    ValuesAppend(PredsNames(Chosen(q.where_, keys, true)), r, env);
    ValuesAppend(PredsNames(Chosen(q.where_, keys, false)), LimitNames(q.limit), env);
  }

  lemma PutMeaning<V, Row, Out>(g: Engine<V, Row, Out>, q: Query, env: Env, keys: seq<string>, final: bool, get: Get)
    requires Resolved(QueryNames(q, keys), env) && L.ValidateClickHouse(q) && Reads(get, env)
    ensures Filled(PutQuery(q, env, keys, final))
    ensures RunPositional(g, PutQuery(q, env, keys, final)) == RunNamed(g, q, final, get)
  {
    PartsResolved(q, keys, env);
    TextsAgree(q.select, env, get);
    JoinsAgree(q.joins, env, get);
    RowsAgree(g, q.where_, keys, env, get, g.source(RenderTable(q.from), final, NamedJoins(q.joins, get)));
    assert q.limit.Some? && q.limit.value.LimBind? ==> q.limit.value.name in LimitNames(q.limit);
  }

  /** Read the text of the lowered statement, its verbatim pieces marked, bind the `k`-th `?` to the
      `k`-th value and read the result: there is exactly one statement it can be, and running it is
      running the query by name, on every engine and although PREWHERE reorders the conjuncts. */
  lemma LoweringPreservesMeaning<V, Row, Out>(
      g: Engine<V, Row, Out>, q: Query, env: Env, keys: seq<string>, final: bool, get: Get,
      gs: seq<S.Glyph>, ts: seq<Tk>, us: seq<Tk>, pq: PQuery)
    requires Resolved(QueryNames(q, keys), env) && L.ValidateClickHouse(q) && Reads(get, env)
    requires gs == S.Marked(StmtToks(PutQuery(q, NoValues, keys, final))) && S.Scan(gs) == Some(ts)
    requires Fills(ts, Values(QueryNames(q, keys), env), us)
    ensures S.WellMarked(gs) && S.Plain(gs) == T.SqlText(StmtToks(PutQuery(q, NoValues, keys, final)))
    ensures ChStatement.Reads(us, pq) <==> pq == PutQuery(q, env, keys, final)
    ensures ChStatement.Reads(us, pq) ==> Filled(pq) && RunPositional(g, pq) == RunNamed(g, q, final, get)
  {
    var a, b := PutQuery(q, NoValues, keys, final), PutQuery(q, env, keys, final);
    FillsStatement(q, env, keys, final);
    S.PlainMarked(StmtToks(a));
    S.ScanBack(StmtToks(a));
    ReadsBack(b);
    if ChStatement.Reads(us, pq) {
      ReadsUnique(us, pq, b);
    }
    PutMeaning(g, q, env, keys, final, get);
  }
}
