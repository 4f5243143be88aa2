/** Binds in a ClickHouse statement: which names it mentions, in which order, and what the
    statement is once values stand in the parameter positions. */
module ChBinding {
  import opened Strings
  import opened Options
  import opened BindValues
  import opened BindText
  import opened QueryIr
  import opened ChStatement

  const NoValues: Env := map[]

  // ---- The IR with its binds put in place -------------------------------------

  /** A name with a value becomes that value, any other a `?`. */
  function SlotOf(n: string, env: Env): Slot {
    if n in env then Val(env[n]) else Hole
  }

  function PutToks(ts: seq<Tok>, env: Env): seq<RPiece> {
    if ts == [] then []
    else [match ts[0] case Ch(c) => RCh(c) case Bind(n) => RSlot(SlotOf(n, env))]
         + PutToks(ts[1..], env)
  }

  function PutText(text: string, env: Env): seq<RPiece> { PutToks(Tokens(false, text), env) }

  function ChSpelling(ty: IrType): string {
    match ChType(ty) case Some(s) => s case None => ""
  }

  function PutExpr(e: Expr, env: Env): PExpr
    decreases e, 1
  {
    match e
    case Col(c) => PCol(c)
    case BindE(n) => PSlot(SlotOf(n, env))
    case LitE(t) => PLit(t)
    case Fn(f, args) => PFn(f, PutExprs(args, env))
    case Cast(x, ty) => PCast(PutExpr(x, env), ChSpelling(ty))
    case Raw(t) => PRaw(PutText(t, env))
  }

  function PutExprs(es: seq<Expr>, env: Env): (r: seq<PExpr>)
    ensures |r| == |es|
    decreases es, 0
  {
    if es == [] then [] else [PutExpr(es[0], env)] + PutExprs(es[1..], env)
  }

  function PutPred(p: Pred, env: Env): PPred {
    match p
    case Compare(l, op, r) => PCompare(PutExpr(l, env), op, PutExpr(r, env))
    case InList(e, items, neg) => PInList(PutExpr(e, env), PutExprs(items, env), neg)
    case And(a, b) => PAnd(PutPred(a, env), PutPred(b, env))
    case Or(a, b) => POr(PutPred(a, env), PutPred(b, env))
    case Not(q) => PNot(PutPred(q, env))
    case RawP(t) => PRawP(PutText(t, env))
  }

  function PutPreds(ps: seq<Pred>, env: Env): (r: seq<PPred>)
    ensures |r| == |ps|
  {
    if ps == [] then [] else [PutPred(ps[0], env)] + PutPreds(ps[1..], env)
  }

  function PutTexts(items: seq<string>, env: Env): (r: seq<seq<RPiece>>)
    ensures |r| == |items|
  {
    if items == [] then [] else [PutText(items[0], env)] + PutTexts(items[1..], env)
  }

  function PutJoins(js: seq<Join>, env: Env): seq<PJoin> {
    if js == [] then []
    else [PJoin(js[0].kind, RenderTable(js[0].table), PutText(js[0].on, env))]
         + PutJoins(js[1..], env)
  }

  function PutLimit(l: Option<Limit>, env: Env): Option<PLimit> {
    match l
    case None => None
    case Some(LimBind(n)) => Some(PLimSlot(SlotOf(n, env)))
    case Some(LimLit(n)) => Some(PLimLit(n))
  }

  // ---- PREWHERE -----------------------------------------------------------------

  /** The text behind the last dot. */
  function LastSegment(c: string): string {
    if '.' !in c then c
    else if c[0] == '.' && '.' !in c[1..] then c[1..] else LastSegment(c[1..])
  }

  /** A qualified column ends in its own name. */
  lemma {:induction false} LastSegmentExact(a: string, b: string)
    requires Free(b, '.')
    ensures LastSegment(b) == b && LastSegment(a + ("." + b)) == b
  {
    var s := a + ("." + b);
    assert s[|a|] == '.';
    if a == "" {
      assert s == "." + b && s[1..] == b;
    } else {
      HeadTail(a, "." + b);
      LastSegmentExact(a[1..], b);
      assert (a[1..] + ("." + b))[|a| - 1] == '.';
    }
  }

  predicate ExprIsCol(e: Expr, col: string) {
    e.Col? && (e.c == col || LastSegment(e.c) == col)
  }

  predicate TouchesLeadingKey(p: Pred, lead: string) {
    p.Compare? && ExprIsCol(p.lhs, lead)
  }

  predicate Hoist(p: Pred, keys: seq<string>) {
    keys != [] && TouchesLeadingKey(p, keys[0])
  }

  /** The conjuncts that go (`want`) or do not go to PREWHERE, in their original order. */
  function Chosen(conj: seq<Pred>, keys: seq<string>, want: bool): seq<Pred> {
    if conj == [] then []
    else (if Hoist(conj[0], keys) == want then [conj[0]] else []) + Chosen(conj[1..], keys, want)
  }

  function PutQuery(q: Query, env: Env, keys: seq<string>, final: bool): PQuery {
    PQuery(PutTexts(q.select, env), RenderTable(q.from), final, PutJoins(q.joins, env),
           PutPreds(Chosen(q.where_, keys, true), env), PutPreds(Chosen(q.where_, keys, false), env),
           q.groupBy, q.orderBy, PutLimit(q.limit, env))
  }

  // ---- The names a statement mentions, in print order ---------------------------

  function TextNames(text: string): seq<string> { BindNames(Tokens(false, text)) }

  function ExprNames(e: Expr): seq<string>
    decreases e, 1
  {
    match e
    case BindE(n) => [n]
    case Fn(_, args) => ListNames(args)
    case Cast(x, _) => ExprNames(x)
    case Raw(t) => TextNames(t)
    case _ => []
  }

  function ListNames(es: seq<Expr>): seq<string>
    decreases es, 0
  {
    if es == [] then [] else ExprNames(es[0]) + ListNames(es[1..])
  }

  function PredNames(p: Pred): seq<string> {
    match p
    case Compare(l, _, r) => ExprNames(l) + ExprNames(r)
    case InList(e, items, _) => ExprNames(e) + ListNames(items)
    case And(a, b) => PredNames(a) + PredNames(b)
    case Or(a, b) => PredNames(a) + PredNames(b)
    case Not(q) => PredNames(q)
    case RawP(t) => TextNames(t)
  }

  function PredsNames(ps: seq<Pred>): seq<string> {
    if ps == [] then [] else PredNames(ps[0]) + PredsNames(ps[1..])
  }

  function TextsNames(items: seq<string>): seq<string> {
    if items == [] then [] else TextNames(items[0]) + TextsNames(items[1..])
  }

  function JoinsNames(js: seq<Join>): seq<string> {
    if js == [] then [] else TextNames(js[0].on) + JoinsNames(js[1..])
  }

  function LimitNames(l: Option<Limit>): seq<string> {
    if l.Some? && l.value.LimBind? then [l.value.name] else []
  }

  function QueryNames(q: Query, keys: seq<string>): seq<string> {
    TextsNames(q.select) + (JoinsNames(q.joins) + (PredsNames(Chosen(q.where_, keys, true))
    + (PredsNames(Chosen(q.where_, keys, false)) + LimitNames(q.limit))))
  }

  // ---- Positional binding ---------------------------------------------------------

  function RawHoles(ps: seq<RPiece>): nat {
    if ps == [] then 0 else (if ps[0] == RSlot(Hole) then 1 else 0) + RawHoles(ps[1..])
  }

  function FillRaw(ps: seq<RPiece>, vs: seq<BindValue>): seq<RPiece> {
    if ps == [] then []
    else if ps[0] == RSlot(Hole) && vs != [] then [RSlot(Val(vs[0]))] + FillRaw(ps[1..], vs[1..])
    else [ps[0]] + FillRaw(ps[1..], vs)
  }

  function TokHoles(t: Tk): nat {
    match t
    case TSlot(Hole) => 1
    case TRaw(ps) => RawHoles(ps)
    case _ => 0
  }

  function FillTok(t: Tk, vs: seq<BindValue>): Tk
    requires |vs| == TokHoles(t)
  {
    match t
    case TSlot(Hole) => TSlot(Val(vs[0]))
    case TRaw(ps) => TRaw(FillRaw(ps, vs))
    case _ => t
  }

  function HoleCount(ts: seq<Tk>): nat {
    if ts == [] then 0 else TokHoles(ts[0]) + HoleCount(ts[1..])
  }

  /** The `i`-th `?` of the statement receives the `i`-th value. */
  function FillToks(ts: seq<Tk>, vs: seq<BindValue>): seq<Tk>
    requires |vs| == HoleCount(ts)
  {
    if ts == [] then []
    else
      var n := TokHoles(ts[0]);
      [FillTok(ts[0], vs[..n])] + FillToks(ts[1..], vs[n..])
  }

  /** A token without parameter positions, and one none of whose positions is filled yet. */
  predicate Fixed(t: Tk) { !t.TSlot? && !t.TRaw? }

  predicate OpenRaw(ps: seq<RPiece>) {
    forall p :: p in ps ==> p.RCh? || p == RSlot(Hole)
  }

  predicate Open(t: Tk) {
    (t.TSlot? ==> t.slot == Hole) && (t.TRaw? ==> OpenRaw(t.ps))
  }

  ghost predicate Fills(ts: seq<Tk>, vs: seq<BindValue>, us: seq<Tk>) {
    && (forall t :: t in ts ==> Open(t))
    && HoleCount(ts) == |vs| && FillToks(ts, vs) == us
  }

  lemma {:induction false} FillsAppend(a: seq<Tk>, va: seq<BindValue>, x: seq<Tk>,
                                       b: seq<Tk>, vb: seq<BindValue>, y: seq<Tk>)
    requires Fills(a, va, x) && Fills(b, vb, y)
    ensures Fills(a + b, va + vb, x + y)
  {
    if a == [] {
      assert a + b == b && va + vb == vb && x + y == y;
    } else {
      var n := TokHoles(a[0]);
      HeadTail(a, b);
      FillsAppend(a[1..], va[n..], x[1..], b, vb, y);
      assert (va + vb)[..n] == va[..n] && (va + vb)[n..] == va[n..] + vb;
      HeadTail(x, y);
    }
  }

  /** A fixed token in front of a filled list. */
  lemma FillsCons(t: Tk, ts: seq<Tk>, vs: seq<BindValue>, us: seq<Tk>)
    requires Fixed(t) && Fills(ts, vs, us)
    ensures Fills([t] + ts, vs, [t] + us)
  {
    Cons(t, ts);
    assert vs[0..] == vs;
  }

  lemma FillsFixed(t: Tk)
    requires Fixed(t)
    ensures Fills([t], [], [t])
  {
  }

  lemma FillsSlot(n: string, env: Env)
    requires n in env
    ensures Fills([TSlot(SlotOf(n, NoValues))], Values([n], env), [TSlot(SlotOf(n, env))])
  {
  }

  lemma ValuesAppend(a: seq<string>, b: seq<string>, env: Env)
    requires Resolved(a + b, env)
    ensures Resolved(a, env) && Resolved(b, env)
    ensures Values(a + b, env) == Values(a, env) + Values(b, env)
  {
    assert forall n :: n in a ==> n in a + b;
    assert forall n :: n in b ==> n in a + b;
  }

  lemma {:induction false} FillsToks(ts: seq<Tok>, env: Env)
    requires Resolved(BindNames(ts), env)
    ensures var ps, vs := PutToks(ts, NoValues), Values(BindNames(ts), env);
            OpenRaw(ps) && RawHoles(ps) == |vs| && FillRaw(ps, vs) == PutToks(ts, env)
  {
    if ts != [] {
      var ps, vs := PutToks(ts, NoValues), Values(BindNames(ts), env);
      match ts[0]
      case Ch(c) =>
        assert BindNames(ts) == BindNames(ts[1..]);
        assert ps[1..] == PutToks(ts[1..], NoValues);
        FillsToks(ts[1..], env);
      case Bind(n) =>
        assert BindNames(ts) == [n] + BindNames(ts[1..]);
        ValuesAppend([n], BindNames(ts[1..]), env);
        FillsToks(ts[1..], env);
        assert vs[1..] == Values(BindNames(ts[1..]), env);
    }
  }

  lemma FillsText(text: string, env: Env)
    requires Resolved(TextNames(text), env)
    ensures Fills([TRaw(PutText(text, NoValues))], Values(TextNames(text), env), [TRaw(PutText(text, env))])
  {
    var vs := Values(TextNames(text), env);
    FillsToks(Tokens(false, text), env);
    assert vs[..|vs|] == vs && vs[|vs|..] == [];
  }

  lemma FillsSnoc(t: Tk, ts: seq<Tk>, vs: seq<BindValue>, us: seq<Tk>)
    requires Fixed(t) && Fills(ts, vs, us)
    ensures Fills(ts + [t], vs, us + [t])
  {
    FillsFixed(t);
    FillsAppend(ts, vs, us, [t], [], [t]);
    assert vs + [] == vs;
  }

  lemma {:induction false} FillsExpr(e: Expr, env: Env)
    requires Resolved(ExprNames(e), env)
    ensures Fills(ExprToks(PutExpr(e, NoValues)), Values(ExprNames(e), env), ExprToks(PutExpr(e, env)))
    decreases e, 1
  {
    match e
    case Col(c) => FillsFixed(TCol(c));
    case BindE(n) => FillsSlot(n, env);
    case LitE(t) => FillsFixed(TLit(t));
    case Fn(f, args) =>
      FillsList(args, env);
      var a, b := ListToks(PutExprs(args, NoValues)), ListToks(PutExprs(args, env));
      FillsSnoc(TR, a, Values(ListNames(args), env), b);
      FillsCons(TFnOpen(f), a + [TR], Values(ListNames(args), env), b + [TR]);
    case Cast(x, ty) =>
      FillsExpr(x, env);
      FillsCast(x, ChSpelling(ty), env);
    case Raw(t) => FillsText(t, env);
  }

  lemma FillsCast(x: Expr, ty: string, env: Env)
    requires Resolved(ExprNames(x), env)
    requires Fills(ExprToks(PutExpr(x, NoValues)), Values(ExprNames(x), env), ExprToks(PutExpr(x, env)))
    ensures Fills([TCastOpen] + (ExprToks(PutExpr(x, NoValues)) + [TAs(ty), TR]), Values(ExprNames(x), env),
                  [TCastOpen] + (ExprToks(PutExpr(x, env)) + [TAs(ty), TR]))
  {
    var a, b, vs := ExprToks(PutExpr(x, NoValues)), ExprToks(PutExpr(x, env)), Values(ExprNames(x), env);
    FillsSnoc(TAs(ty), a, vs, b);
    FillsSnoc(TR, a + [TAs(ty)], vs, b + [TAs(ty)]);
    Assoc(a, [TAs(ty)], [TR]);
    Assoc(b, [TAs(ty)], [TR]);
    assert [TAs(ty)] + [TR] == [TAs(ty), TR];
    FillsCons(TCastOpen, a + [TAs(ty), TR], vs, b + [TAs(ty), TR]);
  }

  lemma {:induction false} FillsList(es: seq<Expr>, env: Env)
    requires Resolved(ListNames(es), env)
    ensures Fills(ListToks(PutExprs(es, NoValues)), Values(ListNames(es), env), ListToks(PutExprs(es, env)))
    decreases es, 0
  {
    if es != [] {
      ValuesAppend(ExprNames(es[0]), ListNames(es[1..]), env);
      FillsExpr(es[0], env);
      var vs := Values(ExprNames(es[0]), env);
      var a, b := PutExprs(es, NoValues), PutExprs(es, env);
      if |es| == 1 {
        assert ListNames(es) == ExprNames(es[0]);
      } else {
        FillsList(es[1..], env);
        var ws := Values(ListNames(es[1..]), env);
        FillsCons(TComma, ListToks(a[1..]), ws, ListToks(b[1..]));
        FillsAppend(ExprToks(a[0]), vs, ExprToks(b[0]),
                    [TComma] + ListToks(a[1..]), ws, [TComma] + ListToks(b[1..]));
      }
    }
  }

  /** Two filled operands around a fixed operator. */
  lemma FillsPair(t: Tk, a: seq<Tk>, na: seq<string>, x: seq<Tk>, b: seq<Tk>, nb: seq<string>, y: seq<Tk>, env: Env)
    requires Fixed(t) && Resolved(na + nb, env)
    requires Resolved(na, env) && Resolved(nb, env)
    requires Fills(a, Values(na, env), x) && Fills(b, Values(nb, env), y)
    ensures Fills(a + ([t] + b), Values(na + nb, env), x + ([t] + y))
  {
    ValuesAppend(na, nb, env);
    FillsCons(t, b, Values(nb, env), y);
    FillsAppend(a, Values(na, env), x, [t] + b, Values(nb, env), [t] + y);
  }

  ghost predicate PredFills(p: Pred, env: Env) {
    && Resolved(PredNames(p), env)
    && Fills(PredToks(PutPred(p, NoValues)), Values(PredNames(p), env), PredToks(PutPred(p, env)))
  }

  lemma FillsComparison(l: Expr, op: CmpOp, r: Expr, env: Env)
    requires Resolved(ExprNames(l) + ExprNames(r), env)
    ensures PredFills(Compare(l, op, r), env)
  {
    ValuesAppend(ExprNames(l), ExprNames(r), env);
    FillsExpr(l, env);
    FillsExpr(r, env);
    FillsPair(TCmp(op), ExprToks(PutExpr(l, NoValues)), ExprNames(l), ExprToks(PutExpr(l, env)),
              ExprToks(PutExpr(r, NoValues)), ExprNames(r), ExprToks(PutExpr(r, env)), env);
  }

  lemma FillsMembership(e: Expr, items: seq<Expr>, neg: bool, env: Env)
    requires Resolved(ExprNames(e) + ListNames(items), env)
    ensures PredFills(InList(e, items, neg), env)
  {
    ValuesAppend(ExprNames(e), ListNames(items), env);
    FillsExpr(e, env);
    FillsList(items, env);
    FillsIn(neg, ExprToks(PutExpr(e, NoValues)), ExprNames(e), ExprToks(PutExpr(e, env)),
            ListToks(PutExprs(items, NoValues)), ListNames(items), ListToks(PutExprs(items, env)), env);
  }

  lemma FillsConnective(p: Pred, env: Env)
    requires (p.And? || p.Or?) && Resolved(PredNames(p), env)
    requires PredFills(p.a, env) && PredFills(p.b, env)
    ensures PredFills(p, env)
  {
    ConnectiveToks(p, NoValues);
    ConnectiveToks(p, env);
    FillsParen(if p.And? then TAnd else TOr,
               PredToks(PutPred(p.a, NoValues)), PredNames(p.a), PredToks(PutPred(p.a, env)),
               PredToks(PutPred(p.b, NoValues)), PredNames(p.b), PredToks(PutPred(p.b, env)), env);
  }

  lemma ConnectiveToks(p: Pred, env: Env)
    requires p.And? || p.Or?
    ensures PredToks(PutPred(p, env)) ==
            [TL] + (PredToks(PutPred(p.a, env))
                    + ([if p.And? then TAnd else TOr] + (PredToks(PutPred(p.b, env)) + [TR])))
    ensures PredNames(p) == PredNames(p.a) + PredNames(p.b)
  {
  }

  lemma {:induction false} FillsPred(p: Pred, env: Env)
    requires Resolved(PredNames(p), env)
    ensures PredFills(p, env)
  {
    match p
    case Compare(l, op, r) => FillsComparison(l, op, r, env);
    case InList(e, items, neg) => FillsMembership(e, items, neg, env);
    case And(a, b) =>
      ValuesAppend(PredNames(a), PredNames(b), env);
      FillsPred(a, env);
      FillsPred(b, env);
      FillsConnective(p, env);
    case Or(a, b) =>
      ValuesAppend(PredNames(a), PredNames(b), env);
      FillsPred(a, env);
      FillsPred(b, env);
      FillsConnective(p, env);
    case Not(q) =>
      FillsPred(q, env);
      FillsNot(PredToks(PutPred(q, NoValues)), Values(PredNames(q), env), PredToks(PutPred(q, env)));
    case RawP(t) => FillsText(t, env);
  }

  lemma FillsNot(a: seq<Tk>, vs: seq<BindValue>, x: seq<Tk>)
    requires Fills(a, vs, x)
    ensures Fills([TNot, TL] + (a + [TR]), vs, [TNot, TL] + (x + [TR]))
  {
    FillsSnoc(TR, a, vs, x);
    FillsCons(TL, a + [TR], vs, x + [TR]);
    FillsCons(TNot, [TL] + (a + [TR]), vs, [TL] + (x + [TR]));
    assert [TNot] + ([TL] + (a + [TR])) == [TNot, TL] + (a + [TR]);
    assert [TNot] + ([TL] + (x + [TR])) == [TNot, TL] + (x + [TR]);
  }

  lemma FillsParen(t: Tk, a: seq<Tk>, na: seq<string>, x: seq<Tk>, b: seq<Tk>, nb: seq<string>, y: seq<Tk>, env: Env)
    requires (t == TAnd || t == TOr) && Resolved(na + nb, env)
    requires Resolved(na, env) && Resolved(nb, env)
    requires Fills(a, Values(na, env), x) && Fills(b, Values(nb, env), y)
    ensures Fills([TL] + (a + ([t] + (b + [TR]))), Values(na + nb, env), [TL] + (x + ([t] + (y + [TR]))))
  {
    FillsSnoc(TR, b, Values(nb, env), y);
    FillsPair(t, a, na, x, b + [TR], nb, y + [TR], env);
    FillsCons(TL, a + ([t] + (b + [TR])), Values(na + nb, env), x + ([t] + (y + [TR])));
  }

  lemma FillsIn(neg: bool, a: seq<Tk>, na: seq<string>, x: seq<Tk>, b: seq<Tk>, nb: seq<string>, y: seq<Tk>, env: Env)
    requires Resolved(na + nb, env) && Resolved(na, env) && Resolved(nb, env)
    requires Fills(a, Values(na, env), x) && Fills(b, Values(nb, env), y)
    ensures Fills(a + ([TIn(neg), TL] + (b + [TR])), Values(na + nb, env), x + ([TIn(neg), TL] + (y + [TR])))
  {
    var vs := Values(nb, env);
    FillsSnoc(TR, b, vs, y);
    FillsCons(TL, b + [TR], vs, y + [TR]);
    FillsPair(TIn(neg), a, na, x, [TL] + (b + [TR]), nb, [TL] + (y + [TR]), env);
    assert [TIn(neg)] + ([TL] + (b + [TR])) == [TIn(neg), TL] + (b + [TR]);
    assert [TIn(neg)] + ([TL] + (y + [TR])) == [TIn(neg), TL] + (y + [TR]);
  }

  lemma {:induction false} FillsConj(ps: seq<Pred>, env: Env)
    requires Resolved(PredsNames(ps), env)
    ensures Fills(ConjToks(PutPreds(ps, NoValues)), Values(PredsNames(ps), env), ConjToks(PutPreds(ps, env)))
  {
    if ps != [] {
      ValuesAppend(PredNames(ps[0]), PredsNames(ps[1..]), env);
      FillsPred(ps[0], env);
      var a, b := PutPreds(ps, NoValues), PutPreds(ps, env);
      if |ps| == 1 {
        assert PredsNames(ps) == PredNames(ps[0]);
      } else {
        FillsConj(ps[1..], env);
        assert a[1..] == PutPreds(ps[1..], NoValues) && b[1..] == PutPreds(ps[1..], env);
        FillsPair(TAnd, PredToks(a[0]), PredNames(ps[0]), PredToks(b[0]),
                  ConjToks(a[1..]), PredsNames(ps[1..]), ConjToks(b[1..]), env);
      }
    }
  }

  // ---- The whole statement --------------------------------------------------------

  lemma {:induction false} FillsRaws(items: seq<string>, env: Env)
    requires Resolved(TextsNames(items), env)
    ensures Fills(RawsToks(PutTexts(items, NoValues)), Values(TextsNames(items), env), RawsToks(PutTexts(items, env)))
  {
    if items != [] {
      ValuesAppend(TextNames(items[0]), TextsNames(items[1..]), env);
      FillsText(items[0], env);
      var a, b := PutTexts(items, NoValues), PutTexts(items, env);
      if |items| == 1 {
        assert TextsNames(items) == TextNames(items[0]);
      } else {
        FillsRaws(items[1..], env);
        assert a[1..] == PutTexts(items[1..], NoValues) && b[1..] == PutTexts(items[1..], env);
        FillsPair(TComma, [TRaw(a[0])], TextNames(items[0]), [TRaw(b[0])],
                  RawsToks(a[1..]), TextsNames(items[1..]), RawsToks(b[1..]), env);
      }
    }
  }

  lemma {:induction false} FillsJoins(js: seq<Join>, env: Env)
    requires Resolved(JoinsNames(js), env)
    ensures Fills(JoinsToks(PutJoins(js, NoValues)), Values(JoinsNames(js), env), JoinsToks(PutJoins(js, env)))
  {
    if js != [] {
      ValuesAppend(TextNames(js[0].on), JoinsNames(js[1..]), env);
      FillsText(js[0].on, env);
      FillsJoins(js[1..], env);
      var a, b := PutJoins(js, NoValues), PutJoins(js, env);
      assert a[1..] == PutJoins(js[1..], NoValues) && b[1..] == PutJoins(js[1..], env);
      var vs := Values(TextNames(js[0].on), env);
      FillsJoin(a[0].kind, a[0].table, a[0].on, vs, b[0].on);
      FillsAppend(JoinHeadToks(a[0]), vs, JoinHeadToks(b[0]),
                  JoinsToks(a[1..]), Values(JoinsNames(js[1..]), env), JoinsToks(b[1..]));
    }
  }

  function JoinHeadToks(j: PJoin): seq<Tk> {
    [TKw(KJoin(j.kind)), TText(j.table), TKw(KOn), TRaw(j.on)]
  }

  lemma FillsJoin(kind: JoinKind, table: string, on: seq<RPiece>, vs: seq<BindValue>, on': seq<RPiece>)
    requires Fills([TRaw(on)], vs, [TRaw(on')])
    ensures Fills(JoinHeadToks(PJoin(kind, table, on)), vs, JoinHeadToks(PJoin(kind, table, on')))
  {
    FillsCons(TKw(KOn), [TRaw(on)], vs, [TRaw(on')]);
    FillsCons(TText(table), [TKw(KOn)] + [TRaw(on)], vs, [TKw(KOn)] + [TRaw(on')]);
    var a, b := [TText(table)] + ([TKw(KOn)] + [TRaw(on)]), [TText(table)] + ([TKw(KOn)] + [TRaw(on')]);
    FillsCons(TKw(KJoin(kind)), a, vs, b);
    assert [TKw(KJoin(kind))] + a == JoinHeadToks(PJoin(kind, table, on));
    assert [TKw(KJoin(kind))] + b == JoinHeadToks(PJoin(kind, table, on'));
  }

  /** A list of tokens without parameter positions is left alone. */
  lemma {:induction false} FillsInert(ts: seq<Tk>)
    requires forall t :: t in ts ==> Fixed(t)
    ensures Fills(ts, [], ts)
  {
    if ts != [] {
      FillsInert(ts[1..]);
      FillsCons(ts[0], ts[1..], [], ts[1..]);
      assert ts == [ts[0]] + ts[1..];
    }
  }

  lemma {:induction false} TextsInert(items: seq<string>)
    ensures Fills(TextsToks(items), [], TextsToks(items))
  {
    if items != [] {
      TextsInert(items[1..]);
      FillsFixed(TText(items[0]));
      if |items| > 1 {
        FillsCons(TComma, TextsToks(items[1..]), [], TextsToks(items[1..]));
        FillsCons(TText(items[0]), [TComma] + TextsToks(items[1..]), [], [TComma] + TextsToks(items[1..]));
      }
    }
  }

  lemma {:induction false} OrdersInert(items: seq<OrderItem>)
    ensures Fills(OrdersToks(items), [], OrdersToks(items))
  {
    if items != [] {
      OrdersInert(items[1..]);
      FillsInert([]);
      FillsCons(TComma, OrdersToks(items[1..]), [], OrdersToks(items[1..]));
      var tail := if |items| == 1 then [] else [TComma] + OrdersToks(items[1..]);
      var dir := TKw(if items[0].asc then KAsc else KDesc);
      FillsCons(dir, tail, [], tail);
      FillsCons(TText(items[0].expr), [dir] + tail, [], [dir] + tail);
    }
  }

  /** A clause and what follows it. */
  lemma FillsClause(k: Keyword, empty: bool, a: seq<Tk>, vs: seq<BindValue>, x: seq<Tk>,
                    b: seq<Tk>, ws: seq<BindValue>, y: seq<Tk>)
    requires Fills(a, vs, x) && Fills(b, ws, y) && (empty ==> vs == [])
    ensures Fills(ClauseToks(k, a, empty) + b, vs + ws, ClauseToks(k, x, empty) + y)
  {
    if empty {
      assert [] + b == b && [] + y == y && vs + ws == ws;
    } else {
      FillsCons(TKw(k), a, vs, x);
      FillsAppend([TKw(k)] + a, vs, [TKw(k)] + x, b, ws, y);
    }
  }

  lemma FillsLimit(q: Query, env: Env, keys: seq<string>, final: bool)
    requires Resolved(LimitNames(q.limit), env)
    ensures Fills(LimitToks(PutQuery(q, NoValues, keys, final)), Values(LimitNames(q.limit), env),
                  LimitToks(PutQuery(q, env, keys, final)))
  {
    match q.limit
    case None => FillsInert([]);
    case Some(LimBind(n)) =>
      FillsSlot(n, env);
      FillsCons(TKw(KLimit), [TSlot(SlotOf(n, NoValues))], Values([n], env), [TSlot(SlotOf(n, env))]);
    case Some(LimLit(n)) => FillsInert([TKw(KLimit), TText(DecInt(n))]);
  }

  lemma FillsGroupTail(a: PQuery, b: PQuery, vs: seq<BindValue>)
    requires a.groupBy == b.groupBy && a.orderBy == b.orderBy
    requires Fills(LimitToks(a), vs, LimitToks(b))
    ensures Fills(GroupTail(a), vs, GroupTail(b))
  {
    OrdersInert(a.orderBy);
    TextsInert(a.groupBy);
    FillsClause(KOrder, a.orderBy == [], OrdersToks(a.orderBy), [], OrdersToks(a.orderBy),
                LimitToks(a), vs, LimitToks(b));
    assert [] + vs == vs;
    FillsClause(KGroup, a.groupBy == [], TextsToks(a.groupBy), [], TextsToks(a.groupBy),
                OrderTail(a), vs, OrderTail(b));
  }

  lemma FillsWhereTail(q: Query, env: Env, keys: seq<string>, final: bool)
    requires Resolved(PredsNames(Chosen(q.where_, keys, false)) + LimitNames(q.limit), env)
    ensures Fills(WhereTail(PutQuery(q, NoValues, keys, final)),
                  Values(PredsNames(Chosen(q.where_, keys, false)) + LimitNames(q.limit), env),
                  WhereTail(PutQuery(q, env, keys, final)))
  {
    var a, b := PutQuery(q, NoValues, keys, final), PutQuery(q, env, keys, final);
    var ps, ns := Chosen(q.where_, keys, false), LimitNames(q.limit);
    ValuesAppend(PredsNames(ps), ns, env);
    FillsLimit(q, env, keys, final);
    FillsGroupTail(a, b, Values(ns, env));
    FillsConj(ps, env);
    FillsClause(KWhere, ps == [], ConjToks(a.where_), Values(PredsNames(ps), env), ConjToks(b.where_),
                GroupTail(a), Values(ns, env), GroupTail(b));
  }

  /** The names behind the joins. */
  function FilterNames(q: Query, keys: seq<string>): seq<string> {
    PredsNames(Chosen(q.where_, keys, true))
    + (PredsNames(Chosen(q.where_, keys, false)) + LimitNames(q.limit))
  }

  lemma FillsPreTail(q: Query, env: Env, keys: seq<string>, final: bool)
    requires Resolved(FilterNames(q, keys), env)
    ensures Fills(PreTail(PutQuery(q, NoValues, keys, final)), Values(FilterNames(q, keys), env),
                  PreTail(PutQuery(q, env, keys, final)))
  {
    var a, b := PutQuery(q, NoValues, keys, final), PutQuery(q, env, keys, final);
    var ps := Chosen(q.where_, keys, true);
    var ns := PredsNames(Chosen(q.where_, keys, false)) + LimitNames(q.limit);
    ValuesAppend(PredsNames(ps), ns, env);
    FillsWhereTail(q, env, keys, final);
    FillsConj(ps, env);
    FillsClause(KPrewhere, ps == [], ConjToks(a.prewhere), Values(PredsNames(ps), env), ConjToks(b.prewhere),
                WhereTail(a), Values(ns, env), WhereTail(b));
  }

  lemma FillsFromTail(q: Query, env: Env, keys: seq<string>, final: bool)
    requires Resolved(JoinsNames(q.joins) + FilterNames(q, keys), env)
    ensures Fills(FromTail(PutQuery(q, NoValues, keys, final)),
                  Values(JoinsNames(q.joins) + FilterNames(q, keys), env),
                  FromTail(PutQuery(q, env, keys, final)))
  {
    var a, b := PutQuery(q, NoValues, keys, final), PutQuery(q, env, keys, final);
    var vs := Values(JoinsNames(q.joins) + FilterNames(q, keys), env);
    ValuesAppend(JoinsNames(q.joins), FilterNames(q, keys), env);
    FillsJoins(q.joins, env);
    FillsPreTail(q, env, keys, final);
    FillsAppend(JoinsToks(a.joins), Values(JoinsNames(q.joins), env), JoinsToks(b.joins),
                PreTail(a), Values(FilterNames(q, keys), env), PreTail(b));
    FillsFrom(RenderTable(q.from), final, JoinTail(a), vs, JoinTail(b));
  }

  lemma FillsFrom(from: string, final: bool, a: seq<Tk>, vs: seq<BindValue>, x: seq<Tk>)
    requires Fills(a, vs, x)
    ensures var fin := if final then [TKw(KFinal)] else [];
            Fills([TKw(KFrom), TText(from)] + (fin + a), vs, [TKw(KFrom), TText(from)] + (fin + x))
  {
    var fin := if final then [TKw(KFinal)] else [];
    FillsInert(fin);
    FillsAppend(fin, [], fin, a, vs, x);
    FillsInert([TKw(KFrom), TText(from)]);
    assert [] + vs == vs;
    FillsAppend([TKw(KFrom), TText(from)], [], [TKw(KFrom), TText(from)], fin + a, vs, fin + x);
  }

  /** Filling the `?`s of the lowered statement from left to right with the values of the names
      in print order gives the statement in which every name is replaced by its own value. */
  lemma FillsStatement(q: Query, env: Env, keys: seq<string>, final: bool)
    requires Resolved(QueryNames(q, keys), env)
    ensures Fills(StmtToks(PutQuery(q, NoValues, keys, final)), Values(QueryNames(q, keys), env),
                  StmtToks(PutQuery(q, env, keys, final)))
  {
    var a, b := PutQuery(q, NoValues, keys, final), PutQuery(q, env, keys, final);
    var ns, ms := TextsNames(q.select), JoinsNames(q.joins) + FilterNames(q, keys);
    assert QueryNames(q, keys) == ns + ms;
    ValuesAppend(ns, ms, env);
    FillsRaws(q.select, env);
    FillsFromTail(q, env, keys, final);
    FillsAppend(RawsToks(a.select), Values(ns, env), RawsToks(b.select),
                FromTail(a), Values(ms, env), FromTail(b));
    FillsCons(TKw(KSelect), RawsToks(a.select) + FromTail(a), Values(ns + ms, env),
              RawsToks(b.select) + FromTail(b));
  }

  // ---- Which conjuncts go to PREWHERE, and what a table is called ------------------------------------

  /** A column by its own name, or qualified by anything in front of a dot. */
  ghost predicate NamesColumn(c: string, key: string) {
    c == key || (Free(key, '.') && exists q :: c == q + ("." + key))
  }

  lemma DotBehind(c: string)
    requires '.' in c && c[0] != '.'
    ensures '.' in c[1..]
  {
    assert c == [c[0]] + c[1..];
  }

  lemma {:induction false} LastSegmentCuts(c: string) returns (q: string)
    requires '.' in c
    ensures c == q + ("." + LastSegment(c)) && Free(LastSegment(c), '.')
  {
    if '.' in c[1..] {
      var more := LastSegmentCuts(c[1..]);
      q := [c[0]] + more;
      assert c == [c[0]] + c[1..];
      Assoc([c[0]], more, "." + LastSegment(c));
    } else {
      q := "";
      if c[0] != '.' { DotBehind(c); }
      assert c == "." + c[1..];
    }
  }

  /** A conjunct is hoisted if and only if it compares a column that names the first key. */
  lemma HoistExact(p: Pred, keys: seq<string>)
    ensures Hoist(p, keys) <==>
            keys != [] && p.Compare? && p.lhs.Col? && NamesColumn(p.lhs.c, keys[0])
  {
    if keys != [] && p.Compare? && p.lhs.Col? {
      var c, key := p.lhs.c, keys[0];
      if '.' in c { var q := LastSegmentCuts(c); }
      if q :| Free(key, '.') && c == q + ("." + key) { LastSegmentExact(q, key); }
    }
  }

  /** A table's text: schema and dot if there is one, and the alias behind a blank. */
  lemma TableExact(t: TableRef)
    requires Free(t.table, '.') && Free(t.table, ' ') && (t.schema.Some? ==> Free(t.schema.value, '.'))
    requires t.schema.Some? ==> Free(t.schema.value, ' ')
    ensures var s := RenderTable(t);
            var name := (match SplitOnce(s, ' ') case None => s case Some(p) => p.0);
            && (SplitOnce(s, ' ').None? <==> t.alias.None?)
            && (t.alias.Some? ==> SplitOnce(s, ' ').value.1 == t.alias.value)
            && (t.schema.None? ==> name == t.table)
            && (t.schema.Some? ==> SplitOnce(name, '.') == Some((t.schema.value, t.table)))
  {
    var name := if t.schema.Some? then t.schema.value + ("." + t.table) else t.table;
    SplitOnceExact(name, ' ', if t.alias.Some? then t.alias.value else "");
    if t.schema.Some? {
      SplitOnceExact(t.schema.value, '.', t.table);
      Assoc(t.schema.value, ".", t.table);
    }
    assert RenderTable(t) == if t.alias.Some? then name + (" " + t.alias.value) else name;
  }
}
