/** Lowering a query IR to ClickHouse text and ordered values. */
module ChLowering {
  import opened Strings
  import opened Options
  import opened BindValues
  import BT = BindText
  import opened QueryIr
  import opened ChStatement
  import opened ChBinding
  import opened ChText

  datatype Rendered = Ok(text: string) | Fail

  /** The value vector shared by the rendering calls. */
  class ValueList {
    var items: seq<BindValue>

    constructor ()
      ensures items == []
    {
      items := [];
    }
  }

  // ---- What the load-time validation accepts ---------------------------------

  predicate CheckExpr(e: Expr)
    decreases e, 1
  {
    match e
    case Cast(x, ty) => ChType(ty).Some? && CheckExpr(x)
    case Fn(_, args) => CheckList(args)
    case _ => true
  }

  predicate CheckList(es: seq<Expr>)
    decreases es, 0
  {
    es == [] || (CheckExpr(es[0]) && CheckList(es[1..]))
  }

  predicate CheckPred(p: Pred) {
    match p
    case Compare(l, _, r) => CheckExpr(l) && CheckExpr(r)
    case InList(e, items, _) => CheckExpr(e) && CheckList(items)
    case And(a, b) => CheckPred(a) && CheckPred(b)
    case Or(a, b) => CheckPred(a) && CheckPred(b)
    case Not(q) => CheckPred(q)
    case RawP(_) => true
  }

  predicate CheckPreds(ps: seq<Pred>) {
    ps == [] || (CheckPred(ps[0]) && CheckPreds(ps[1..]))
  }

  predicate ValidateClickHouse(q: Query) { CheckPreds(q.where_) }

  // ---- Text of token lists ------------------------------------------------------

  lemma TextCons(t: Tk, ts: seq<Tk>)
    ensures SqlText([t] + ts) == Spell(t) + SqlText(ts)
  {
    Cons(t, ts);
  }

  lemma TextOne(t: Tk)
    ensures SqlText([t]) == Spell(t)
  {
    assert [t][1..] == [];
    assert SqlText([]) == "";
    assert Spell(t) + "" == Spell(t);
  }

  lemma {:induction false} RawTextIsChText(ts: seq<BT.Tok>)
    ensures RawText(PutToks(ts, NoValues)) == BT.ChText(ts)
  {
    if ts != [] {
      RawTextIsChText(ts[1..]);
      assert PutToks(ts, NoValues)[1..] == PutToks(ts[1..], NoValues);
    }
  }

  lemma TextOfRaw(text: string)
    ensures SqlText([TRaw(PutText(text, NoValues))]) == BT.ChText(BT.Tokens(false, text))
  {
    TextOne(TRaw(PutText(text, NoValues)));
    RawTextIsChText(BT.Tokens(false, text));
  }

  lemma TextFn(f: string, l: seq<Tk>)
    ensures SqlText([TFnOpen(f)] + (l + [TR])) == f + "(" + SqlText(l) + ")"
  {
    TextCons(TFnOpen(f), l + [TR]);
    TextClosed(l);
    Assoc(f + "(", SqlText(l), ")");
  }

  lemma TextCast(x: seq<Tk>, ty: string)
    ensures SqlText([TCastOpen] + (x + [TAs(ty), TR])) == "CAST(" + SqlText(x) + " AS " + ty + ")"
  {
    TextCons(TCastOpen, x + [TAs(ty), TR]);
    TextAppend(x, [TAs(ty), TR]);
    TextAs(ty);
    FlattenCast(SqlText(x), ty);
  }

  lemma TextAs(ty: string)
    ensures SqlText([TAs(ty), TR]) == " AS " + ty + ")"
  {
    assert [TAs(ty)] + [TR] == [TAs(ty), TR];
    TextCons(TAs(ty), [TR]);
    TextOne(TR);
  }

  lemma FlattenCast(x: string, ty: string)
    ensures "CAST(" + (x + (" AS " + ty + ")")) == "CAST(" + x + " AS " + ty + ")"
  {
  }

  /** Two operands around an operator token. */
  lemma TextInfix(a: seq<Tk>, t: Tk, b: seq<Tk>)
    ensures SqlText(a + ([t] + b)) == SqlText(a) + Spell(t) + SqlText(b)
  {
    TextAppend(a, [t] + b);
    TextCons(t, b);
    Assoc(SqlText(a), Spell(t), SqlText(b));
  }

  lemma TextParen(a: seq<Tk>, t: Tk, b: seq<Tk>)
    ensures SqlText([TL] + (a + ([t] + (b + [TR])))) == "(" + SqlText(a) + Spell(t) + SqlText(b) + ")"
  {
    TextClosed(b);
    TextInfix(a, t, b + [TR]);
    TextCons(TL, a + ([t] + (b + [TR])));
    Flatten(SqlText(a), Spell(t), SqlText(b));
  }

  lemma TextClosed(b: seq<Tk>)
    ensures SqlText(b + [TR]) == SqlText(b) + ")"
  {
    TextAppend(b, [TR]);
    TextOne(TR);
  }

  lemma Flatten(a: string, t: string, b: string)
    ensures "(" + (a + t + (b + ")")) == "(" + a + t + b + ")"
  {
  }

  lemma TextNot(a: seq<Tk>)
    ensures SqlText([TNot, TL] + (a + [TR])) == "NOT (" + SqlText(a) + ")"
  {
    assert [TNot, TL] + (a + [TR]) == [TNot] + ([TL] + (a + [TR]));
    TextCons(TNot, [TL] + (a + [TR]));
    TextCons(TL, a + [TR]);
    TextClosed(a);
    FlattenNot(SqlText(a));
  }

  lemma FlattenNot(a: string)
    ensures "NOT " + ("(" + (a + ")")) == "NOT (" + a + ")"
  {
  }

  lemma TextIn(e: seq<Tk>, neg: bool, l: seq<Tk>)
    ensures SqlText(e + ([TIn(neg), TL] + (l + [TR]))) ==
            SqlText(e) + (if neg then " NOT IN " else " IN ") + "(" + SqlText(l) + ")"
  {
    assert [TIn(neg), TL] + (l + [TR]) == [TIn(neg)] + ([TL] + (l + [TR]));
    TextInfix(e, TIn(neg), [TL] + (l + [TR]));
    TextCons(TL, l + [TR]);
    TextClosed(l);
    FlattenIn(SqlText(e) + (if neg then " NOT IN " else " IN "), SqlText(l));
  }

  lemma FlattenIn(k: string, l: string)
    ensures k + ("(" + (l + ")")) == k + "(" + l + ")"
  {
  }

  // ---- Rendering ------------------------------------------------------------------

  /** What every rendering call promises: it succeeds iff all its names have values and all its
      casts are expressible, and then its text is that of the tokens and its values are appended. */
  ghost predicate Renders(r: Rendered, toks: seq<Tk>, names: seq<string>, checked: bool, env: Env,
                          before: seq<BindValue>, after: seq<BindValue>)
  {
    && (r.Ok? <==> BT.Resolved(names, env) && checked)
    && (r.Ok? ==> r.text == SqlText(toks) && after == before + BT.Values(names, env))
  }

  /** Two calls in a row, the second only when the first succeeded. */
  lemma RendersBoth(toks: seq<Tk>, out: string,
                    a: Rendered, ta: seq<Tk>, na: seq<string>, ca: bool,
                    b: Rendered, tb: seq<Tk>, nb: seq<string>, cb: bool,
                    env: Env, v0: seq<BindValue>, v1: seq<BindValue>, v2: seq<BindValue>)
    requires Renders(a, ta, na, ca, env, v0, v1)
    requires a.Ok? ==> Renders(b, tb, nb, cb, env, v1, v2)
    requires a.Ok? && b.Ok? ==> out == SqlText(toks)
    ensures Renders(if a.Ok? && b.Ok? then Ok(out) else Fail, toks, na + nb, ca && cb, env, v0, v2)
  {
    NamesSplit(na, nb, env);
    if a.Ok? && b.Ok? {
      Assoc(v0, BT.Values(na, env), BT.Values(nb, env));
    }
  }

  lemma NamesSplit(a: seq<string>, b: seq<string>, env: Env)
    ensures BT.Resolved(a + b, env) <==> BT.Resolved(a, env) && BT.Resolved(b, env)
    ensures BT.Resolved(a + b, env) ==> BT.Values(a + b, env) == BT.Values(a, env) + BT.Values(b, env)
  {
    if BT.Resolved(a + b, env) {
      ValuesAppend(a, b, env);
    }
  }

  method RenderText(text: string, env: Env, ordered: ValueList) returns (r: Rendered)
    modifies ordered
    ensures Renders(r, [TRaw(PutText(text, NoValues))], TextNames(text), true, env,
                    old(ordered.items), ordered.items)
  {
    var l := BT.LowerTextBinds(text, env, ordered.items);
    match l {
      case Bound(sql, values) =>
        TextOfRaw(text);
        ordered.items := values;
        r := Ok(sql);
      case Unresolved(n) =>
        r := Fail;
    }
  }

  method RenderBind(n: string, env: Env, ordered: ValueList) returns (r: Rendered)
    modifies ordered
    ensures Renders(r, [TSlot(SlotOf(n, NoValues))], [n], true, env, old(ordered.items), ordered.items)
  {
    if n !in env {
      return Fail;
    }
    ordered.items := ordered.items + [env[n]];
    TextOne(TSlot(Hole));
    r := Ok("?");
  }

  method RenderExpr(e: Expr, env: Env, ordered: ValueList) returns (r: Rendered)
    modifies ordered
    ensures Renders(r, ExprToks(PutExpr(e, NoValues)), ExprNames(e), CheckExpr(e), env,
                    old(ordered.items), ordered.items)
    decreases e, 1
  {
    match e {
      case Col(c) => TextOne(TCol(c)); r := Ok(c);
      case LitE(t) => TextOne(TLit(t)); r := Ok(t);
      case BindE(n) => r := RenderBind(n, env, ordered);
      case Raw(t) => r := RenderText(t, env, ordered);
      case Fn(f, args) =>
        r := RenderList(args, env, ordered);
        if r.Ok? {
          TextFn(f, ListToks(PutExprs(args, NoValues)));
          r := Ok(f + "(" + r.text + ")");
        }
      case Cast(x, ty) =>
        r := RenderExpr(x, env, ordered);
        if r.Ok? {
          var ch := ChType(ty);
          if ch.None? {
            return Fail;
          }
          TextCast(ExprToks(PutExpr(x, NoValues)), ch.value);
          r := Ok("CAST(" + r.text + " AS " + ch.value + ")");
        }
    }
  }

  /** The items rendered in order and joined with a comma. */
  method RenderList(es: seq<Expr>, env: Env, ordered: ValueList) returns (r: Rendered)
    modifies ordered
    ensures Renders(r, ListToks(PutExprs(es, NoValues)), ListNames(es), CheckList(es), env,
                    old(ordered.items), ordered.items)
    decreases es, 0
  {
    if es == [] {
      return Ok("");
    }
    var first := RenderExpr(es[0], env, ordered);
    ghost var mid := ordered.items;
    ghost var ta, tb := ExprToks(PutExpr(es[0], NoValues)), ListToks(PutExprs(es[1..], NoValues));
    var tail := Fail;
    if first.Ok? {
      tail := RenderList(es[1..], env, ordered);
    }
    var sep := if |es| == 1 then "" else ", ";
    var out := if first.Ok? && tail.Ok? then first.text + sep + tail.text else "";
    TextSeparated(ta, tb, TComma, |es| == 1);
    RendersBoth(if |es| == 1 then ta else ta + ([TComma] + tb), out,
                first, ta, ExprNames(es[0]), CheckExpr(es[0]),
                tail, tb, ListNames(es[1..]), CheckList(es[1..]), env, old(ordered.items), mid, ordered.items);
    r := if first.Ok? && tail.Ok? then Ok(out) else Fail;
  }

  /** A list of one has no separator. */
  lemma TextSeparated(a: seq<Tk>, b: seq<Tk>, t: Tk, last: bool)
    ensures if last then b == [] ==> SqlText(a) + "" + SqlText(b) == SqlText(a)
            else SqlText(a + ([t] + b)) == SqlText(a) + Spell(t) + SqlText(b)
  {
    TextInfix(a, t, b);
  }

  method RenderComparison(l: Expr, op: CmpOp, r: Expr, env: Env, ordered: ValueList) returns (res: Rendered)
    modifies ordered
    ensures Renders(res, PredToks(PutPred(Compare(l, op, r), NoValues)), ExprNames(l) + ExprNames(r),
                    CheckExpr(l) && CheckExpr(r), env, old(ordered.items), ordered.items)
  {
    var left := RenderExpr(l, env, ordered);
    ghost var mid := ordered.items;
    ghost var ta, tb := ExprToks(PutExpr(l, NoValues)), ExprToks(PutExpr(r, NoValues));
    var right := Fail;
    if left.Ok? {
      right := RenderExpr(r, env, ordered);
    }
    RendersInfix(TCmp(op), left, ta, ExprNames(l), CheckExpr(l), right, tb, ExprNames(r), CheckExpr(r),
                 env, old(ordered.items), mid, ordered.items);
    res := if left.Ok? && right.Ok? then Ok(left.text + (" " + SpellOp(op) + " ") + right.text) else Fail;
  }

  /** Two operands around an operator. */
  lemma RendersInfix(t: Tk, a: Rendered, ta: seq<Tk>, na: seq<string>, ca: bool,
                     b: Rendered, tb: seq<Tk>, nb: seq<string>, cb: bool,
                     env: Env, v0: seq<BindValue>, v1: seq<BindValue>, v2: seq<BindValue>)
    requires Renders(a, ta, na, ca, env, v0, v1)
    requires a.Ok? ==> Renders(b, tb, nb, cb, env, v1, v2)
    ensures Renders(if a.Ok? && b.Ok? then Ok(a.text + Spell(t) + b.text) else Fail,
                    ta + ([t] + tb), na + nb, ca && cb, env, v0, v2)
  {
    TextInfix(ta, t, tb);
    RendersBoth(ta + ([t] + tb), if a.Ok? && b.Ok? then a.text + Spell(t) + b.text else "",
                a, ta, na, ca, b, tb, nb, cb, env, v0, v1, v2);
  }

  method RenderMembership(e: Expr, items: seq<Expr>, neg: bool, env: Env, ordered: ValueList) returns (res: Rendered)
    modifies ordered
    ensures Renders(res, PredToks(PutPred(InList(e, items, neg), NoValues)), ExprNames(e) + ListNames(items),
                    CheckExpr(e) && CheckList(items), env, old(ordered.items), ordered.items)
  {
    var left := RenderExpr(e, env, ordered);
    ghost var mid := ordered.items;
    ghost var ta, tb := ExprToks(PutExpr(e, NoValues)), ListToks(PutExprs(items, NoValues));
    var its := Fail;
    if left.Ok? {
      its := RenderList(items, env, ordered);
    }
    var out := if left.Ok? && its.Ok?
               then left.text + (if neg then " NOT IN " else " IN ") + "(" + its.text + ")" else "";
    TextIn(ta, neg, tb);
    RendersBoth(ta + ([TIn(neg), TL] + (tb + [TR])), out, left, ta, ExprNames(e), CheckExpr(e),
                its, tb, ListNames(items), CheckList(items), env, old(ordered.items), mid, ordered.items);
    res := if left.Ok? && its.Ok? then Ok(out) else Fail;
  }

  method RenderPredicate(p: Pred, env: Env, ordered: ValueList) returns (r: Rendered)
    modifies ordered
    ensures Renders(r, PredToks(PutPred(p, NoValues)), PredNames(p), CheckPred(p), env,
                    old(ordered.items), ordered.items)
    decreases p, 1
  {
    match p {
      case Compare(l, op, x) => r := RenderComparison(l, op, x, env, ordered);
      case InList(e, items, neg) => r := RenderMembership(e, items, neg, env, ordered);
      case And(a, b) => r := RenderConnective(p, env, ordered);
      case Or(a, b) => r := RenderConnective(p, env, ordered);
      case Not(q) =>
        r := RenderPredicate(q, env, ordered);
        if r.Ok? {
          TextNot(PredToks(PutPred(q, NoValues)));
          r := Ok("NOT (" + r.text + ")");
        }
      case RawP(t) => r := RenderText(t, env, ordered);
    }
  }

  method RenderConnective(p: Pred, env: Env, ordered: ValueList) returns (r: Rendered)
    requires p.And? || p.Or?
    modifies ordered
    ensures Renders(r, PredToks(PutPred(p, NoValues)), PredNames(p), CheckPred(p), env,
                    old(ordered.items), ordered.items)
    decreases p, 0
  {
    var left := RenderPredicate(p.a, env, ordered);
    ghost var mid := ordered.items;
    var right := Fail;
    if left.Ok? {
      right := RenderPredicate(p.b, env, ordered);
    }
    r := if left.Ok? && right.Ok?
         then Ok("(" + left.text + (if p.And? then " AND " else " OR ") + right.text + ")") else Fail;
    RendersConnective(p, left, right, r, env, old(ordered.items), mid, ordered.items);
  }

  lemma RendersConnective(p: Pred, left: Rendered, right: Rendered, r: Rendered, env: Env,
                          v0: seq<BindValue>, v1: seq<BindValue>, v2: seq<BindValue>)
    requires p.And? || p.Or?
    requires Renders(left, PredToks(PutPred(p.a, NoValues)), PredNames(p.a), CheckPred(p.a), env, v0, v1)
    requires left.Ok? ==> Renders(right, PredToks(PutPred(p.b, NoValues)), PredNames(p.b), CheckPred(p.b), env, v1, v2)
    requires r == if left.Ok? && right.Ok?
                  then Ok("(" + left.text + (if p.And? then " AND " else " OR ") + right.text + ")") else Fail
    ensures Renders(r, PredToks(PutPred(p, NoValues)), PredNames(p), CheckPred(p), env, v0, v2)
  {
    ConnectiveToks(p, NoValues);
    RendersParen(if p.And? then TAnd else TOr, r,
                 left, PredToks(PutPred(p.a, NoValues)), PredNames(p.a), CheckPred(p.a),
                 right, PredToks(PutPred(p.b, NoValues)), PredNames(p.b), CheckPred(p.b), env, v0, v1, v2);
  }

  lemma RendersParen(op: Tk, r: Rendered, a: Rendered, ta: seq<Tk>, na: seq<string>, ca: bool,
                     b: Rendered, tb: seq<Tk>, nb: seq<string>, cb: bool,
                     env: Env, v0: seq<BindValue>, v1: seq<BindValue>, v2: seq<BindValue>)
    requires Renders(a, ta, na, ca, env, v0, v1)
    requires a.Ok? ==> Renders(b, tb, nb, cb, env, v1, v2)
    requires r == if a.Ok? && b.Ok? then Ok("(" + a.text + Spell(op) + b.text + ")") else Fail
    ensures Renders(r, [TL] + (ta + ([op] + (tb + [TR]))), na + nb, ca && cb, env, v0, v2)
  {
    TextParen(ta, op, tb);
    RendersBoth([TL] + (ta + ([op] + (tb + [TR]))), if r.Ok? then r.text else "",
                a, ta, na, ca, b, tb, nb, cb, env, v0, v1, v2);
  }

  /** The conjuncts rendered in order and joined with AND. */
  method RenderConjuncts(ps: seq<Pred>, env: Env, ordered: ValueList) returns (r: Rendered)
    modifies ordered
    ensures Renders(r, ConjToks(PutPreds(ps, NoValues)), PredsNames(ps), CheckPreds(ps), env,
                    old(ordered.items), ordered.items)
    decreases |ps|
  {
    if ps == [] {
      return Ok("");
    }
    var first := RenderPredicate(ps[0], env, ordered);
    ghost var mid := ordered.items;
    ghost var ta, tb := PredToks(PutPred(ps[0], NoValues)), ConjToks(PutPreds(ps[1..], NoValues));
    var tail := Fail;
    if first.Ok? {
      tail := RenderConjuncts(ps[1..], env, ordered);
    }
    var sep := if |ps| == 1 then "" else " AND ";
    var out := if first.Ok? && tail.Ok? then first.text + sep + tail.text else "";
    TextSeparated(ta, tb, TAnd, |ps| == 1);
    RendersBoth(if |ps| == 1 then ta else ta + ([TAnd] + tb), out,
                first, ta, PredNames(ps[0]), CheckPred(ps[0]),
                tail, tb, PredsNames(ps[1..]), CheckPreds(ps[1..]), env, old(ordered.items), mid, ordered.items);
    r := if first.Ok? && tail.Ok? then Ok(out) else Fail;
  }

  /** The select items rendered in order and joined with a comma. */
  method RenderSelect(items: seq<string>, env: Env, ordered: ValueList) returns (r: Rendered)
    modifies ordered
    ensures Renders(r, RawsToks(PutTexts(items, NoValues)), TextsNames(items), true, env,
                    old(ordered.items), ordered.items)
    decreases |items|
  {
    if items == [] {
      return Ok("");
    }
    var first := RenderText(items[0], env, ordered);
    ghost var mid := ordered.items;
    ghost var ta, tb := [TRaw(PutText(items[0], NoValues))], RawsToks(PutTexts(items[1..], NoValues));
    var tail := Fail;
    if first.Ok? {
      tail := RenderSelect(items[1..], env, ordered);
    }
    var sep := if |items| == 1 then "" else ", ";
    var out := if first.Ok? && tail.Ok? then first.text + sep + tail.text else "";
    TextSeparated(ta, tb, TComma, |items| == 1);
    RendersBoth(if |items| == 1 then ta else ta + ([TComma] + tb), out, first, ta, TextNames(items[0]), true,
                tail, tb, TextsNames(items[1..]), true, env, old(ordered.items), mid, ordered.items);
    r := if first.Ok? && tail.Ok? then Ok(out) else Fail;
  }

  lemma TextJoin(j: PJoin)
    ensures SqlText(JoinHeadToks(j)) ==
            SpellKw(KJoin(j.kind)) + j.table + " ON " + SqlText([TRaw(j.on)])
  {
    var a := [TRaw(j.on)];
    TextCons(TKw(KOn), a);
    TextCons(TText(j.table), [TKw(KOn)] + a);
    TextCons(TKw(KJoin(j.kind)), [TText(j.table)] + ([TKw(KOn)] + a));
    assert JoinHeadToks(j) == [TKw(KJoin(j.kind))] + ([TText(j.table)] + ([TKw(KOn)] + a));
    Flatten4(SpellKw(KJoin(j.kind)), j.table, " ON ", SqlText(a));
  }

  lemma Flatten4(a: string, b: string, c: string, d: string)
    ensures a + (b + (c + d)) == a + b + c + d
  {
  }

  method RenderJoins(js: seq<Join>, env: Env, ordered: ValueList) returns (r: Rendered)
    modifies ordered
    ensures Renders(r, JoinsToks(PutJoins(js, NoValues)), JoinsNames(js), true, env,
                    old(ordered.items), ordered.items)
    decreases |js|
  {
    if js == [] {
      return Ok("");
    }
    var on := RenderText(js[0].on, env, ordered);
    ghost var mid := ordered.items;
    ghost var j := PJoin(js[0].kind, RenderTable(js[0].table), PutText(js[0].on, NoValues));
    ghost var tb := JoinsToks(PutJoins(js[1..], NoValues));
    var tail := Fail;
    if on.Ok? {
      tail := RenderJoins(js[1..], env, ordered);
    }
    var out := if on.Ok? && tail.Ok?
               then SpellKw(KJoin(js[0].kind)) + RenderTable(js[0].table) + " ON " + on.text + tail.text else "";
    TextJoin(j);
    TextAppend(JoinHeadToks(j), tb);
    RendersBoth(JoinHeadToks(j) + tb, out, on, [TRaw(j.on)], TextNames(js[0].on), true,
                tail, tb, JoinsNames(js[1..]), true, env, old(ordered.items), mid, ordered.items);
    r := if on.Ok? && tail.Ok? then Ok(out) else Fail;
  }

  // ---- PREWHERE split ---------------------------------------------------------------

  /** A stable partition of the conjuncts. */
  method SplitPrewhere(conj: seq<Pred>, keys: seq<string>) returns (pre: seq<Pred>, rest: seq<Pred>)
    ensures pre == Chosen(conj, keys, true) && rest == Chosen(conj, keys, false)
  {
    if keys == [] {
      NothingHoisted(conj);
      return [], conj;
    }
    pre, rest := [], [];
    for i := 0 to |conj|
      invariant pre + Chosen(conj[i..], keys, true) == Chosen(conj, keys, true)
      invariant rest + Chosen(conj[i..], keys, false) == Chosen(conj, keys, false)
    {
      assert conj[i..][1..] == conj[i + 1..];
      if TouchesLeadingKey(conj[i], keys[0]) {
        pre := pre + [conj[i]];
      } else {
        rest := rest + [conj[i]];
      }
    }
  }

  lemma {:induction false} NothingHoisted(conj: seq<Pred>)
    ensures Chosen(conj, [], true) == [] && Chosen(conj, [], false) == conj
  {
    if conj != [] { NothingHoisted(conj[1..]); }
  }

  lemma {:induction false} CheckChosen(conj: seq<Pred>, keys: seq<string>)
    ensures CheckPreds(conj) <==>
            CheckPreds(Chosen(conj, keys, true)) && CheckPreds(Chosen(conj, keys, false))
  {
    if conj != [] {
      CheckChosen(conj[1..], keys);
      var a, b := Chosen(conj, keys, true), Chosen(conj, keys, false);
      var x, y := Chosen(conj[1..], keys, true), Chosen(conj[1..], keys, false);
      assert if Hoist(conj[0], keys) then a == [conj[0]] + x && b == y else a == x && b == [conj[0]] + y;
      Cons(conj[0], x);
      Cons(conj[0], y);
    }
  }
}
