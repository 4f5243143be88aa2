/** A reader for rendered ClickHouse predicates with the usual precedence, NOT over AND over OR. */
module ChRead {
  import opened Strings
  import opened QueryIr

  datatype Read<T> = Got(value: T, rest: seq<Tk>) | Bad

  predicate Starts(ts: seq<Tk>, t: Tk) { ts != [] && ts[0] == t }

  // ---- Expressions ----------------------------------------------------------

  function ReadExpr(ts: seq<Tk>): (r: Read<PExpr>)
    ensures r.Got? ==> |r.rest| < |ts|
    decreases |ts|, 0
  {
    if ts == [] then Bad
    else match ts[0]
      case TCol(c) => Got(PCol(c), ts[1..])
      case TSlot(s) => Got(PSlot(s), ts[1..])
      case TLit(t) => Got(PLit(t), ts[1..])
      case TRaw(ps) => Got(PRaw(ps), ts[1..])
      case TFnOpen(f) =>
        (match ReadArgs(ts[1..])
         case Bad => Bad
         case Got(args, rest) => Got(PFn(f, args), rest))
      case TCastOpen =>
        (match ReadExpr(ts[1..])
         case Bad => Bad
         case Got(x, rest) =>
           if |rest| > 1 && rest[0].TAs? && rest[1] == TR then Got(PCast(x, rest[0].ty), rest[2..])
           else Bad)
      case _ => Bad
  }

  /** A possibly empty, comma-separated list and its closing parenthesis. */
  function ReadArgs(ts: seq<Tk>): (r: Read<seq<PExpr>>)
    ensures r.Got? ==> |r.rest| < |ts|
    decreases |ts|, 2
  {
    if Starts(ts, TR) then Got([], ts[1..])
    else match ReadList(ts)
      case Bad => Bad
      case Got(es, rest) => if Starts(rest, TR) then Got(es, rest[1..]) else Bad
  }

  function ReadList(ts: seq<Tk>): (r: Read<seq<PExpr>>)
    ensures r.Got? ==> |r.rest| < |ts|
    decreases |ts|, 1
  {
    match ReadExpr(ts)
    case Bad => Bad
    case Got(e, rest) =>
      if Starts(rest, TComma) then
        match ReadList(rest[1..])
        case Bad => Bad
        case Got(es, last) => Got([e] + es, last)
      else Got([e], rest)
  }

  /** The token that can begin an expression. */
  predicate ExprHead(t: Tk) {
    t.TCol? || t.TSlot? || t.TLit? || t.TRaw? || t.TFnOpen? || t.TCastOpen?
  }

  lemma ExprToksHead(e: PExpr)
    ensures ExprToks(e) != [] && ExprHead(ExprToks(e)[0])
  {
  }

  lemma ListToksHead(es: seq<PExpr>)
    requires es != []
    ensures ListToks(es) != [] && ExprHead(ListToks(es)[0])
  {
    ExprToksHead(es[0]);
  }

  lemma {:induction false} ReadExprBack(e: PExpr, k: seq<Tk>)
    ensures ReadExpr(ExprToks(e) + k) == Got(e, k)
    decreases e, 1
  {
    var ts := ExprToks(e) + k;
    match e
    case PFn(f, args) =>
      var body := ListToks(args) + [TR];
      assert ts[1..] == body + k;
      ReadArgsBack(args, k);
    case PCast(x, ty) =>
      var tail := [TAs(ty), TR] + k;
      assert ts[1..] == ExprToks(x) + tail;
      ReadExprBack(x, tail);
      assert tail[2..] == k;
    case _ =>
      assert ts[1..] == k;
  }

  lemma {:induction false} ReadArgsBack(es: seq<PExpr>, k: seq<Tk>)
    ensures ReadArgs(ListToks(es) + [TR] + k) == Got(es, k)
    decreases es, 2
  {
    var ts := ListToks(es) + [TR] + k;
    if es == [] {
      assert ts == [TR] + k;
    } else {
      assert ts == ListToks(es) + ([TR] + k);
      ReadListBack(es, [TR] + k);
      ListToksHead(es);
      assert ts[0] == ListToks(es)[0];
      assert ([TR] + k)[1..] == k;
    }
  }

  lemma {:induction false} ReadListBack(es: seq<PExpr>, k: seq<Tk>)
    requires es != [] && !Starts(k, TComma)
    ensures ReadList(ListToks(es) + k) == Got(es, k)
    decreases es, 0
  {
    if |es| == 1 {
      ReadExprBack(es[0], k);
      assert es == [es[0]];
    } else {
      var tail := ListToks(es[1..]) + k;
      ReadListBack(es[1..], k);
      ReadExprBack(es[0], [TComma] + tail);
      Regroup(ExprToks(es[0]), TComma, ListToks(es[1..]), k);
      assert es == [es[0]] + es[1..];
    }
  }

  // ---- Predicates -----------------------------------------------------------

  function ReadOr(ts: seq<Tk>): (r: Read<PPred>)
    ensures r.Got? ==> |r.rest| < |ts|
    decreases |ts|, 6
  {
    match ReadAnd(ts)
    case Bad => Bad
    case Got(p, rest) => ReadOrTail(p, rest)
  }

  function ReadOrTail(acc: PPred, ts: seq<Tk>): (r: Read<PPred>)
    ensures r.Got? ==> |r.rest| <= |ts|
    decreases |ts|, 5
  {
    if !Starts(ts, TOr) then Got(acc, ts)
    else match ReadAnd(ts[1..])
      case Bad => Bad
      case Got(p, rest) => ReadOrTail(POr(acc, p), rest)
  }

  function ReadAnd(ts: seq<Tk>): (r: Read<PPred>)
    ensures r.Got? ==> |r.rest| < |ts|
    decreases |ts|, 4
  {
    match ReadNot(ts)
    case Bad => Bad
    case Got(p, rest) => ReadAndTail(p, rest)
  }

  function ReadAndTail(acc: PPred, ts: seq<Tk>): (r: Read<PPred>)
    ensures r.Got? ==> |r.rest| <= |ts|
    decreases |ts|, 3
  {
    if !Starts(ts, TAnd) then Got(acc, ts)
    else match ReadNot(ts[1..])
      case Bad => Bad
      case Got(p, rest) => ReadAndTail(PAnd(acc, p), rest)
  }

  function ReadNot(ts: seq<Tk>): (r: Read<PPred>)
    ensures r.Got? ==> |r.rest| < |ts|
    decreases |ts|, 2
  {
    if Starts(ts, TNot) then
      match ReadNot(ts[1..])
      case Bad => Bad
      case Got(p, rest) => Got(PNot(p), rest)
    else if Starts(ts, TL) then
      match ReadOr(ts[1..])
      case Bad => Bad
      case Got(p, rest) => if Starts(rest, TR) then Got(p, rest[1..]) else Bad
    else ReadLeaf(ts)
  }

  predicate OperatorNext(ts: seq<Tk>) { ts != [] && (ts[0].TCmp? || ts[0].TIn?) }

  /** A comparison, a membership test, or a verbatim predicate. */
  function ReadLeaf(ts: seq<Tk>): (r: Read<PPred>)
    ensures r.Got? ==> |r.rest| < |ts|
  {
    if ts != [] && ts[0].TRaw? && !OperatorNext(ts[1..]) then Got(PRawP(ts[0].ps), ts[1..])
    else match ReadExpr(ts)
      case Bad => Bad
      case Got(e, rest) =>
        if !OperatorNext(rest) then Bad
        else match rest[0]
          case TCmp(op) =>
            (match ReadExpr(rest[1..])
             case Bad => Bad
             case Got(x, last) => Got(PCompare(e, op, x), last))
          case TIn(neg) =>
            if !Starts(rest[1..], TL) then Bad
            else (match ReadArgs(rest[2..])
                  case Bad => Bad
                  case Got(es, last) => Got(PInList(e, es, neg), last))
  }

  /** The AND operands of a clause; a clause that goes on with OR is not a conjunction. */
  function ReadConj(ts: seq<Tk>): (r: Read<seq<PPred>>)
    ensures r.Got? ==> |r.rest| < |ts|
    decreases |ts|
  {
    match ReadNot(ts)
    case Bad => Bad
    case Got(p, rest) =>
      if Starts(rest, TAnd) then
        match ReadConj(rest[1..])
        case Bad => Bad
        case Got(ps, last) => Got([p] + ps, last)
      else if Starts(rest, TOr) then Bad
      else Got([p], rest)
  }

  lemma LeafCompare(ts: seq<Tk>, l: PExpr, op: CmpOp, us: seq<Tk>, r: PExpr, k: seq<Tk>)
    requires ts != [] && (ts[0].TRaw? ==> OperatorNext(ts[1..]))
    requires ReadExpr(ts) == Got(l, [TCmp(op)] + us) && ReadExpr(us) == Got(r, k)
    ensures ReadLeaf(ts) == Got(PCompare(l, op, r), k)
  {
    Cons(TCmp(op), us);
  }

  lemma LeafIn(ts: seq<Tk>, e: PExpr, neg: bool, us: seq<Tk>, items: seq<PExpr>, k: seq<Tk>)
    requires ts != [] && (ts[0].TRaw? ==> OperatorNext(ts[1..]))
    requires ReadExpr(ts) == Got(e, [TIn(neg)] + ([TL] + us)) && ReadArgs(us) == Got(items, k)
    ensures ReadLeaf(ts) == Got(PInList(e, items, neg), k)
  {
    var rest := [TIn(neg)] + ([TL] + us);
    Cons(TIn(neg), [TL] + us);
    Cons(TL, us);
    assert rest[2..] == us;
  }

  lemma ReadLeafBack(p: PPred, k: seq<Tk>)
    requires (p.PCompare? || p.PInList? || p.PRawP?) && !OperatorNext(k)
    ensures ReadNot(PredToks(p) + k) == Got(p, k)
  {
    var ts := PredToks(p) + k;
    match p
    case PCompare(l, op, r) =>
      var us := ExprToks(r) + k;
      Regroup(ExprToks(l), TCmp(op), ExprToks(r), k);
      ReadExprBack(l, [TCmp(op)] + us);
      ReadExprBack(r, k);
      RawThenOperator(l, [TCmp(op)] + us);
      LeafCompare(ts, l, op, us, r, k);
    case PInList(e, items, neg) =>
      var us := ListToks(items) + [TR] + k;
      var tail := [TIn(neg)] + ([TL] + us);
      InListToks(ExprToks(e), neg, ListToks(items), k);
      ReadExprBack(e, tail);
      ReadArgsBack(items, k);
      RawThenOperator(e, tail);
      LeafIn(ts, e, neg, us, items, k);
    case PRawP(ps) =>
      assert ts[1..] == k;
  }

  lemma InListToks(e: seq<Tk>, neg: bool, items: seq<Tk>, k: seq<Tk>)
    ensures e + ([TIn(neg), TL] + (items + [TR])) + k ==
            e + ([TIn(neg)] + ([TL] + (items + [TR] + k)))
  {
  }

  /** Verbatim text in front of an operator is read as an operand. */
  lemma RawThenOperator(e: PExpr, tail: seq<Tk>)
    requires OperatorNext(tail)
    ensures var ts := ExprToks(e) + tail;
            ts != [] && ExprHead(ts[0]) && (ts[0].TRaw? ==> OperatorNext(ts[1..]))
  {
    ExprToksHead(e);
    if e.PRaw? {
      assert (ExprToks(e) + tail)[1..] == tail;
    }
  }

  lemma {:induction false} ReadNotBack(p: PPred, k: seq<Tk>)
    requires !OperatorNext(k)
    ensures ReadNot(PredToks(p) + k) == Got(p, k)
    decreases p, 1
  {
    match p
    case PNot(q) =>
      ReadNotBack(q, [TR] + k);
      ReadNegation(q, k);
    case PAnd(a, b) => ReadPairBack(p, k);
    case POr(a, b) => ReadPairBack(p, k);
    case _ =>
      ReadLeafBack(p, k);
  }

  /** `( inner )` is read as `inner`. */
  lemma ReadParen(inner: seq<Tk>, p: PPred, k: seq<Tk>)
    requires ReadOr(inner + ([TR] + k)) == Got(p, [TR] + k)
    ensures ReadNot([TL] + (inner + ([TR] + k))) == Got(p, k)
  {
    Cons(TL, inner + ([TR] + k));
    Cons(TR, k);
  }

  lemma AndOfOne(ts: seq<Tk>, p: PPred, rest: seq<Tk>)
    requires ReadNot(ts) == Got(p, rest) && !Starts(rest, TAnd)
    ensures ReadAnd(ts) == Got(p, rest)
  {
  }

  lemma OrOfOne(ts: seq<Tk>, p: PPred, rest: seq<Tk>)
    requires ReadAnd(ts) == Got(p, rest) && !Starts(rest, TOr)
    ensures ReadOr(ts) == Got(p, rest)
  {
  }

  lemma AndOfTwo(ts: seq<Tk>, a: PPred, us: seq<Tk>, b: PPred, rest: seq<Tk>)
    requires ReadNot(ts) == Got(a, [TAnd] + us) && ReadNot(us) == Got(b, rest)
    requires !Starts(rest, TAnd)
    ensures ReadAnd(ts) == Got(PAnd(a, b), rest)
  {
    Cons(TAnd, us);
    assert ReadAndTail(PAnd(a, b), rest) == Got(PAnd(a, b), rest);
  }

  lemma OrOfTwo(ts: seq<Tk>, a: PPred, us: seq<Tk>, b: PPred, rest: seq<Tk>)
    requires ReadAnd(ts) == Got(a, [TOr] + us) && ReadAnd(us) == Got(b, rest)
    requires !Starts(rest, TOr)
    ensures ReadOr(ts) == Got(POr(a, b), rest)
  {
    Cons(TOr, us);
    assert ReadOrTail(POr(a, b), rest) == Got(POr(a, b), rest);
  }

  lemma ReadNegation(q: PPred, k: seq<Tk>)
    requires ReadNot(PredToks(q) + ([TR] + k)) == Got(q, [TR] + k)
    ensures ReadNot(PredToks(PNot(q)) + k) == Got(PNot(q), k)
  {
    var inner := PredToks(q);
    AndOfOne(inner + ([TR] + k), q, [TR] + k);
    OrOfOne(inner + ([TR] + k), q, [TR] + k);
    ReadParen(inner, q, k);
    var body := [TL] + (inner + ([TR] + k));
    Cons(TNot, body);
    NegationToks(inner, k);
    assert ReadNot([TNot] + body) == Got(PNot(q), k);
  }

  lemma NegationToks(inner: seq<Tk>, k: seq<Tk>)
    ensures [TNot, TL] + (inner + [TR]) + k == [TNot] + ([TL] + (inner + ([TR] + k)))
  {
  }

  lemma {:induction false} ReadPairBack(p: PPred, k: seq<Tk>)
    requires p.PAnd? || p.POr?
    ensures ReadNot(PredToks(p) + k) == Got(p, k)
    decreases p, 0
  {
    var op := if p.PAnd? then TAnd else TOr;
    var last := [TR] + k;
    var second := PredToks(p.b) + last;
    Cons(op, second);
    Cons(TR, k);
    ReadNotBack(p.a, [op] + second);
    ReadNotBack(p.b, last);
    ReadPair(p.a, p.b, op, last);
    var inner := PredToks(p.a) + ([op] + PredToks(p.b));
    Regroup(PredToks(p.a), op, PredToks(p.b), last);
    ReadParen(inner, p, k);
    PairToks(PredToks(p.a), op, PredToks(p.b), k);
  }

  lemma PairToks(a: seq<Tk>, op: Tk, b: seq<Tk>, k: seq<Tk>)
    ensures [TL] + (a + ([op] + (b + [TR]))) + k == [TL] + ((a + ([op] + b)) + ([TR] + k))
  {
  }

  lemma ReadPair(a: PPred, b: PPred, op: Tk, last: seq<Tk>)
    requires (op == TAnd || op == TOr) && Starts(last, TR)
    requires ReadNot(PredToks(a) + ([op] + (PredToks(b) + last))) ==
             Got(a, [op] + (PredToks(b) + last))
    requires ReadNot(PredToks(b) + last) == Got(b, last)
    ensures ReadOr(PredToks(a) + ([op] + (PredToks(b) + last))) ==
            Got(if op == TAnd then PAnd(a, b) else POr(a, b), last)
  {
    var us := PredToks(b) + last;
    var ts := PredToks(a) + ([op] + us);
    Cons(op, us);
    if op == TAnd {
      AndOfTwo(ts, a, us, b, last);
      OrOfOne(ts, PAnd(a, b), last);
    } else {
      AndOfOne(ts, a, [op] + us);
      AndOfOne(us, b, last);
      OrOfTwo(ts, a, us, b, last);
    }
  }

  lemma {:induction false} ReadConjBack(ps: seq<PPred>, k: seq<Tk>)
    requires ps != [] && !OperatorNext(k) && !Starts(k, TAnd) && !Starts(k, TOr)
    ensures ReadConj(ConjToks(ps) + k) == Got(ps, k)
  {
    if |ps| == 1 {
      ReadNotBack(ps[0], k);
      assert ps == [ps[0]];
    } else {
      var tail := ConjToks(ps[1..]) + k;
      ReadConjBack(ps[1..], k);
      ReadNotBack(ps[0], [TAnd] + tail);
      Regroup(PredToks(ps[0]), TAnd, ConjToks(ps[1..]), k);
      assert ps == [ps[0]] + ps[1..];
    }
  }
}
