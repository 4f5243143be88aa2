/** The whole ClickHouse statement as tokens, the reader of such statements, and the binding of
    its parameter positions. */
module ChStatement {
  import opened Strings
  import opened Options
  import opened BindValues
  import opened QueryIr
  import opened ChRead

  // ---- Printing -------------------------------------------------------------

  function RawsToks(items: seq<seq<RPiece>>): seq<Tk> {
    if items == [] then []
    else if |items| == 1 then [TRaw(items[0])]
    else [TRaw(items[0])] + ([TComma] + RawsToks(items[1..]))
  }

  function TextsToks(items: seq<string>): seq<Tk> {
    if items == [] then []
    else if |items| == 1 then [TText(items[0])]
    else [TText(items[0])] + ([TComma] + TextsToks(items[1..]))
  }

  function OrdersToks(items: seq<OrderItem>): seq<Tk> {
    if items == [] then []
    else
      [TText(items[0].expr)] + ([TKw(if items[0].asc then KAsc else KDesc)]
      + (if |items| == 1 then [] else [TComma] + OrdersToks(items[1..])))
  }

  function JoinsToks(js: seq<PJoin>): seq<Tk> {
    if js == [] then []
    else [TKw(KJoin(js[0].kind)), TText(js[0].table), TKw(KOn), TRaw(js[0].on)] + JoinsToks(js[1..])
  }

  /** A clause is printed only when it has something to say. */
  function ClauseToks(k: Keyword, body: seq<Tk>, empty: bool): seq<Tk> {
    if empty then [] else [TKw(k)] + body
  }

  function LimitToks(q: PQuery): seq<Tk> {
    match q.limit
    case None => []
    case Some(PLimSlot(s)) => [TKw(KLimit), TSlot(s)]
    case Some(PLimLit(n)) => [TKw(KLimit), TText(DecInt(n))]
  }

  function OrderTail(q: PQuery): seq<Tk> {
    ClauseToks(KOrder, OrdersToks(q.orderBy), q.orderBy == []) + LimitToks(q)
  }

  function GroupTail(q: PQuery): seq<Tk> {
    ClauseToks(KGroup, TextsToks(q.groupBy), q.groupBy == []) + OrderTail(q)
  }

  function WhereTail(q: PQuery): seq<Tk> {
    ClauseToks(KWhere, ConjToks(q.where_), q.where_ == []) + GroupTail(q)
  }

  function PreTail(q: PQuery): seq<Tk> {
    ClauseToks(KPrewhere, ConjToks(q.prewhere), q.prewhere == []) + WhereTail(q)
  }

  function JoinTail(q: PQuery): seq<Tk> {
    JoinsToks(q.joins) + PreTail(q)
  }

  function FromTail(q: PQuery): seq<Tk> {
    [TKw(KFrom), TText(q.from)] + ((if q.final then [TKw(KFinal)] else []) + JoinTail(q))
  }

  function StmtToks(q: PQuery): seq<Tk> {
    [TKw(KSelect)] + (RawsToks(q.select) + FromTail(q))
  }

  // ---- Reading --------------------------------------------------------------

  function ReadRaws(ts: seq<Tk>): (r: Read<seq<seq<RPiece>>>)
    ensures r.Got? ==> |r.rest| <= |ts|
    decreases |ts|
  {
    if ts == [] || !ts[0].TRaw? then Got([], ts)
    else if Starts(ts[1..], TComma) then
      match ReadRaws(ts[2..])
      case Bad => Bad
      case Got(more, rest) => Got([ts[0].ps] + more, rest)
    else Got([ts[0].ps], ts[1..])
  }

  function ReadTexts(ts: seq<Tk>): (r: Read<seq<string>>)
    ensures r.Got? ==> |r.rest| <= |ts|
    decreases |ts|
  {
    if ts == [] || !ts[0].TText? then Bad
    else if Starts(ts[1..], TComma) then
      match ReadTexts(ts[2..])
      case Bad => Bad
      case Got(more, rest) => Got([ts[0].s] + more, rest)
    else Got([ts[0].s], ts[1..])
  }

  function ReadOrders(ts: seq<Tk>): (r: Read<seq<OrderItem>>)
    ensures r.Got? ==> |r.rest| <= |ts|
    decreases |ts|
  {
    if |ts| < 2 || !ts[0].TText? || (ts[1] != TKw(KAsc) && ts[1] != TKw(KDesc)) then Bad
    else
      var item := OrderItem(ts[0].s, ts[1] == TKw(KAsc));
      if Starts(ts[2..], TComma) then
        match ReadOrders(ts[3..])
        case Bad => Bad
        case Got(more, rest) => Got([item] + more, rest)
      else Got([item], ts[2..])
  }

  function ReadJoins(ts: seq<Tk>): (r: Read<seq<PJoin>>)
    ensures r.Got? ==> |r.rest| <= |ts|
    decreases |ts|
  {
    if ts == [] || !ts[0].TKw? || !ts[0].k.KJoin? then Got([], ts)
    else if |ts| < 4 || !ts[1].TText? || ts[2] != TKw(KOn) || !ts[3].TRaw? then Bad
    else
      match ReadJoins(ts[4..])
      case Bad => Bad
      case Got(more, rest) => Got([PJoin(ts[0].k.kind, ts[1].s, ts[3].ps)] + more, rest)
  }

  function ReadFilter(k: Keyword, ts: seq<Tk>): (r: Read<seq<PPred>>)
  {
    if Starts(ts, TKw(k)) then ReadConj(ts[1..]) else Got([], ts)
  }

  function ReadGroup(ts: seq<Tk>): (r: Read<seq<string>>)
  {
    if Starts(ts, TKw(KGroup)) then ReadTexts(ts[1..]) else Got([], ts)
  }

  function ReadOrder(ts: seq<Tk>): (r: Read<seq<OrderItem>>)
  {
    if Starts(ts, TKw(KOrder)) then ReadOrders(ts[1..]) else Got([], ts)
  }

  /** The limit ends the statement; a literal limit is recognised by its numeral. */
  ghost predicate IsLimit(ts: seq<Tk>, l: Option<PLimit>) {
    match l
    case None => ts == []
    case Some(PLimSlot(s)) => ts == [TKw(KLimit), TSlot(s)]
    case Some(PLimLit(n)) => ts == [TKw(KLimit), TText(DecInt(n))]
  }

  ghost predicate ReadsOrder(ts: seq<Tk>, q: PQuery) {
    var r := ReadOrder(ts);
    r.Got? && r.value == q.orderBy && IsLimit(r.rest, q.limit)
  }

  ghost predicate ReadsGroup(ts: seq<Tk>, q: PQuery) {
    var r := ReadGroup(ts);
    r.Got? && r.value == q.groupBy && ReadsOrder(r.rest, q)
  }

  ghost predicate ReadsWhere(ts: seq<Tk>, q: PQuery) {
    var r := ReadFilter(KWhere, ts);
    r.Got? && r.value == q.where_ && ReadsGroup(r.rest, q)
  }

  ghost predicate ReadsPrewhere(ts: seq<Tk>, q: PQuery) {
    var r := ReadFilter(KPrewhere, ts);
    r.Got? && r.value == q.prewhere && ReadsWhere(r.rest, q)
  }

  ghost predicate ReadsJoins(ts: seq<Tk>, q: PQuery) {
    var r := ReadJoins(ts);
    r.Got? && r.value == q.joins && ReadsPrewhere(r.rest, q)
  }

  ghost predicate ReadsFrom(ts: seq<Tk>, q: PQuery) {
    && |ts| > 1 && ts[0] == TKw(KFrom) && ts[1] == TText(q.from)
    && q.final == Starts(ts[2..], TKw(KFinal))
    && ReadsJoins(if q.final then ts[3..] else ts[2..], q)
  }

  /** `q` is what the token list says, clause by clause. */
  ghost predicate Reads(ts: seq<Tk>, q: PQuery) {
    && Starts(ts, TKw(KSelect))
    && var r := ReadRaws(ts[1..]);
       r.Got? && r.value == q.select && ReadsFrom(r.rest, q)
  }

  lemma LimitUnique(ts: seq<Tk>, l: Option<PLimit>, m: Option<PLimit>)
    requires IsLimit(ts, l) && IsLimit(ts, m)
    ensures l == m
  {
    if l.Some? && l.value.PLimLit? && m.Some? && m.value.PLimLit? {
      DecIntInjective(l.value.n, m.value.n);
    }
  }

  /** A token list says at most one thing. */
  lemma ReadsUnique(ts: seq<Tk>, q: PQuery, q': PQuery)
    requires Reads(ts, q) && Reads(ts, q')
    ensures q == q'
  {
    var from := ReadRaws(ts[1..]).rest;
    var joins := if q.final then from[3..] else from[2..];
    var pre := ReadJoins(joins).rest;
    var wh := ReadFilter(KPrewhere, pre).rest;
    var gr := ReadFilter(KWhere, wh).rest;
    var od := ReadGroup(gr).rest;
    LimitUnique(ReadOrder(od).rest, q.limit, q'.limit);
  }

  // ---- Reading undoes printing ------------------------------------------------

  function Rank(k: Keyword): nat {
    match k
    case KJoin(_) => 1
    case KPrewhere => 2
    case KWhere => 3
    case KGroup => 4
    case KOrder => 5
    case KLimit => 6
    case _ => 0
  }

  /** The rest of the statement: nothing, or a clause that comes after rank `r`. */
  predicate Later(ts: seq<Tk>, r: nat) {
    ts == [] || (ts[0].TKw? && Rank(ts[0].k) > r)
  }

  lemma ClauseLater(k: Keyword, body: seq<Tk>, empty: bool, tail: seq<Tk>, r: nat)
    requires Rank(k) > r && Later(tail, r)
    ensures Later(ClauseToks(k, body, empty) + tail, r)
  {
    if empty { assert ClauseToks(k, body, empty) + tail == tail; }
  }

  lemma TailsLater(q: PQuery)
    ensures Later(LimitToks(q), 5) && Later(OrderTail(q), 4) && Later(GroupTail(q), 3)
    ensures Later(WhereTail(q), 2) && Later(PreTail(q), 1)
  {
    ClauseLater(KOrder, OrdersToks(q.orderBy), q.orderBy == [], LimitToks(q), 4);
    ClauseLater(KGroup, TextsToks(q.groupBy), q.groupBy == [], OrderTail(q), 3);
    ClauseLater(KWhere, ConjToks(q.where_), q.where_ == [], GroupTail(q), 2);
    ClauseLater(KPrewhere, ConjToks(q.prewhere), q.prewhere == [], WhereTail(q), 1);
  }

  lemma {:induction false} RawsBack(items: seq<seq<RPiece>>, k: seq<Tk>)
    requires k != [] && k[0].TKw?
    ensures ReadRaws(RawsToks(items) + k) == Got(items, k)
  {
    if items == [] {
      assert RawsToks(items) + k == k;
    } else if |items| == 1 {
      RawsLast(items[0], k);
      assert items == [items[0]];
    } else {
      RawsBack(items[1..], k);
      RawsStep(items[0], items[1..], RawsToks(items[1..]), k);
      assert items == [items[0]] + items[1..];
    }
  }

  lemma RawsLast(x: seq<RPiece>, k: seq<Tk>)
    requires k != [] && k[0].TKw?
    ensures ReadRaws([TRaw(x)] + k) == Got([x], k)
  {
    Cons(TRaw(x), k);
  }

  lemma RawsStep(x: seq<RPiece>, xs: seq<seq<RPiece>>, us: seq<Tk>, k: seq<Tk>)
    requires ReadRaws(us + k) == Got(xs, k)
    ensures ReadRaws(([TRaw(x)] + ([TComma] + us)) + k) == Got([x] + xs, k)
  {
    Regroup([TRaw(x)], TComma, us, k);
    RawsMore(x, xs, us + k, k);
  }

  lemma RawsMore(x: seq<RPiece>, xs: seq<seq<RPiece>>, us: seq<Tk>, k: seq<Tk>)
    requires ReadRaws(us) == Got(xs, k)
    ensures ReadRaws([TRaw(x)] + ([TComma] + us)) == Got([x] + xs, k)
  {
    Cons2(TRaw(x), TComma, us);
  }

  lemma {:induction false} TextsBack(items: seq<string>, k: seq<Tk>)
    requires items != [] && Later(k, 0)
    ensures ReadTexts(TextsToks(items) + k) == Got(items, k)
  {
    if |items| == 1 {
      Cons(TText(items[0]), k);
      assert items == [items[0]];
    } else {
      TextsBack(items[1..], k);
      TextsStep(items[0], items[1..], TextsToks(items[1..]), k);
      assert items == [items[0]] + items[1..];
    }
  }

  lemma TextsStep(x: string, xs: seq<string>, us: seq<Tk>, k: seq<Tk>)
    requires ReadTexts(us + k) == Got(xs, k)
    ensures ReadTexts(([TText(x)] + ([TComma] + us)) + k) == Got([x] + xs, k)
  {
    Regroup([TText(x)], TComma, us, k);
    TextsMore(x, xs, us + k, k);
  }

  lemma TextsMore(x: string, xs: seq<string>, us: seq<Tk>, k: seq<Tk>)
    requires ReadTexts(us) == Got(xs, k)
    ensures ReadTexts([TText(x)] + ([TComma] + us)) == Got([x] + xs, k)
  {
    Cons2(TText(x), TComma, us);
  }

  lemma {:induction false} OrdersBack(items: seq<OrderItem>, k: seq<Tk>)
    requires items != [] && Later(k, 0)
    ensures ReadOrders(OrdersToks(items) + k) == Got(items, k)
  {
    var dir := if items[0].asc then KAsc else KDesc;
    if |items| == 1 {
      OrdersOne(items[0], dir, [], k);
      assert [] + k == k;
      OrdersLast(items[0], dir, k);
      assert items == [items[0]];
    } else {
      OrdersBack(items[1..], k);
      OrdersStep(items[0], dir, items[1..], OrdersToks(items[1..]), k);
      assert items == [items[0]] + items[1..];
    }
  }

  lemma OrdersStep(x: OrderItem, dir: Keyword, xs: seq<OrderItem>, us: seq<Tk>, k: seq<Tk>)
    requires ReadOrders(us + k) == Got(xs, k) && dir == if x.asc then KAsc else KDesc
    ensures ReadOrders(([TText(x.expr)] + ([TKw(dir)] + ([TComma] + us))) + k) == Got([x] + xs, k)
  {
    OrdersOne(x, dir, [TComma] + us, k);
    Assoc([TComma], us, k);
    OrdersMore(x, dir, xs, us + k, k);
  }

  lemma OrdersOne(x: OrderItem, dir: Keyword, us: seq<Tk>, k: seq<Tk>)
    ensures ([TText(x.expr)] + ([TKw(dir)] + us)) + k == [TText(x.expr)] + ([TKw(dir)] + (us + k))
  {
  }

  lemma OrdersLast(x: OrderItem, dir: Keyword, k: seq<Tk>)
    requires Later(k, 0) && dir == if x.asc then KAsc else KDesc
    ensures ReadOrders([TText(x.expr)] + ([TKw(dir)] + k)) == Got([x], k)
  {
    Cons2(TText(x.expr), TKw(dir), k);
  }

  lemma OrdersMore(x: OrderItem, dir: Keyword, xs: seq<OrderItem>, us: seq<Tk>, k: seq<Tk>)
    requires ReadOrders(us) == Got(xs, k) && dir == if x.asc then KAsc else KDesc
    ensures ReadOrders([TText(x.expr)] + ([TKw(dir)] + ([TComma] + us))) == Got([x] + xs, k)
  {
    Cons3(TText(x.expr), TKw(dir), TComma, us);
    Cons(TComma, us);
  }

  lemma {:induction false} JoinsBack(js: seq<PJoin>, k: seq<Tk>)
    requires Later(k, 1)
    ensures ReadJoins(JoinsToks(js) + k) == Got(js, k)
  {
    if js == [] {
      assert JoinsToks(js) + k == k;
    } else {
      var head := [TKw(KJoin(js[0].kind)), TText(js[0].table), TKw(KOn), TRaw(js[0].on)];
      var tail := JoinsToks(js[1..]) + k;
      JoinsBack(js[1..], k);
      Assoc(head, JoinsToks(js[1..]), k);
      assert (head + tail)[4..] == tail;
      assert js == [js[0]] + js[1..];
    }
  }

  lemma FilterBack(k: Keyword, ps: seq<PPred>, tail: seq<Tk>)
    requires Rank(k) > 0 && Later(tail, Rank(k))
    ensures ReadFilter(k, ClauseToks(k, ConjToks(ps), ps == []) + tail) == Got(ps, tail)
  {
    if ps == [] {
      assert ClauseToks(k, ConjToks(ps), true) + tail == tail;
    } else {
      ReadConjBack(ps, tail);
      Assoc([TKw(k)], ConjToks(ps), tail);
      Cons(TKw(k), ConjToks(ps) + tail);
    }
  }

  lemma GroupBack(q: PQuery)
    ensures ReadGroup(GroupTail(q)) == Got(q.groupBy, OrderTail(q))
  {
    TailsLater(q);
    if q.groupBy == [] {
      assert GroupTail(q) == OrderTail(q);
    } else {
      TextsBack(q.groupBy, OrderTail(q));
      Assoc([TKw(KGroup)], TextsToks(q.groupBy), OrderTail(q));
      Cons(TKw(KGroup), TextsToks(q.groupBy) + OrderTail(q));
    }
  }

  lemma OrderBack(q: PQuery)
    ensures ReadOrder(OrderTail(q)) == Got(q.orderBy, LimitToks(q))
  {
    TailsLater(q);
    if q.orderBy == [] {
      assert OrderTail(q) == LimitToks(q);
    } else {
      OrdersBack(q.orderBy, LimitToks(q));
      Assoc([TKw(KOrder)], OrdersToks(q.orderBy), LimitToks(q));
      Cons(TKw(KOrder), OrdersToks(q.orderBy) + LimitToks(q));
    }
  }

  lemma GroupStage(q: PQuery)
    ensures ReadsGroup(GroupTail(q), q)
  {
    GroupBack(q);
    OrderBack(q);
  }

  lemma WhereStage(q: PQuery)
    ensures ReadsWhere(WhereTail(q), q)
  {
    TailsLater(q);
    FilterBack(KWhere, q.where_, GroupTail(q));
    GroupStage(q);
  }

  lemma PrewhereStage(q: PQuery)
    ensures ReadsPrewhere(PreTail(q), q)
  {
    WhereLater(q);
    FilterBack(KPrewhere, q.prewhere, WhereTail(q));
    WhereStage(q);
  }

  lemma WhereLater(q: PQuery)
    ensures Later(WhereTail(q), 2)
  {
    TailsLater(q);
  }

  lemma FromBack(q: PQuery)
    ensures ReadsFrom(FromTail(q), q)
  {
    TailsLater(q);
    JoinsBack(q.joins, PreTail(q));
    PrewhereStage(q);
    assert ReadsJoins(JoinTail(q), q);
    if q.final {
      FromFinal(TKw(KFrom), TText(q.from), JoinTail(q));
    } else {
      JoinHead(q);
      FromPlain(TKw(KFrom), TText(q.from), JoinTail(q));
    }
  }

  lemma FromFinal(a: Tk, b: Tk, tail: seq<Tk>)
    ensures var ts := [a, b] + ([TKw(KFinal)] + tail);
            ts[0] == a && ts[1] == b && Starts(ts[2..], TKw(KFinal)) && ts[3..] == tail
  {
  }

  lemma FromPlain(a: Tk, b: Tk, tail: seq<Tk>)
    ensures var ts := [a, b] + ([] + tail); ts[0] == a && ts[1] == b && ts[2..] == tail
  {
  }

  lemma JoinHead(q: PQuery)
    ensures !Starts(JoinTail(q), TKw(KFinal))
  {
    TailsLater(q);
    if q.joins == [] {
      assert JoinTail(q) == PreTail(q);
    } else {
      assert JoinTail(q)[0] == JoinsToks(q.joins)[0];
    }
  }

  /** Every statement is read back as the query it was printed from. */
  lemma ReadsBack(q: PQuery)
    ensures Reads(StmtToks(q), q)
  {
    Cons(TKw(KSelect), RawsToks(q.select) + FromTail(q));
    RawsBack(q.select, FromTail(q));
    FromBack(q);
  }
}
