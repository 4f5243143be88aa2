/** The characters of a ClickHouse statement and the pairing of its `?`s with values. */
module ChText {
  import opened Strings
  import opened BindValues
  import opened QueryIr
  import opened ChBinding

  function SpellOp(op: CmpOp): string {
    match op
    case Eq => "="
    case Ne => "!="
    case Lt => "<"
    case Le => "<="
    case Gt => ">"
    case Ge => ">="
  }

  function SpellKw(k: Keyword): string {
    match k
    case KSelect => "SELECT "
    case KFrom => " FROM "
    case KFinal => " FINAL"
    case KJoin(kind) => if kind.Inner? then " JOIN " else " LEFT JOIN "
    case KOn => " ON "
    case KPrewhere => " PREWHERE "
    case KWhere => " WHERE "
    case KGroup => " GROUP BY "
    case KOrder => " ORDER BY "
    case KAsc => " ASC"
    case KDesc => " DESC"
    case KLimit => " LIMIT "
  }

  function RawText(ps: seq<RPiece>): string {
    if ps == [] then "" else [if ps[0].RCh? then ps[0].c else '?'] + RawText(ps[1..])
  }

  function Spell(t: Tk): string {
    match t
    case TKw(k) => SpellKw(k)
    case TText(s) => s
    case TCol(c) => c
    case TLit(l) => l
    case TSlot(_) => "?"
    case TRaw(ps) => RawText(ps)
    case TFnOpen(f) => f + "("
    case TCastOpen => "CAST("
    case TAs(ty) => " AS " + ty
    case TCmp(op) => " " + SpellOp(op) + " "
    case TIn(neg) => if neg then " NOT IN " else " IN "
    case TAnd => " AND "
    case TOr => " OR "
    case TNot => "NOT "
    case TL => "("
    case TR => ")"
    case TComma => ", "
  }

  function SqlText(ts: seq<Tk>): string {
    if ts == [] then "" else Spell(ts[0]) + SqlText(ts[1..])
  }

  lemma {:induction false} TextAppend(a: seq<Tk>, b: seq<Tk>)
    ensures SqlText(a + b) == SqlText(a) + SqlText(b)
  {
    if a == [] {
      assert a + b == b;
    } else {
      HeadTail(a, b);
      TextAppend(a[1..], b);
      Assoc(Spell(a[0]), SqlText(a[1..]), SqlText(b));
    }
  }

  // ---- What is executed -------------------------------------------------------

  function RawPieces(ps: seq<RPiece>): seq<Piece> {
    if ps == [] then []
    else [match ps[0] case RCh(c) => Lit(c) case RSlot(Val(v)) => Arg(v) case RSlot(Hole) => Lit('?')]
         + RawPieces(ps[1..])
  }

  function TokPieces(t: Tk): seq<Piece> {
    match t
    case TSlot(Val(v)) => [Arg(v)]
    case TRaw(ps) => RawPieces(ps)
    case _ => Lits(Spell(t))
  }

  /** The statement with its values in place. */
  function Pieces(ts: seq<Tk>): seq<Piece> {
    if ts == [] then [] else TokPieces(ts[0]) + Pieces(ts[1..])
  }

  function QMarks(s: string): nat {
    if s == "" then 0 else (if s[0] == '?' then 1 else 0) + QMarks(s[1..])
  }

  /** The client's binding: the `k`-th `?` of the text is the `k`-th value. */
  function Pair(s: string, vs: seq<BindValue>): seq<Piece>
    requires QMarks(s) == |vs|
  {
    if s == "" then []
    else if s[0] == '?' then [Arg(vs[0])] + Pair(s[1..], vs[1..])
    else [Lit(s[0])] + Pair(s[1..], vs)
  }

  ghost predicate Pairs(s: string, vs: seq<BindValue>, ps: seq<Piece>) {
    QMarks(s) == |vs| && Pair(s, vs) == ps
  }

  lemma {:induction false} QMarksAppend(a: string, b: string)
    ensures QMarks(a + b) == QMarks(a) + QMarks(b)
  {
    if a == "" {
      assert a + b == b;
    } else {
      HeadTail(a, b);
      QMarksAppend(a[1..], b);
    }
  }

  lemma {:induction false} PairsAppend(a: string, va: seq<BindValue>, x: seq<Piece>,
                                       b: string, vb: seq<BindValue>, y: seq<Piece>)
    requires Pairs(a, va, x) && Pairs(b, vb, y)
    ensures Pairs(a + b, va + vb, x + y)
  {
    if a == "" {
      assert a + b == b && va + vb == vb && x + y == y;
    } else {
      HeadTail(a, b);
      HeadTail(x, y);
      if a[0] == '?' {
        HeadTail(va, vb);
        PairsAppend(a[1..], va[1..], x[1..], b, vb, y);
      } else {
        PairsAppend(a[1..], va, x[1..], b, vb, y);
      }
    }
  }

  // ---- Question marks of the verbatim text ---------------------------------------

  function RawQ(ps: seq<RPiece>): nat {
    if ps == [] then 0 else (if ps[0] == RCh('?') then 1 else 0) + RawQ(ps[1..])
  }

  /** The `?`s a token shows that are not parameter positions. */
  function VerbatimQ(t: Tk): nat {
    match t
    case TSlot(_) => 0
    case TRaw(ps) => RawQ(ps)
    case _ => QMarks(Spell(t))
  }

  function VerbatimQs(ts: seq<Tk>): nat {
    if ts == [] then 0 else VerbatimQ(ts[0]) + VerbatimQs(ts[1..])
  }

  lemma {:induction false} RawTextMarks(ps: seq<RPiece>)
    requires OpenRaw(ps)
    ensures QMarks(RawText(ps)) == RawHoles(ps) + RawQ(ps)
  {
    if ps != [] {
      RawTextMarks(ps[1..]);
      Cons(if ps[0].RCh? then ps[0].c else '?', RawText(ps[1..]));
    }
  }

  lemma TokMarks(t: Tk)
    requires Open(t)
    ensures QMarks(Spell(t)) == TokHoles(t) + VerbatimQ(t)
  {
    if t.TRaw? {
      RawTextMarks(t.ps);
    }
  }

  lemma {:induction false} TextMarks(ts: seq<Tk>)
    requires forall t :: t in ts ==> Open(t)
    ensures QMarks(SqlText(ts)) == HoleCount(ts) + VerbatimQs(ts)
  {
    if ts != [] {
      assert Open(ts[0]);
      TokMarks(ts[0]);
      TextMarks(ts[1..]);
      QMarksAppend(Spell(ts[0]), SqlText(ts[1..]));
    }
  }

  lemma {:induction false} PairsLits(s: string)
    requires QMarks(s) == 0
    ensures Pairs(s, [], Lits(s))
  {
    if s != "" { PairsLits(s[1..]); }
  }

  lemma {:induction false} PairsRaw(ps: seq<RPiece>, vs: seq<BindValue>)
    requires OpenRaw(ps) && RawQ(ps) == 0 && RawHoles(ps) == |vs|
    ensures Pairs(RawText(ps), vs, RawPieces(FillRaw(ps, vs)))
  {
    if ps != [] {
      var c := if ps[0].RCh? then ps[0].c else '?';
      Cons(c, RawText(ps[1..]));
      if ps[0].RCh? {
        PairsRaw(ps[1..], vs);
      } else {
        PairsRaw(ps[1..], vs[1..]);
      }
    }
  }

  lemma PairsTok(t: Tk, vs: seq<BindValue>)
    requires Open(t) && VerbatimQ(t) == 0 && TokHoles(t) == |vs|
    ensures Pairs(Spell(t), vs, TokPieces(FillTok(t, vs)))
  {
    match t
    case TRaw(ps) => PairsRaw(ps, vs);
    case TSlot(s) =>
    case _ => PairsLits(Spell(t));
  }

  lemma FillsUncons(ts: seq<Tk>, vs: seq<BindValue>, us: seq<Tk>) returns (n: nat)
    requires ts != [] && Fills(ts, vs, us)
    ensures Open(ts[0]) && n == TokHoles(ts[0]) && n <= |vs|
    ensures us != [] && us[0] == FillTok(ts[0], vs[..n]) && Fills(ts[1..], vs[n..], us[1..])
  {
    n := TokHoles(ts[0]);
    assert ts[0] in ts;
    Cons(FillTok(ts[0], vs[..n]), FillToks(ts[1..], vs[n..]));
  }

  lemma PairsBoth(t: Tk, b: string, vs: seq<BindValue>, n: nat, x: seq<Piece>, y: seq<Piece>)
    requires n <= |vs| && Pairs(Spell(t), vs[..n], x) && Pairs(b, vs[n..], y)
    ensures Pairs(Spell(t) + b, vs, x + y)
  {
    PairsAppend(Spell(t), vs[..n], x, b, vs[n..], y);
    TakeDrop(vs, n);
  }

  lemma {:induction false} PairsToks(ts: seq<Tk>, vs: seq<BindValue>, us: seq<Tk>)
    requires Fills(ts, vs, us) && VerbatimQs(ts) == 0
    ensures Pairs(SqlText(ts), vs, Pieces(us))
  {
    if ts != [] {
      var n := FillsUncons(ts, vs, us);
      PairsTok(ts[0], vs[..n]);
      PairsToks(ts[1..], vs[n..], us[1..]);
      PairsBoth(ts[0], SqlText(ts[1..]), vs, n, TokPieces(us[0]), Pieces(us[1..]));
    }
  }

  /** The `?`s of the text pair off with the values exactly when no verbatim text contains one,
      and then each bind receives its own value. */
  lemma PairingExact(ts: seq<Tk>, vs: seq<BindValue>, us: seq<Tk>)
    requires Fills(ts, vs, us)
    ensures QMarks(SqlText(ts)) == |vs| <==> VerbatimQs(ts) == 0
    ensures VerbatimQs(ts) == 0 ==> Pairs(SqlText(ts), vs, Pieces(us))
  {
    TextMarks(ts);
    if VerbatimQs(ts) == 0 {
      PairsToks(ts, vs, us);
    }
  }
}
