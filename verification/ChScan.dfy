/** Reading the characters of a ClickHouse statement. The reader knows what the dialect writes by its
    own list of words; where text of the query stands verbatim is taken as given. */
module ChScan {
  import opened Strings
  import opened Options
  import opened BindValues
  import opened QueryIr
  import opened ChBinding
  import opened ChText

  /** A character the dialect wrote, a piece of the query's own text, or a name standing in front of a
      parenthesis or behind AS. */
  datatype Glyph = Own(c: char) | Verbatim(t: Tk) | Name(s: string)

  /** The tokens that are nothing but text of the query. */
  predicate IsVerbatim(t: Tk) { t.TText? || t.TCol? || t.TLit? || t.TRaw? }

  function VerbatimText(t: Tk): string
    requires IsVerbatim(t)
  {
    match t
    case TText(s) => s
    case TCol(c) => c
    case TLit(l) => l
    case TRaw(ps) => RawText(ps)
  }

  predicate WellMarked(gs: seq<Glyph>) { forall g :: g in gs && g.Verbatim? ==> IsVerbatim(g.t) }

  /** The characters of a marked text. */
  function Plain(gs: seq<Glyph>): string
    requires WellMarked(gs)
  {
    if gs == [] then ""
    else
      assert gs[0] in gs;
      (match gs[0] case Own(c) => [c] case Verbatim(t) => VerbatimText(t) case Name(s) => s) + Plain(gs[1..])
  }

  // ---- The reader ---------------------------------------------------------------------------

  predicate OwnAt(gs: seq<Glyph>, w: string) {
    |w| <= |gs| && forall i :: 0 <= i < |w| ==> gs[i] == Own(w[i])
  }

  /** The character at a position, if the dialect wrote one there. */
  function CharAt(gs: seq<Glyph>, i: nat): char { if i < |gs| && gs[i].Own? then gs[i].c else '\0' }

  /** The words of the dialect, told apart by their first four characters, and what they mean. */
  function Word(a: char, b: char, c: char, d: char): Option<(string, Tk)> {
    if a == '?' then Some(("?", TSlot(Hole)))
    else if a == '(' then Some(("(", TL))
    else if a == ')' then Some((")", TR))
    else if a == ',' then Some((", ", TComma))
    else if a == 'N' then Some(("NOT ", TNot))
    else if a == 'C' then Some(("CAST(", TCastOpen))
    else if a == 'S' then Some(("SELECT ", TKw(KSelect)))
    else if a == ' ' then Spaced(b, c, d)
    else None
  }

  function Spaced(b: char, c: char, d: char): Option<(string, Tk)> {
    if b == '=' then Some((" = ", TCmp(Eq)))
    else if b == '!' then Some((" != ", TCmp(Ne)))
    else if b == '<' then (if c == '=' then Some((" <= ", TCmp(Le))) else Some((" < ", TCmp(Lt))))
    else if b == '>' then (if c == '=' then Some((" >= ", TCmp(Ge))) else Some((" > ", TCmp(Gt))))
    else if b == 'A' then
      if c == 'N' then Some((" AND ", TAnd)) else if d == 'C' then Some((" ASC", TKw(KAsc))) else None
    else if b == 'O' then
      if c == 'N' then Some((" ON ", TKw(KOn)))
      else if d == 'D' then Some((" ORDER BY ", TKw(KOrder)))
      else Some((" OR ", TOr))
    else if b == 'F' then
      if c == 'I' then Some((" FINAL", TKw(KFinal))) else Some((" FROM ", TKw(KFrom)))
    else if b == 'L' then
      if c == 'I' then Some((" LIMIT ", TKw(KLimit))) else Some((" LEFT JOIN ", TKw(KJoin(Left))))
    else if b == 'I' then Some((" IN ", TIn(false)))
    else if b == 'N' then Some((" NOT IN ", TIn(true)))
    else if b == 'J' then Some((" JOIN ", TKw(KJoin(Inner))))
    else if b == 'P' then Some((" PREWHERE ", TKw(KPrewhere)))
    else if b == 'W' then Some((" WHERE ", TKw(KWhere)))
    else if b == 'G' then Some((" GROUP BY ", TKw(KGroup)))
    else if b == 'D' then Some((" DESC", TKw(KDesc)))
    else None
  }

  /** The token at the head of a marked text, and how many glyphs it takes. */
  function Next(gs: seq<Glyph>): Option<(Tk, nat)> {
    if gs == [] then None
    else match gs[0]
      case Verbatim(t) => Some((t, 1))
      case Name(f) => if CharAt(gs, 1) == '(' then Some((TFnOpen(f), 2)) else None
      case Own(_) =>
        if OwnAt(gs, " AS ") && |gs| > 4 && gs[4].Name? then Some((TAs(gs[4].s), 5))
        else
          match Word(CharAt(gs, 0), CharAt(gs, 1), CharAt(gs, 2), CharAt(gs, 3))
          case None => None
          case Some(w) => if w.0 != "" && OwnAt(gs, w.0) then Some((w.1, |w.0|)) else None
  }

  /** The tokens of a marked text, if it can be read to its end. */
  function Scan(gs: seq<Glyph>): Option<seq<Tk>>
    decreases |gs|
  {
    if gs == [] then Some([])
    else
      match Next(gs)
      case None => None
      case Some(x) =>
        if x.1 == 0 || x.1 > |gs| then None
        else
          match Scan(gs[x.1..])
          case None => None
          case Some(ts) => Some([x.0] + ts)
  }

  // ---- The text of a statement, marked ----------------------------------------------------------

  function Owns(s: string): seq<Glyph> { if s == "" then [] else [Own(s[0])] + Owns(s[1..]) }

  /** A printed token with its verbatim part marked. */
  function MarkTok(t: Tk): seq<Glyph> {
    match t
    case TText(_) => [Verbatim(t)]
    case TCol(_) => [Verbatim(t)]
    case TLit(_) => [Verbatim(t)]
    case TRaw(_) => [Verbatim(t)]
    case TFnOpen(f) => [Name(f)] + Owns(Spell(t)[|f|..])
    case TAs(ty) => Owns(Spell(t)[..|Spell(t)| - |ty|]) + [Name(ty)]
    case _ => Owns(Spell(t))
  }

  function Marked(ts: seq<Tk>): seq<Glyph> { if ts == [] then [] else MarkTok(ts[0]) + Marked(ts[1..]) }

  lemma {:induction false} OwnsAt(s: string)
    ensures |Owns(s)| == |s| && forall i :: 0 <= i < |s| ==> Owns(s)[i] == Own(s[i])
  {
    if s != "" {
      OwnsAt(s[1..]);
      assert forall i :: 1 <= i < |s| ==> Owns(s)[i] == Owns(s[1..])[i - 1];
    }
  }

  lemma {:induction false} PlainAppend(a: seq<Glyph>, b: seq<Glyph>)
    requires WellMarked(a) && WellMarked(b)
    ensures WellMarked(a + b) && Plain(a + b) == Plain(a) + Plain(b)
  {
    if a == [] {
      assert a + b == b;
    } else {
      assert WellMarked(a[1..]) by { assert forall g :: g in a[1..] ==> g in a; }
      HeadTail(a, b);
      PlainAppend(a[1..], b);
    }
  }

  lemma {:induction false} PlainOwns(s: string)
    ensures WellMarked(Owns(s)) && Plain(Owns(s)) == s
  {
    OwnsAt(s);
    if s != "" {
      PlainOwns(s[1..]);
      assert s == [s[0]] + s[1..];
    }
  }

  lemma PlainName(n: string)
    ensures WellMarked([Name(n)]) && Plain([Name(n)]) == n
  {
    assert [Name(n)][1..] == [];
  }

  lemma PlainVerbatim(t: Tk)
    requires IsVerbatim(t)
    ensures WellMarked([Verbatim(t)]) && Plain([Verbatim(t)]) == VerbatimText(t) == Spell(t)
  {
    assert [Verbatim(t)][1..] == [];
  }

  lemma PlainTok(t: Tk)
    ensures WellMarked(MarkTok(t)) && Plain(MarkTok(t)) == Spell(t)
  {
    match t
    case TText(_) => PlainVerbatim(t);
    case TCol(_) => PlainVerbatim(t);
    case TLit(_) => PlainVerbatim(t);
    case TRaw(_) => PlainVerbatim(t);
    case TFnOpen(f) =>
      PlainName(f);
      PlainOwns(Spell(t)[|f|..]);
      PlainAppend([Name(f)], Owns(Spell(t)[|f|..]));
    case TAs(ty) =>
      PlainName(ty);
      PlainOwns(Spell(t)[..|Spell(t)| - |ty|]);
      PlainAppend(Owns(Spell(t)[..|Spell(t)| - |ty|]), [Name(ty)]);
    case _ => PlainOwns(Spell(t));
  }

  /** The marked text is the text. */
  lemma {:induction false} PlainMarked(ts: seq<Tk>)
    ensures WellMarked(Marked(ts)) && Plain(Marked(ts)) == SqlText(ts)
  {
    if ts != [] {
      PlainTok(ts[0]);
      PlainMarked(ts[1..]);
      PlainAppend(MarkTok(ts[0]), Marked(ts[1..]));
    }
  }

  // ---- Reading gives the tokens back -------------------------------------------------------------

  /** What the reader makes of the first four characters. */
  function WordAt(gs: seq<Glyph>): Option<(string, Tk)> {
    Word(CharAt(gs, 0), CharAt(gs, 1), CharAt(gs, 2), CharAt(gs, 3))
  }

  lemma CharsAt(gs: seq<Glyph>, w: string)
    requires OwnAt(gs, w)
    ensures |w| > 0 ==> CharAt(gs, 0) == w[0]
    ensures |w| > 1 ==> CharAt(gs, 1) == w[1]
    ensures |w| > 2 ==> CharAt(gs, 2) == w[2]
    ensures |w| > 3 ==> CharAt(gs, 3) == w[3]
  {
  }

  lemma SpellsOp(op: CmpOp, gs: seq<Glyph>)
    requires OwnAt(gs, Spell(TCmp(op)))
    ensures WordAt(gs) == Some((Spell(TCmp(op)), TCmp(op)))
  {
    CharsAt(gs, Spell(TCmp(op)));
    assert Spell(TCmp(op)) == match op
                              case Eq => " = " case Ne => " != " case Lt => " < "
                              case Le => " <= " case Gt => " > " case Ge => " >= ";
  }

  lemma SpellsKw(k: Keyword, gs: seq<Glyph>)
    requires OwnAt(gs, SpellKw(k))
    ensures WordAt(gs) == Some((SpellKw(k), TKw(k)))
  {
    CharsAt(gs, SpellKw(k));
  }

  /** The tokens of the dialect's own words. */
  predicate IsWord(t: Tk) { !IsVerbatim(t) && !t.TFnOpen? && !t.TAs? && (t.TSlot? ==> t.slot == Hole) }

  lemma SpellsWord(t: Tk, gs: seq<Glyph>)
    requires IsWord(t) && OwnAt(gs, Spell(t))
    ensures WordAt(gs) == Some((Spell(t), t)) && Spell(t) != ""
  {
    if t.TKw? {
      SpellsKw(t.k, gs);
    } else if t.TCmp? {
      SpellsOp(t.op, gs);
    } else {
      CharsAt(gs, Spell(t));
    }
  }

  lemma OwnsFirst(w: string, rest: seq<Glyph>)
    ensures OwnAt(Owns(w) + rest, w) && |Owns(w)| == |w| && (Owns(w) + rest)[|w|..] == rest
  {
    OwnsAt(w);
  }

  lemma AsIsNoWord(gs: seq<Glyph>)
    requires OwnAt(gs, " AS ")
    ensures WordAt(gs) == None
  {
    CharsAt(gs, " AS ");
  }

  /** The token in front of anything is read. */
  lemma NextBack(t: Tk, rest: seq<Glyph>)
    requires Open(t)
    ensures var gs := MarkTok(t) + rest; Next(gs) == Some((t, |MarkTok(t)|)) && gs[|MarkTok(t)|..] == rest
  {
    if IsWord(t) {
      OwnsFirst(Spell(t), rest);
      SpellsWord(t, Owns(Spell(t)) + rest);
      if OwnAt(Owns(Spell(t)) + rest, " AS ") { AsIsNoWord(Owns(Spell(t)) + rest); }
    } else if t.TFnOpen? {
      NextFn(t.fname, rest);
    } else if t.TAs? {
      NextAs(t.ty, rest);
    }
  }

  lemma NextFn(f: string, rest: seq<Glyph>)
    ensures MarkTok(TFnOpen(f)) == [Name(f), Own('(')]
    ensures Next(MarkTok(TFnOpen(f)) + rest) == Some((TFnOpen(f), 2))
  {
    assert Spell(TFnOpen(f))[|f|..] == "(";
    assert Owns("(") == [Own('(')] by { assert "("[1..] == ""; }
  }

  lemma NextAs(ty: string, rest: seq<Glyph>)
    ensures var gs := MarkTok(TAs(ty)) + rest; Next(gs) == Some((TAs(ty), |MarkTok(TAs(ty))|))
  {
    var s := Spell(TAs(ty));
    assert s[..|s| - |ty|] == " AS ";
    OwnsFirst(" AS ", [Name(ty)] + rest);
    var gs := MarkTok(TAs(ty)) + rest;
    assert gs == Owns(" AS ") + ([Name(ty)] + rest);
    assert gs[4] == Name(ty);
  }

  /** Reading the marked text gives the tokens back. */
  lemma {:induction false} ScanBack(ts: seq<Tk>)
    requires forall t :: t in ts ==> Open(t)
    ensures Scan(Marked(ts)) == Some(ts)
  {
    if ts != [] {
      assert ts[0] in ts;
      assert forall t :: t in ts[1..] ==> t in ts;
      ScanBack(ts[1..]);
      NextBack(ts[0], Marked(ts[1..]));
      MarkSome(ts[0]);
      assert ts == [ts[0]] + ts[1..];
    }
  }

  lemma MarkSome(t: Tk)
    requires Open(t)
    ensures MarkTok(t) != []
  {
    OwnsAt(Spell(t));
    if IsWord(t) { NonEmptyWord(t); }
  }

  lemma NonEmptyWord(t: Tk)
    requires IsWord(t)
    ensures Spell(t) != ""
  {
  }

  /** Some marking of the text reads as these tokens. */
  ghost predicate ReadsAs(sql: string, ts: seq<Tk>) {
    exists gs :: WellMarked(gs) && Plain(gs) == sql && Scan(gs) == Some(ts)
  }

  /** The printed text of tokens whose positions are open reads as these tokens. */
  lemma TextReadsBack(ts: seq<Tk>)
    requires forall t :: t in ts ==> Open(t)
    ensures ReadsAs(SqlText(ts), ts)
  {
    PlainMarked(ts);
    ScanBack(ts);
  }
}
