/** What the scanners guarantee: the Postgres text can be read back exactly, the source can be
    restored from it, and the two routes to ClickHouse text agree - with the precise conditions. */
module BindLaws {
  import opened Strings
  import opened BindValues
  import opened BindText

  /** Tokenising loses nothing. */
  lemma {:induction false} SourceOfTokens(pc: bool, s: string)
    ensures Source(Tokens(pc, s)) == s
    decreases |s|
  {
    if s == "" {
    } else if BindHere(pc, s) {
      var j := 1 + IdentLen(s[1..]);
      SourceOfTokens(false, s[j..]);
      SourceCons(Bind(s[1..j]), Tokens(false, s[j..]));
      ThreeParts(s, j);
    } else {
      SourceOfTokens(s[0] == ':', s[1..]);
      SourceCons(Ch(s[0]), Tokens(s[0] == ':', s[1..]));
    }
  }

  lemma SourceCons(t: Tok, us: seq<Tok>)
    ensures Source([t] + us) == (match t case Ch(c) => [c] case Bind(n) => ":" + n) + Source(us)
  {
    Cons(t, us);
  }

  lemma ThreeParts(s: string, j: nat)
    requires 1 <= j <= |s| && s[0] == ':'
    ensures s == ":" + s[1..j] + s[j..]
  {
  }

  // ---- Reading the Postgres text ------------------------------------------

  /** How Postgres reads the lowered text: characters and numbered parameters. */
  datatype PgTok = PgCh(c: char) | Ph(n: nat)

  function ReadPg(s: string): seq<PgTok>
    decreases |s|
  {
    if s == "" then []
    else if s[0] == '$' && |s| > 1 && IsDigit(s[1]) then
      var j := 1 + DigitLen(s[1..]);
      assert forall i :: 0 <= i < j - 1 ==> s[1..j][i] == s[1..][i];
      [Ph(ParseDec(s[1..j]))] + ReadPg(s[j..])
    else [PgCh(s[0])] + ReadPg(s[1..])
  }

  function Chs(s: string): seq<PgTok> {
    if s == "" then [] else [PgCh(s[0])] + Chs(s[1..])
  }

  /** The intended reading: the binds of `ts` are parameters k+1, k+2, ... from left to right. */
  function Numbered(ts: seq<Tok>, env: Env, k: nat): seq<PgTok> {
    if ts == [] then []
    else match ts[0]
      case Ch(c) => [PgCh(c)] + Numbered(ts[1..], env, k)
      case Bind(n) => [Ph(k + 1)] + (Chs(CastOf(env, n)) + Numbered(ts[1..], env, k + 1))
  }

  /** No dollar sign of the source is followed by a digit. */
  predicate NoDollarDigit(s: string) {
    forall i :: 0 <= i < |s| - 1 ==> !(s[i] == '$' && IsDigit(s[i + 1]))
  }

  lemma {:induction false} ReadPlain(a: string, t: string)
    requires '$' !in a
    ensures ReadPg(a + t) == Chs(a) + ReadPg(t)
  {
    if a == "" {
      assert a + t == t;
    } else {
      assert (a + t)[1..] == a[1..] + t;
      ReadPlain(a[1..], t);
    }
  }

  lemma ReadPlaceholder(d: string, t: string)
    requires d != "" && AllDigits(d) && (t == "" || !IsDigit(t[0]))
    ensures ReadPg("$" + d + t) == [Ph(ParseDec(d))] + ReadPg(t)
  {
    var s := "$" + d + t;
    assert s[1..] == d + t;
    DigitRunLen(d, t);
    assert s[1..1 + |d|] == d && s[1 + |d|..] == t;
    assert s[1] == d[0];
  }

  lemma {:induction false} DigitRunLen(d: string, t: string)
    requires AllDigits(d) && (t == "" || !IsDigit(t[0]))
    ensures DigitLen(d + t) == |d|
  {
    if d == "" {
      assert d + t == t;
    } else {
      assert (d + t)[1..] == d[1..] + t;
      DigitRunLen(d[1..], t);
    }
  }

  /** The lowered text begins as the source does, or with the dollar of a placeholder. */
  lemma PgHead(pc: bool, s: string, env: Env, k: nat)
    ensures var t := PgText(Tokens(pc, s), env, k);
            (s == "" <==> t == "") &&
            (s != "" ==> t[0] == if BindHere(pc, s) then '$' else s[0])
  {
  }

  lemma ReadBound(n: string, env: Env, k: nat, t: string)
    requires t == "" || !IsDigit(t[0])
    ensures ReadPg(PgPlaceholder(n, env, k) + t) == [Ph(k + 1)] + (Chs(CastOf(env, n)) + ReadPg(t))
  {
    var c := CastOf(env, n);
    DecRoundTrip(k + 1);
    ReadPlain(c, t);
    ReadPlaceholder(Dec(k + 1), c + t);
    Assoc("$" + Dec(k + 1), c, t);
  }

  lemma ReadBackBind(n: string, us: seq<Tok>, env: Env, k: nat)
    requires var t := PgText(us, env, k + 1);
             (t == "" || !IsDigit(t[0])) && ReadPg(t) == Numbered(us, env, k + 1)
    ensures ReadPg(PgText([Bind(n)] + us, env, k)) == Numbered([Bind(n)] + us, env, k)
  {
    assert ([Bind(n)] + us)[1..] == us;
    ReadBound(n, env, k, PgText(us, env, k + 1));
  }

  lemma ReadBackCh(c: char, us: seq<Tok>, env: Env, k: nat)
    requires var t := PgText(us, env, k);
             !(c == '$' && t != "" && IsDigit(t[0])) && ReadPg(t) == Numbered(us, env, k)
    ensures ReadPg(PgText([Ch(c)] + us, env, k)) == Numbered([Ch(c)] + us, env, k)
  {
    assert ([Ch(c)] + us)[1..] == us;
    assert ([c] + PgText(us, env, k))[1..] == PgText(us, env, k);
  }

  lemma {:induction false} ReadBack(pc: bool, s: string, env: Env, k: nat)
    requires NoDollarDigit(s)
    ensures ReadPg(PgText(Tokens(pc, s), env, k)) == Numbered(Tokens(pc, s), env, k)
    decreases |s|
  {
    if s == "" {
    } else if BindHere(pc, s) {
      var j := 1 + IdentLen(s[1..]);
      assert j < |s| ==> s[j] == s[1..][j - 1];
      ReadBack(false, s[j..], env, k + 1);
      PgHead(false, s[j..], env, k + 1);
      ReadBackBind(s[1..j], Tokens(false, s[j..]), env, k);
    } else {
      ReadBack(s[0] == ':', s[1..], env, k);
      PgHead(s[0] == ':', s[1..], env, k);
      ReadBackCh(s[0], Tokens(s[0] == ':', s[1..]), env, k);
    }
  }

  // ---- ... and only then --------------------------------------------------

  predicate DollarDigit(pts: seq<PgTok>) {
    |pts| > 1 &&
    ((pts[0] == PgCh('$') && pts[1].PgCh? && IsDigit(pts[1].c)) || DollarDigit(pts[1..]))
  }

  lemma {:induction false} ReadHasNoDollarDigit(t: string)
    ensures !DollarDigit(ReadPg(t))
    ensures ReadPg(t) != [] && ReadPg(t)[0].PgCh? ==> t != "" && ReadPg(t)[0].c == t[0]
    decreases |t|
  {
    if t == "" {
    } else if t[0] == '$' && |t| > 1 && IsDigit(t[1]) {
      var j := 1 + DigitLen(t[1..]);
      ReadHasNoDollarDigit(t[j..]);
      assert ReadPg(t)[1..] == ReadPg(t[j..]);
    } else {
      ReadHasNoDollarDigit(t[1..]);
      assert ReadPg(t)[1..] == ReadPg(t[1..]);
    }
  }

  lemma {:induction false} DollarDigitBehind(a: seq<PgTok>, pts: seq<PgTok>)
    requires DollarDigit(pts)
    ensures DollarDigit(a + pts)
  {
    if a == [] {
      assert a + pts == pts;
    } else {
      assert (a + pts)[1..] == a[1..] + pts;
      DollarDigitBehind(a[1..], pts);
    }
  }

  lemma NumberedBehind(t: Tok, us: seq<Tok>, env: Env, k: nat)
    requires DollarDigit(Numbered(us, env, if t.Bind? then k + 1 else k))
    ensures DollarDigit(Numbered([t] + us, env, k))
  {
    assert ([t] + us)[1..] == us;
    match t
    case Ch(c) => DollarDigitBehind([PgCh(c)], Numbered(us, env, k));
    case Bind(n) =>
      DollarDigitBehind(Chs(CastOf(env, n)), Numbered(us, env, k + 1));
      DollarDigitBehind([Ph(k + 1)], Chs(CastOf(env, n)) + Numbered(us, env, k + 1));
  }

  lemma {:induction false} NumberedDollarDigit(pc: bool, s: string, i: nat, env: Env, k: nat)
    requires i < |s| - 1 && s[i] == '$' && IsDigit(s[i + 1])
    ensures DollarDigit(Numbered(Tokens(pc, s), env, k))
    decreases |s|
  {
    if BindHere(pc, s) {
      var j := 1 + IdentLen(s[1..]);
      assert i > 0 ==> s[1..][i - 1] == s[i];
      NumberedDollarDigit(false, s[j..], i - j, env, k + 1);
      NumberedBehind(Bind(s[1..j]), Tokens(false, s[j..]), env, k);
    } else if i == 0 {
      assert Tokens(false, s[1..])[0] == Ch(s[1]);
    } else {
      NumberedDollarDigit(s[0] == ':', s[1..], i - 1, env, k);
      NumberedBehind(Ch(s[0]), Tokens(s[0] == ':', s[1..]), env, k);
    }
  }

  /** Postgres sees exactly the numbered binds, in order, iff no source `$` precedes a digit. */
  lemma PgNumberingExact(sql: string, env: Env)
    ensures var ts := Tokens(false, sql);
            ReadPg(PgText(ts, env, 0)) == Numbered(ts, env, 0) <==> NoDollarDigit(sql)
  {
    if NoDollarDigit(sql) {
      ReadBack(false, sql, env, 0);
    } else {
      var i :| 0 <= i < |sql| - 1 && sql[i] == '$' && IsDigit(sql[i + 1]);
      NumberedDollarDigit(false, sql, i, env, 0);
      ReadHasNoDollarDigit(PgText(Tokens(false, sql), env, 0));
    }
  }

  // ---- Consequences of the exact reading ------------------------------------

  /** Writes the names back: parameter `n` becomes `:names[n-1]` and its cast is dropped. */
  function PutBack(pts: seq<PgTok>, names: seq<string>, env: Env): string
    decreases |pts|
  {
    if pts == [] then ""
    else match pts[0]
      case PgCh(c) => [c] + PutBack(pts[1..], names, env)
      case Ph(n) =>
        if 1 <= n <= |names| then
          var w := 1 + |CastOf(env, names[n - 1])|;
          ":" + names[n - 1] + PutBack(if w <= |pts| then pts[w..] else [], names, env)
        else PutBack(pts[1..], names, env)
  }

  lemma {:induction false} ChsLen(s: string)
    ensures |Chs(s)| == |s|
  {
    if s != "" { ChsLen(s[1..]); }
  }

  lemma {:induction false} PutBackNumbered(ts: seq<Tok>, names: seq<string>, env: Env, k: nat)
    requires k <= |names| && names[k..] == BindNames(ts)
    ensures PutBack(Numbered(ts, env, k), names, env) == Source(ts)
  {
    if ts == [] {
    } else {
      match ts[0]
      case Ch(c) =>
        PutBackNumbered(ts[1..], names, env, k);
        assert Numbered(ts, env, k)[1..] == Numbered(ts[1..], env, k);
      case Bind(n) =>
        assert names[k] == names[k..][0] == n;
        assert names[k + 1..] == names[k..][1..] == BindNames(ts[1..]);
        PutBackNumbered(ts[1..], names, env, k + 1);
        ChsLen(CastOf(env, n));
        assert Numbered(ts, env, k)[1 + |CastOf(env, n)|..] == Numbered(ts[1..], env, k + 1);
    }
  }

  predicate DigitCh(t: PgTok) { t.PgCh? && IsDigit(t.c) }

  /** No digit right behind a dollar or a parameter. */
  ghost predicate DigitsApart(pts: seq<PgTok>) {
    forall j :: 1 <= j < |pts| && DigitCh(pts[j]) ==> pts[j - 1].PgCh? && pts[j - 1].c != '$'
  }

  lemma ApartCons(x: PgTok, pts: seq<PgTok>)
    requires DigitsApart(pts) && (pts != [] && DigitCh(pts[0]) ==> x.PgCh? && x.c != '$')
    ensures DigitsApart([x] + pts)
  {
    assert forall k :: 1 <= k < |[x] + pts| ==> ([x] + pts)[k] == pts[k - 1];
  }

  lemma {:induction false} ReadApart(t: string)
    ensures DigitsApart(ReadPg(t))
    decreases |t|
  {
    if t != "" {
      var j := if t[0] == '$' && |t| > 1 && IsDigit(t[1]) then 1 + DigitLen(t[1..]) else 1;
      assert j > 1 && j < |t| ==> t[j] == t[1..][j - 1];
      ReadApart(t[j..]);
      ReadHasNoDollarDigit(t[j..]);
      ApartCons(ReadPg(t)[0], ReadPg(t[j..]));
    }
  }

  lemma NoDollarInFront(a: string, s: string)
    requires NoDollarDigit(s) && Free(a, '$')
    ensures NoDollarDigit(a + s)
  {
    assert forall i :: 0 <= i < |a| ==> (a + s)[i] == a[i] && a[i] in a;
    assert forall i :: |a| <= i < |a + s| ==> (a + s)[i] == s[i - |a|];
  }

  /** Text put back from tokens: no dollar in front of a digit, and a digit first only if the tokens
      start with one. */
  ghost predicate BackApart(pts: seq<PgTok>, s: string) {
    NoDollarDigit(s) && (s != "" && IsDigit(s[0]) ==> pts != [] && DigitCh(pts[0]))
  }

  lemma CharBack(pts: seq<PgTok>, s: string)
    requires pts != [] && pts[0].PgCh? && DigitsApart(pts) && BackApart(pts[1..], s)
    ensures BackApart(pts, [pts[0].c] + s)
  {
    var t := [pts[0].c] + s;
    assert forall i :: 1 <= i < |t| ==> t[i] == s[i - 1];
    assert t[0] == pts[0].c;
  }

  lemma SkipBack(pts: seq<PgTok>, s: string)
    requires pts != [] && pts[0].Ph? && DigitsApart(pts) && BackApart(pts[1..], s)
    ensures BackApart(pts, s)
  {
  }

  lemma NameBack(pts: seq<PgTok>, n: string, rest: seq<PgTok>, s: string)
    requires BackApart(rest, s) && Free(n, '$')
    ensures BackApart(pts, ":" + n + s)
  {
    NoDollarInFront(":" + n, s);
    assert (":" + n + s)[0] == ':';
  }

  lemma ApartBehind(pts: seq<PgTok>, w: nat)
    requires DigitsApart(pts) && 1 <= w <= |pts|
    ensures DigitsApart(pts[w..])
  {
  }

  lemma {:induction false} PutBackApart(pts: seq<PgTok>, names: seq<string>, env: Env)
    requires DigitsApart(pts) && forall n :: n in names ==> Free(n, '$')
    ensures BackApart(pts, PutBack(pts, names, env))
    decreases |pts|
  {
    if pts != [] {
      ApartBehind(pts, 1);
      PutBackApart(pts[1..], names, env);
      match pts[0]
      case PgCh(c) => CharBack(pts, PutBack(pts[1..], names, env));
      case Ph(n) =>
        if 1 <= n <= |names| {
          var w := 1 + |CastOf(env, names[n - 1])|;
          var rest := if w <= |pts| then pts[w..] else [];
          if w <= |pts| { ApartBehind(pts, w); }
          PutBackApart(rest, names, env);
          NameBack(pts, names[n - 1], rest, PutBack(rest, names, env));
        } else {
          SkipBack(pts, PutBack(pts[1..], names, env));
        }
    }
  }

  lemma {:induction false} NamesHaveNoDollar(pc: bool, s: string)
    ensures forall n :: n in BindNames(Tokens(pc, s)) ==> Free(n, '$')
    decreases |s|
  {
    if s == "" {
    } else if BindHere(pc, s) {
      var j := 1 + IdentLen(s[1..]);
      NamesHaveNoDollar(false, s[j..]);
      assert forall i :: 0 <= i < j - 1 ==> s[1..j][i] == s[1..][i];
      assert Tokens(pc, s)[1..] == Tokens(false, s[j..]);
    } else {
      NamesHaveNoDollar(s[0] == ':', s[1..]);
      assert Tokens(pc, s)[1..] == Tokens(s[0] == ':', s[1..]);
    }
  }

  /** The Postgres lowering is invertible exactly when no source `$` precedes a digit. */
  lemma PgInvertible(sql: string, env: Env)
    ensures var ts := Tokens(false, sql);
            PutBack(ReadPg(PgText(ts, env, 0)), BindNames(ts), env) == sql <==> NoDollarDigit(sql)
  {
    var ts := Tokens(false, sql);
    if NoDollarDigit(sql) {
      PgNumberingExact(sql, env);
      assert BindNames(ts)[0..] == BindNames(ts);
      PutBackNumbered(ts, BindNames(ts), env, 0);
      SourceOfTokens(false, sql);
    } else {
      NamesHaveNoDollar(false, sql);
      ReadApart(PgText(ts, env, 0));
      PutBackApart(ReadPg(PgText(ts, env, 0)), BindNames(ts), env);
    }
  }

  /** Parameter `n` of a statement is the `n`-th bound value. */
  function Execute(pts: seq<PgTok>, values: seq<BindValue>): seq<Piece> {
    if pts == [] then []
    else (match pts[0]
          case PgCh(c) => [Lit(c)]
          case Ph(n) => if 1 <= n <= |values| then [Arg(values[n - 1])] else [])
         + Execute(pts[1..], values)
  }

  /** How a value is declared to the server: numbers at full width, anything else as the server infers. */
  function Declared(v: BindValue): string {
    match v
    case Int(_) => "::int8"
    case Float(_) => "::float8"
    case _ => ""
  }

  /** The statement the author wrote, each name standing for its own value as declared. */
  function ByName(ts: seq<Tok>, env: Env): seq<Piece>
    requires Resolved(BindNames(ts), env)
  {
    if ts == [] then []
    else match ts[0]
      case Ch(c) => [Lit(c)] + ByName(ts[1..], env)
      case Bind(n) =>
        assert n == BindNames(ts)[0];
        [Arg(env[n])] + (Lits(Declared(env[n])) + ByName(ts[1..], env))
  }

  lemma {:induction false} ExecuteChs(s: string, pts: seq<PgTok>, values: seq<BindValue>)
    ensures Execute(Chs(s) + pts, values) == Lits(s) + Execute(pts, values)
  {
    if s == "" {
      assert Chs(s) + pts == pts;
    } else {
      assert (Chs(s) + pts)[1..] == Chs(s[1..]) + pts;
      ExecuteChs(s[1..], pts, values);
    }
  }

  lemma {:induction false} ExecuteNumbered(ts: seq<Tok>, names: seq<string>, env: Env, k: nat)
    requires k <= |names| && names[k..] == BindNames(ts) && Resolved(names, env)
    requires Resolved(BindNames(ts), env)
    ensures Execute(Numbered(ts, env, k), Values(names, env)) == ByName(ts, env)
  {
    if ts == [] {
    } else {
      match ts[0]
      case Ch(c) =>
        ExecuteNumbered(ts[1..], names, env, k);
        assert Numbered(ts, env, k)[1..] == Numbered(ts[1..], env, k);
      case Bind(n) =>
        assert names[k] == names[k..][0] == n;
        assert names[k + 1..] == names[k..][1..] == BindNames(ts[1..]);
        ExecuteNumbered(ts[1..], names, env, k + 1);
        assert CastOf(env, n) == Declared(env[n]);
        ExecuteChs(CastOf(env, n), Numbered(ts[1..], env, k + 1), Values(names, env));
        assert Numbered(ts, env, k)[1..] == Chs(CastOf(env, n)) + Numbered(ts[1..], env, k + 1);
    }
  }

  predicate DigitLit(p: Piece) { p.Lit? && IsDigit(p.c) }

  /** No digit right behind a dollar. */
  ghost predicate LitsApart(ps: seq<Piece>) {
    forall j :: 1 <= j < |ps| && DigitLit(ps[j]) ==> ps[j - 1] != Lit('$')
  }

  lemma {:induction false} ExecuteApart(pts: seq<PgTok>, values: seq<BindValue>)
    requires DigitsApart(pts)
    ensures var ps := Execute(pts, values);
            LitsApart(ps) && (ps != [] && DigitLit(ps[0]) ==> pts != [] && DigitCh(pts[0]))
  {
    if pts != [] {
      ExecuteApart(pts[1..], values);
      var ps, rest := Execute(pts, values), Execute(pts[1..], values);
      if |ps| > |rest| {
        assert forall j :: 1 <= j < |ps| ==> ps[j] == rest[j - 1];
      } else {
        assert ps == rest;
      }
    }
  }

  lemma LitsBehind(a: seq<Piece>, ps: seq<Piece>)
    requires !LitsApart(ps)
    ensures !LitsApart(a + ps)
  {
    var j :| 1 <= j < |ps| && DigitLit(ps[j]) && ps[j - 1] == Lit('$');
    assert (a + ps)[|a| + j] == ps[j] && (a + ps)[|a| + j - 1] == ps[j - 1];
  }

  /** A dollar in front of a digit stays there when names become values. */
  lemma {:induction false} ByNameDollarDigit(pc: bool, s: string, i: nat, env: Env)
    requires i < |s| - 1 && s[i] == '$' && IsDigit(s[i + 1]) && Resolved(BindNames(Tokens(pc, s)), env)
    ensures !LitsApart(ByName(Tokens(pc, s), env))
    decreases |s|
  {
    if BindHere(pc, s) {
      var j := 1 + IdentLen(s[1..]);
      assert i > 0 ==> s[1..][i - 1] == s[i];
      assert Tokens(pc, s)[1..] == Tokens(false, s[j..]);
      ByNameDollarDigit(false, s[j..], i - j, env);
      var n, more := s[1..j], ByName(Tokens(false, s[j..]), env);
      LitsBehind([Arg(env[n])] + Lits(Declared(env[n])), more);
      Assoc([Arg(env[n])], Lits(Declared(env[n])), more);
    } else if i == 0 {
      assert Tokens(pc, s)[1..] == Tokens(false, s[1..]);
      assert Tokens(false, s[1..])[0] == Ch(s[1]);
      var more := ByName(Tokens(false, s[1..]), env);
      assert more[0] == Lit(s[1]);
      assert ([Lit('$')] + more)[1] == Lit(s[1]) && ([Lit('$')] + more)[0] == Lit('$');
      assert ByName(Tokens(pc, s), env) == [Lit('$')] + more;
    } else {
      assert Tokens(pc, s)[1..] == Tokens(s[0] == ':', s[1..]);
      ByNameDollarDigit(s[0] == ':', s[1..], i - 1, env);
      LitsBehind([Lit(s[0])], ByName(Tokens(s[0] == ':', s[1..]), env));
    }
  }

  /** What Postgres executes is the author's statement with every name replaced by its value, exactly
      when no source `$` precedes a digit. */
  lemma PgMeaning(sql: string, env: Env)
    requires Resolved(BindNames(Tokens(false, sql)), env)
    ensures var ts := Tokens(false, sql);
            Execute(ReadPg(PgText(ts, env, 0)), Values(BindNames(ts), env)) == ByName(ts, env) <==> NoDollarDigit(sql)
  {
    var ts := Tokens(false, sql);
    if NoDollarDigit(sql) {
      PgNumberingExact(sql, env);
      assert BindNames(ts)[0..] == BindNames(ts);
      ExecuteNumbered(ts, BindNames(ts), env, 0);
    } else {
      var i :| 0 <= i < |sql| - 1 && sql[i] == '$' && IsDigit(sql[i + 1]);
      ByNameDollarDigit(false, sql, i, env);
      ReadApart(PgText(ts, env, 0));
      ExecuteApart(ReadPg(PgText(ts, env, 0)), Values(BindNames(ts), env));
    }
  }

  /** `Dialect::lower` of Postgres: refused exactly when a name has no value; otherwise what the server
      executes is the author's statement with every name replaced by its declared value, exactly when
      no `$` of the source precedes a digit. */
  method LowerPostgres(sql: string, env: Env) returns (r: Lowered)
    ensures r.Bound? <==> Resolved(BindNames(Tokens(false, sql)), env)
    ensures r.Bound? ==> (Execute(ReadPg(r.sql), r.values) == ByName(Tokens(false, sql), env) <==> NoDollarDigit(sql))
    ensures r.Unresolved? ==> r.name in BindNames(Tokens(false, sql)) && r.name !in env
  {
    r := LowerBinds(sql, env);
    if r.Bound? {
      PgMeaning(sql, env);
      assert [] + Values(BindNames(Tokens(false, sql)), env) == Values(BindNames(Tokens(false, sql)), env);
    }
  }

  // ---- The two routes to ClickHouse text ------------------------------------

  /** No `$` before a digit, and no non-numeric bind right in front of a widening cast. */
  predicate Clean(pc: bool, s: string, env: Env)
    decreases |s|
  {
    if s == "" then true
    else if BindHere(pc, s) then
      var j := 1 + IdentLen(s[1..]);
      (Numeric(env, s[1..j]) || StripCast(s[j..]) == s[j..]) && Clean(false, s[j..], env)
    else
      !(s[0] == '$' && |s| > 1 && IsDigit(s[1])) && Clean(s[0] == ':', s[1..], env)
  }

  function ChToks(s: string): seq<Tok> {
    if s == "" then [] else [Ch(s[0])] + ChToks(s[1..])
  }

  lemma {:induction false} ColonFreeTokens(pc: bool, a: string, s: string)
    requires ':' !in a
    ensures Tokens(pc, a + s) == ChToks(a) + Tokens(pc && a == "", s)
  {
    if a == "" {
      assert a + s == s;
    } else {
      assert (a + s)[1..] == a[1..] + s;
      ColonFreeTokens(false, a[1..], s);
    }
  }

  lemma ColonTokens(pc: bool, s: string)
    requires pc || s == "" || s[0] == ':'
    ensures Tokens(pc, ":" + s) == [Ch(':')] + Tokens(true, s)
  {
    assert (":" + s)[1..] == s;
  }

  lemma PgTextCh(c: char, us: seq<Tok>, env: Env, k: nat)
    ensures PgText([Ch(c)] + us, env, k) == [c] + PgText(us, env, k)
  {
    assert ([Ch(c)] + us)[1..] == us;
  }

  lemma {:induction false} PlainPg(a: string, us: seq<Tok>, env: Env, k: nat)
    ensures PgText(ChToks(a) + us, env, k) == a + PgText(us, env, k)
  {
    var p := PgText(us, env, k);
    if a == "" {
      assert ChToks(a) + us == us;
    } else {
      PlainPg(a[1..], us, env, k);
      assert ChToks(a)[1..] == ChToks(a[1..]);
      PgTextCh(a[0], ChToks(a[1..]) + us, env, k);
      HeadTail(ChToks(a), us);
      HeadTail(a, p);
    }
  }

  lemma {:induction false} PlainCh(a: string, us: seq<Tok>)
    ensures ChText(ChToks(a) + us) == a + ChText(us)
  {
    var p := ChText(us);
    if a == "" {
      assert ChToks(a) + us == us;
    } else {
      PlainCh(a[1..], us);
      assert ChToks(a)[1..] == ChToks(a[1..]);
      HeadTail(ChToks(a), us);
      HeadTail(a, p);
    }
  }

  lemma {:induction false} LoweredPrefix(pc: bool, c: string, s: string, env: Env, k: nat)
    requires '$' !in c && StartsWith(PgText(Tokens(pc, s), env, k), c)
    ensures StartsWith(s, c)
    decreases |c|
  {
    if c != "" {
      var t := PgText(Tokens(pc, s), env, k);
      PgHead(pc, s, env, k);
      assert t[0] == c[0];
      assert !BindHere(pc, s);
      assert t[1..] == PgText(Tokens(s[0] == ':', s[1..]), env, k);
      LoweredPrefix(s[0] == ':', c[1..], s[1..], env, k);
    }
  }

  lemma StripInt8(p: string)
    ensures StripCast(":" + (":" + ("int8" + p))) == p
  {
    assert ":" + (":" + ("int8" + p)) == "::int8" + p;
  }

  lemma StripFloat8(p: string)
    ensures StripCast(":" + (":" + ("float8" + p))) == p
  {
    var s := "::float8" + p;
    assert ":" + (":" + ("float8" + p)) == s && s[2] == 'f';
  }

  lemma SplitCast(s: string)
    ensures var r := StripCast(s);
            s == r || s == ":" + (":" + ("int8" + r)) || s == ":" + (":" + ("float8" + r))
  {
  }

  /** Stripping a cast commutes with lowering. */
  lemma StripLowered(s: string, env: Env, k: nat)
    ensures var r := StripCast(s);
            StripCast(PgText(Tokens(false, s), env, k)) == PgText(Tokens(false, r), env, k) &&
            |ChText(Tokens(false, s))| == |s| - |r| + |ChText(Tokens(false, r))|
  {
    var r := StripCast(s);
    SplitCast(s);
    if s == r {
      StripNothing(s, env, k);
    } else if s == ":" + (":" + ("int8" + r)) {
      StripOne("int8", r, env, k);
      StripInt8(PgText(Tokens(false, r), env, k));
    } else {
      StripOne("float8", r, env, k);
      StripFloat8(PgText(Tokens(false, r), env, k));
    }
  }

  lemma StripNothing(s: string, env: Env, k: nat)
    requires StripCast(s) == s
    ensures var t := PgText(Tokens(false, s), env, k); StripCast(t) == t
  {
    var t := PgText(Tokens(false, s), env, k);
    if StartsWith(t, "::int8") { LoweredPrefix(false, "::int8", s, env, k); }
    if StartsWith(t, "::float8") { LoweredPrefix(false, "::float8", s, env, k); }
  }

  /** A cast in the source is copied as it stands. */
  lemma StripOne(a: string, r: string, env: Env, k: nat)
    requires a != "" && ':' !in a
    ensures var ts, us := Tokens(false, ":" + (":" + (a + r))), Tokens(false, r);
            PgText(ts, env, k) == ":" + (":" + (a + PgText(us, env, k))) &&
            ChText(ts) == ":" + (":" + (a + ChText(us)))
  {
    ColonFreeTokens(true, a, r);
    ColonTokens(true, a + r);
    ColonTokens(false, ":" + (a + r));
    PlainPg(a, Tokens(false, r), env, k);
    PlainCh(a, Tokens(false, r));
    var v := Tokens(true, a + r);
    PgTextCh(':', v, env, k);
    PgTextCh(':', [Ch(':')] + v, env, k);
    ChTextCh(':', v);
    ChTextCh(':', [Ch(':')] + v);
  }

  lemma ChTextCh(c: char, us: seq<Tok>)
    ensures ChText([Ch(c)] + us) == [c] + ChText(us)
  {
    assert ([Ch(c)] + us)[1..] == us;
  }

  lemma TranslatePlaceholder(d: string, t: string)
    requires d != "" && AllDigits(d) && (t == "" || !IsDigit(t[0]))
    ensures PgToCh("$" + d + t) == "?" + PgToCh(StripCast(t))
  {
    var s := "$" + d + t;
    assert s[1..] == d + t;
    DigitRunLen(d, t);
    assert s[1 + |d|..] == t && s[1] == d[0];
  }

  /** Translating the Postgres text never yields more than the direct text, and yields the same
      text exactly on clean sources. */
  lemma {:induction false} Translated(pc: bool, s: string, env: Env, k: nat)
    ensures var t, c := PgToCh(PgText(Tokens(pc, s), env, k)), ChText(Tokens(pc, s));
            if Clean(pc, s, env) then t == c else |t| < |c|
    decreases |s|
  {
    if s == "" {
    } else if BindHere(pc, s) {
      TranslatedBind(pc, s, env, k);
    } else if s[0] == '$' && |s| > 1 && IsDigit(s[1]) {
      TranslatedDollar(pc, s, env, k);
    } else {
      Translated(s[0] == ':', s[1..], env, k);
      var us := Tokens(s[0] == ':', s[1..]);
      PgHead(s[0] == ':', s[1..], env, k);
      TranslateCh(s[0], PgText(us, env, k));
    }
  }

  lemma TranslateCh(c: char, t: string)
    requires !(c == '$' && t != "" && IsDigit(t[0]))
    ensures PgToCh([c] + t) == [c] + PgToCh(t)
  {
    assert ([c] + t)[1..] == t;
  }

  lemma TranslateBind(n: string, us: seq<Tok>, env: Env, k: nat)
    requires var t := PgText(us, env, k + 1); t == "" || !IsDigit(t[0])
    ensures PgToCh(PgText([Bind(n)] + us, env, k)) ==
            "?" + PgToCh(StripCast(CastOf(env, n) + PgText(us, env, k + 1)))
  {
    var cast, t := CastOf(env, n), PgText(us, env, k + 1);
    assert ([Bind(n)] + us)[1..] == us;
    DecRoundTrip(k + 1);
    TranslatePlaceholder(Dec(k + 1), cast + t);
    Assoc("$" + Dec(k + 1), cast, t);
  }

  lemma {:induction false} TranslatedBind(pc: bool, s: string, env: Env, k: nat)
    requires BindHere(pc, s)
    ensures var t, c := PgToCh(PgText(Tokens(pc, s), env, k)), ChText(Tokens(pc, s));
            if Clean(pc, s, env) then t == c else |t| < |c|
    decreases |s|, 0
  {
    var j := 1 + IdentLen(s[1..]);
    var n, r := s[1..j], s[j..];
    BoundTexts(pc, s, env, k, j);
    if Numeric(env, n) {
      StripAdded(env, n, PgText(Tokens(false, r), env, k + 1));
      Translated(false, r, env, k + 1);
    } else {
      Translated(false, StripCast(r), env, k + 1);
      TranslatedText(n, r, env, k);
    }
  }

  /** Both texts of a source that starts with a bind. */
  lemma BoundTexts(pc: bool, s: string, env: Env, k: nat, j: nat)
    requires BindHere(pc, s) && j == 1 + IdentLen(s[1..])
    ensures var n, us := s[1..j], Tokens(false, s[j..]);
            && PgToCh(PgText(Tokens(pc, s), env, k)) == "?" + PgToCh(StripCast(CastOf(env, n) + PgText(us, env, k + 1)))
            && ChText(Tokens(pc, s)) == "?" + ChText(us)
  {
    var n, us := s[1..j], Tokens(false, s[j..]);
    assert j < |s| ==> s[j] == s[1..][j - 1];
    PgHead(false, s[j..], env, k + 1);
    TranslateBind(n, us, env, k);
    Cons(Bind(n), us);
  }

  /** A bind without a cast of its own: what follows loses a cast that stands there. */
  lemma TranslatedText(n: string, r: string, env: Env, k: nat)
    requires !Numeric(env, n)
    requires var u := Tokens(false, StripCast(r));
             var t, c := PgToCh(PgText(u, env, k + 1)), ChText(u);
             if Clean(false, StripCast(r), env) then t == c else |t| < |c|
    ensures var us := Tokens(false, r);
            var t, c := PgToCh(StripCast(CastOf(env, n) + PgText(us, env, k + 1))), ChText(us);
            if StripCast(r) == r && Clean(false, r, env) then t == c else |t| < |c|
  {
    var t := PgText(Tokens(false, r), env, k + 1);
    assert CastOf(env, n) + t == t;
    StripLowered(r, env, k + 1);
  }

  lemma StripAdded(env: Env, n: string, t: string)
    requires Numeric(env, n)
    ensures StripCast(CastOf(env, n) + t) == t
  {
    var s := CastOf(env, n) + t;
    assert s[2] == CastOf(env, n)[2];
  }

  lemma {:induction false} TranslatedDollar(pc: bool, s: string, env: Env, k: nat)
    requires |s| > 1 && s[0] == '$' && IsDigit(s[1])
    ensures |PgToCh(PgText(Tokens(pc, s), env, k))| < |ChText(Tokens(pc, s))|
    decreases |s|, 0
  {
    var m := DigitLen(s[1..]);
    var d, r := s[1..1 + m], s[1 + m..];
    assert forall i :: 0 <= i < m ==> d[i] == s[1..][i];
    assert m < |s| - 1 ==> r[0] == s[1..][m];
    assert s[1..][0] == s[1];
    ColonFreeTokens(pc, "$" + d, r);
    assert s == "$" + d + r;
    PlainPg("$" + d, Tokens(false, r), env, k);
    PlainCh("$" + d, Tokens(false, r));
    PgHead(false, r, env, k);
    TranslatePlaceholder(d, PgText(Tokens(false, r), env, k));
    StripLowered(r, env, k);
    Translated(false, StripCast(r), env, k);
  }

  /** The two scanners agree on a source exactly when it is clean. */
  lemma ScannersAgree(sql: string, env: Env)
    ensures var ts := Tokens(false, sql);
            PgToCh(PgText(ts, env, 0)) == ChText(ts) <==> Clean(false, sql, env)
  {
    Translated(false, sql, env, 0);
  }

  // ---- What is a bind ---------------------------------------------------------

  /** A colon and a whole identifier are a bind. */
  lemma NameBinds(n: string, s: string)
    requires n != "" && IsIdentStart(n[0]) && (forall k :: 0 <= k < |n| ==> IsIdent(n[k]))
    requires s == "" || !IsIdent(s[0])
    ensures Tokens(false, ":" + (n + s)) == [Bind(n)] + Tokens(false, s)
  {
    var t := ":" + (n + s);
    Cons(':', n + s);
    assert t[1] == n[0];
    assert forall k :: 0 <= k < |n| ==> (n + s)[k] == n[k];
    assert s != "" ==> (n + s)[|n|] == s[0];
    IdentLenIs(n + s, |n|);
    assert t[1..1 + |n|] == n && t[1 + |n|..] == s;
    BindFirst(t, n, s);
  }

  lemma BindFirst(t: string, n: string, s: string)
    requires BindHere(false, t) && IdentLen(t[1..]) == |n| && t[1..1 + |n|] == n && t[1 + |n|..] == s
    ensures Tokens(false, t) == [Bind(n)] + Tokens(false, s)
  {
  }

  /** A `::type` cast is left alone. */
  lemma CastStays(pc: bool, ty: string, s: string)
    requires ty != "" && ':' !in ty
    ensures Tokens(pc, ":" + (":" + (ty + s))) == [Ch(':')] + ([Ch(':')] + (ChToks(ty) + Tokens(false, s)))
  {
    ColonTokens(pc, ":" + (ty + s));
    ColonTokens(true, ty + s);
    ColonFreeTokens(true, ty, s);
  }

  /** A `$1` of the author's own is taken for a bind. */
  lemma OwnPlaceholderMisread(env: Env)
    ensures var ts := Tokens(false, "$1"); ReadPg(PgText(ts, env, 0)) != Numbered(ts, env, 0)
  {
    assert "$1"[0] == '$' && IsDigit("$1"[1]);
    PgNumberingExact("$1", env);
  }

  /** An author's cast right behind a text bind is lost on the way to ClickHouse. */
  lemma OwnCastLost(s: string)
    ensures var ts := Tokens(false, ":a" + "::int8");
            PgToCh(PgText(ts, map["a" := Text(s)], 0)) != ChText(ts)
  {
    var sql, env := ":a" + "::int8", map["a" := Text(s)];
    assert sql[1..] == "a" + "::int8" && sql[2..] == "::int8";
    assert ("a" + "::int8")[1..] == "::int8" && !IsIdent(':');
    assert IdentLen("::int8") == 0;
    assert IdentLen(sql[1..]) == 1;
    assert sql[1..2] == "a";
    assert !Numeric(env, "a");
    assert StripCast("::int8") == "";
    ScannersAgree(sql, env);
  }
}
