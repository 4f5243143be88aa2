/** The bind-value ABI shared by resolution and the dialects. */
module BindValues {
  /** A coerced bind value. A float, date or timestamp is represented by its canonical
      rendering, which identifies the value. */
  datatype BindValue =
    | Text(s: string)
    | Int(i: int)
    | Float(repr: string)
    | Date(ymd: string)
    | Ts(rfc3339: string)
    | Bool(b: bool)

  type Env = map<string, BindValue>

  /** A statement with its parameters put in place: what the engine executes. */
  datatype Piece = Lit(c: char) | Arg(v: BindValue)

  function Lits(s: string): seq<Piece> {
    if s == "" then [] else [Lit(s[0])] + Lits(s[1..])
  }

  /** A lowering result: the text and the values in placeholder order, or the name that
      had no resolved value. */
  datatype Lowered = Bound(sql: string, values: seq<BindValue>) | Unresolved(name: string)
}

/** The three text scanners: `:name` to `$N`, `:name` to `?`, and `$N` to `?`.
    A character stands for one byte of the source text; the scanners copy bytes. */
module BindText {
  import opened Strings
  import opened BindValues

  /** What a scanner sees: an ordinary character, or a whole `:name` bind. */
  datatype Tok = Ch(c: char) | Bind(name: string)

  /** The length of the identifier at the head of `s`. */
  function IdentLen(s: string): (n: nat)
    ensures n <= |s|
    ensures forall i :: 0 <= i < n ==> IsIdent(s[i])
    ensures n < |s| ==> !IsIdent(s[n])
  {
    if s == "" || !IsIdent(s[0]) then 0 else 1 + IdentLen(s[1..])
  }

  /** Does a bind start at the head of `s`, whose preceding character is a colon iff `pc`? */
  predicate BindHere(pc: bool, s: string) {
    |s| > 1 && s[0] == ':' && !pc && s[1] != ':' && IsIdentStart(s[1])
  }

  function Tokens(pc: bool, s: string): (ts: seq<Tok>)
    decreases |s|
  {
    if s == "" then []
    else if BindHere(pc, s) then
      var j := 1 + IdentLen(s[1..]);
      [Bind(s[1..j])] + Tokens(false, s[j..])
    else [Ch(s[0])] + Tokens(s[0] == ':', s[1..])
  }

  /** The text a token list was read from. */
  function Source(ts: seq<Tok>): string {
    if ts == [] then ""
    else (match ts[0] case Ch(c) => [c] case Bind(n) => ":" + n) + Source(ts[1..])
  }

  function BindNames(ts: seq<Tok>): seq<string> {
    if ts == [] then []
    else (match ts[0] case Ch(_) => [] case Bind(n) => [n]) + BindNames(ts[1..])
  }

  predicate Resolved(names: seq<string>, env: Env) {
    forall n :: n in names ==> n in env
  }

  /** The value of each name, in occurrence order. */
  function Values(names: seq<string>, env: Env): (vs: seq<BindValue>)
    requires Resolved(names, env)
  {
    seq(|names|, i requires 0 <= i < |names| => env[names[i]])
  }

  /** The widening cast Postgres lowering appends to a numeric placeholder. */
  function CastOf(env: Env, n: string): string {
    if n !in env then ""
    else match env[n]
      case Int(_) => "::int8"
      case Float(_) => "::float8"
      case _ => ""
  }

  predicate Numeric(env: Env, n: string) {
    n in env && (env[n].Int? || env[n].Float?)
  }

  /** The `k`-th placeholder (from 0) with its cast. */
  function PgPlaceholder(n: string, env: Env, k: nat): string {
    "$" + Dec(k + 1) + CastOf(env, n)
  }

  /** Postgres text of a token list when `k` placeholders were already emitted. */
  function PgText(ts: seq<Tok>, env: Env, k: nat): string {
    if ts == [] then ""
    else match ts[0]
      case Ch(c) => [c] + PgText(ts[1..], env, k)
      case Bind(n) => PgPlaceholder(n, env, k) + PgText(ts[1..], env, k + 1)
  }

  /** ClickHouse text of a token list. */
  function ChText(ts: seq<Tok>): string {
    if ts == [] then ""
    else (match ts[0] case Ch(c) => [c] case Bind(_) => "?") + ChText(ts[1..])
  }

  function DigitLen(s: string): (n: nat)
    ensures n <= |s|
    ensures forall i :: 0 <= i < n ==> IsDigit(s[i])
    ensures n < |s| ==> !IsDigit(s[n])
  {
    if s == "" || !IsDigit(s[0]) then 0 else 1 + DigitLen(s[1..])
  }

  /** Drops one widening cast from the head of `s`, if there is one. */
  function StripCast(s: string): (r: string)
    ensures |r| <= |s|
  {
    if StartsWith(s, "::int8") then s[6..]
    else if StartsWith(s, "::float8") then s[8..]
    else s
  }

  /** `$N` with an optional widening cast becomes `?`. */
  function PgToCh(s: string): string
    decreases |s|
  {
    if s == "" then ""
    else if s[0] == '$' && |s| > 1 && IsDigit(s[1]) then
      "?" + PgToCh(StripCast(s[1 + DigitLen(s[1..])..]))
    else [s[0]] + PgToCh(s[1..])
  }

  // ---- The loops ----------------------------------------------------------

  /** The tokens of `sql` from index `i` on. */
  function Rest(sql: string, i: nat): seq<Tok>
    requires i <= |sql|
  {
    Tokens(i > 0 && sql[i - 1] == ':', sql[i..])
  }

  lemma RestAll(sql: string)
    ensures Rest(sql, 0) == Tokens(false, sql)
  {
    assert sql[0..] == sql;
  }

  /** `sql[i..j]` is a colon and the whole identifier behind it, not part of a `::` cast. */
  predicate BindSpan(sql: string, i: nat, j: nat) {
    && i + 1 < j <= |sql| && sql[i] == ':' && !(i > 0 && sql[i - 1] == ':')
    && IsIdentStart(sql[i + 1])
    && (forall k :: i < k < j ==> IsIdent(sql[k]))
    && (j == |sql| || !IsIdent(sql[j]))
  }

  lemma {:induction false} IdentLenIs(s: string, n: nat)
    requires n <= |s| && (forall k :: 0 <= k < n ==> IsIdent(s[k])) && (n == |s| || !IsIdent(s[n]))
    ensures IdentLen(s) == n
  {
    if n > 0 {
      assert forall k :: 0 <= k < n - 1 ==> s[1..][k] == s[k + 1];
      IdentLenIs(s[1..], n - 1);
    }
  }

  lemma RestBind(sql: string, i: nat, j: nat)
    requires BindSpan(sql, i, j)
    ensures Rest(sql, i) == [Bind(sql[i + 1..j])] + Rest(sql, j)
  {
    var s := sql[i..];
    BindShape(sql, i, j);
    assert Tokens(i > 0 && sql[i - 1] == ':', s) == [Bind(s[1..j - i])] + Tokens(false, s[j - i..]);
    assert s[1..j - i] == sql[i + 1..j] && s[j - i..] == sql[j..];
    assert IsIdent(sql[j - 1]);
  }

  lemma BindShape(sql: string, i: nat, j: nat)
    requires BindSpan(sql, i, j)
    ensures BindHere(false, sql[i..]) && 1 + IdentLen(sql[i..][1..]) == j - i
  {
    var t := sql[i + 1..];
    assert sql[i..][1..] == t && sql[i..][0] == ':' && sql[i..][1] == t[0];
    assert forall k :: 0 <= k < j - i - 1 ==> t[k] == sql[i + 1 + k];
    IdentLenIs(t, j - i - 1);
  }

  lemma RestCh(sql: string, i: nat)
    requires i < |sql| && !BindHere(i > 0 && sql[i - 1] == ':', sql[i..])
    ensures Rest(sql, i) == [Ch(sql[i])] + Rest(sql, i + 1)
  {
    assert sql[i..][1..] == sql[i + 1..];
  }

  /** The end of the identifier starting at `i`. */
  method ScanIdent(s: string, i: nat) returns (j: nat)
    requires i <= |s|
    ensures i <= j <= |s| && (j == |s| || !IsIdent(s[j]))
    ensures forall k :: i <= k < j ==> IsIdent(s[k])
  {
    j := i;
    while j < |s| && IsIdent(s[j])
      invariant i <= j <= |s|
      invariant forall k :: i <= k < j ==> IsIdent(s[k])
    {
      j := j + 1;
    }
  }

  /** What a scanner promises: it succeeds iff every occurring name has a value, with the given
      text and the values of the names behind those already collected; else it names a culprit. */
  ghost predicate Lowers(r: Lowered, names: seq<string>, env: Env, text: string, before: seq<BindValue>) {
    && (r.Bound? <==> Resolved(names, env))
    && (r.Bound? ==> r.sql == text && r.values == before + Values(names, env))
    && (r.Unresolved? ==> r.name in names && r.name !in env)
  }

  lemma LowersNot(n: string, names: seq<string>, env: Env, text: string, before: seq<BindValue>)
    requires n in names && n !in env
    ensures Lowers(Unresolved(n), names, env, text, before)
  {
  }

  /** What the Postgres loop has established while `rest` of the tokens `all` remains. */
  ghost predicate PgAt(all: seq<Tok>, rest: seq<Tok>, env: Env, out: string, done: seq<string>) {
    && Resolved(done, env)
    && done + BindNames(rest) == BindNames(all)
    && out + PgText(rest, env, |done|) == PgText(all, env, 0)
  }

  lemma PgBindStep(all: seq<Tok>, us: seq<Tok>, env: Env, out: string, done: seq<string>, n: string)
    requires n in env && PgAt(all, [Bind(n)] + us, env, out, done)
    ensures PgAt(all, us, env, out + PgPlaceholder(n, env, |done|), done + [n])
  {
    var piece, tail := PgPlaceholder(n, env, |done|), PgText(us, env, |done| + 1);
    assert ([Bind(n)] + us)[1..] == us;
    assert (out + piece) + tail == out + (piece + tail);
    assert done + [n] + BindNames(us) == done + ([n] + BindNames(us));
  }

  lemma PgChStep(all: seq<Tok>, us: seq<Tok>, env: Env, out: string, done: seq<string>, c: char)
    requires PgAt(all, [Ch(c)] + us, env, out, done)
    ensures PgAt(all, us, env, out + [c], done)
  {
    assert ([Ch(c)] + us)[1..] == us;
    assert (out + [c]) + PgText(us, env, |done|) == out + ([c] + PgText(us, env, |done|));
  }

  lemma PgBindAt(sql: string, env: Env, i: nat, j: nat, out: string, done: seq<string>)
    requires BindSpan(sql, i, j) && PgAt(Tokens(false, sql), Rest(sql, i), env, out, done)
    ensures var n := sql[i + 1..j];
            n in BindNames(Tokens(false, sql)) &&
            (n in env ==> PgAt(Tokens(false, sql), Rest(sql, j), env,
                               out + PgPlaceholder(n, env, |done|), done + [n]))
  {
    RestBind(sql, i, j);
    var n, all := sql[i + 1..j], BindNames(Tokens(false, sql));
    assert all[|done|] == n;
    if n in env {
      PgBindStep(Tokens(false, sql), Rest(sql, j), env, out, done, n);
    }
  }

  lemma PgChAt(sql: string, env: Env, i: nat, out: string, done: seq<string>)
    requires i < |sql| && !BindHere(i > 0 && sql[i - 1] == ':', sql[i..])
    requires PgAt(Tokens(false, sql), Rest(sql, i), env, out, done)
    ensures PgAt(Tokens(false, sql), Rest(sql, i + 1), env, out + [sql[i]], done)
  {
    RestCh(sql, i);
    PgChStep(Tokens(false, sql), Rest(sql, i + 1), env, out, done, sql[i]);
  }

  lemma PgEnds(sql: string, env: Env, out: string, done: seq<string>)
    ensures PgAt(Tokens(false, sql), Rest(sql, 0), env, "", [])
    ensures PgAt(Tokens(false, sql), Rest(sql, |sql|), env, out, done) ==>
              done == BindNames(Tokens(false, sql)) && out == PgText(Tokens(false, sql), env, 0)
  {
    RestAll(sql);
    assert Rest(sql, |sql|) == [];
  }

  /** The loop's invariant at index `i`. */
  ghost predicate PgLoop(sql: string, i: nat, env: Env, out: string, done: seq<string>, ordered: seq<BindValue>) {
    && i <= |sql| && PgAt(Tokens(false, sql), Rest(sql, i), env, out, done)
    && Resolved(done, env) && ordered == Values(done, env)
  }

  lemma PgLoopBind(sql: string, i: nat, j: nat, env: Env, out: string, done: seq<string>, ordered: seq<BindValue>)
    requires PgLoop(sql, i, env, out, done, ordered) && BindSpan(sql, i, j)
    ensures var n := sql[i + 1..j];
            && n in BindNames(Tokens(false, sql))
            && (n in env ==>
                  PgLoop(sql, j, env, out + PgPlaceholder(n, env, |ordered|), done + [n], ordered + [env[n]]))
  {
    PgBindAt(sql, env, i, j, out, done);
  }

  lemma PgLoopCh(sql: string, i: nat, env: Env, out: string, done: seq<string>, ordered: seq<BindValue>)
    requires PgLoop(sql, i, env, out, done, ordered)
    requires i < |sql| && !BindHere(i > 0 && sql[i - 1] == ':', sql[i..])
    ensures PgLoop(sql, i + 1, env, out + [sql[i]], done, ordered)
  {
    PgChAt(sql, env, i, out, done);
  }

  lemma PgLoopEnds(sql: string, env: Env, out: string, done: seq<string>, ordered: seq<BindValue>)
    ensures PgLoop(sql, 0, env, "", [], [])
    ensures PgLoop(sql, |sql|, env, out, done, ordered) ==>
              Lowers(Bound(out, ordered), BindNames(Tokens(false, sql)), env, PgText(Tokens(false, sql), env, 0), [])
  {
    PgEnds(sql, env, out, done);
    assert [] + ordered == ordered;
  }

  method LowerBinds(sql: string, env: Env) returns (r: Lowered)
    ensures Lowers(r, BindNames(Tokens(false, sql)), env, PgText(Tokens(false, sql), env, 0), [])
  {
    var out := "";
    var ordered: seq<BindValue> := [];
    var i := 0;
    ghost var done: seq<string> := [];
    PgLoopEnds(sql, env, out, done, ordered);
    while i < |sql|
      invariant i <= |sql| && PgLoop(sql, i, env, out, done, ordered)
    {
      if sql[i] == ':' {
        var prevColon := i > 0 && sql[i - 1] == ':';
        var nextColon := i + 1 < |sql| && sql[i + 1] == ':';
        if !prevColon && !nextColon && i + 1 < |sql| && IsIdentStart(sql[i + 1]) {
          var j := ScanIdent(sql, i + 1);
          var name := sql[i + 1..j];
          PgLoopBind(sql, i, j, env, out, done, ordered);
          if name !in env {
            LowersNot(name, BindNames(Tokens(false, sql)), env, PgText(Tokens(false, sql), env, 0), []);
            return Unresolved(name);
          }
          var v, k := env[name], |ordered|;
          ordered := ordered + [v];
          out := out + ("$" + Dec(|ordered|) + (if v.Int? then "::int8" else if v.Float? then "::float8" else ""));
          done := done + [name];
          i := j;
          continue;
        }
      }
      PgLoopCh(sql, i, env, out, done, ordered);
      out := out + [sql[i]];
      i := i + 1;
    }
    PgLoopEnds(sql, env, out, done, ordered);
    r := Bound(out, ordered);
  }

  /** What the ClickHouse loop has established while `rest` of the tokens `all` remains. */
  ghost predicate ChAt(all: seq<Tok>, rest: seq<Tok>, env: Env, out: string, done: seq<string>) {
    && Resolved(done, env)
    && done + BindNames(rest) == BindNames(all)
    && out + ChText(rest) == ChText(all)
  }

  lemma ChStep(all: seq<Tok>, us: seq<Tok>, env: Env, out: string, done: seq<string>, t: Tok)
    requires ChAt(all, [t] + us, env, out, done) && (t.Bind? ==> t.name in env)
    ensures t.Ch? ==> ChAt(all, us, env, out + [t.c], done)
    ensures t.Bind? ==> ChAt(all, us, env, out + "?", done + [t.name])
  {
    assert ([t] + us)[1..] == us;
    var piece := match t case Ch(c) => [c] case Bind(_) => "?";
    assert (out + piece) + ChText(us) == out + (piece + ChText(us));
    if t.Bind? {
      assert done + [t.name] + BindNames(us) == done + ([t.name] + BindNames(us));
    }
  }

  lemma ChBindAt(text: string, env: Env, i: nat, j: nat, out: string, done: seq<string>)
    requires BindSpan(text, i, j) && ChAt(Tokens(false, text), Rest(text, i), env, out, done)
    ensures var n := text[i + 1..j];
            n in BindNames(Tokens(false, text)) &&
            (n in env ==> ChAt(Tokens(false, text), Rest(text, j), env, out + "?", done + [n]))
  {
    RestBind(text, i, j);
    var n := text[i + 1..j];
    assert BindNames(Tokens(false, text))[|done|] == n;
    if n in env {
      ChStep(Tokens(false, text), Rest(text, j), env, out, done, Bind(n));
    }
  }

  lemma ChChAt(text: string, env: Env, i: nat, out: string, done: seq<string>)
    requires i < |text| && !BindHere(i > 0 && text[i - 1] == ':', text[i..])
    requires ChAt(Tokens(false, text), Rest(text, i), env, out, done)
    ensures ChAt(Tokens(false, text), Rest(text, i + 1), env, out + [text[i]], done)
  {
    RestCh(text, i);
    ChStep(Tokens(false, text), Rest(text, i + 1), env, out, done, Ch(text[i]));
  }

  lemma ChEnds(text: string, env: Env, out: string, done: seq<string>)
    ensures ChAt(Tokens(false, text), Rest(text, 0), env, "", [])
    ensures ChAt(Tokens(false, text), Rest(text, |text|), env, out, done) ==>
              done == BindNames(Tokens(false, text)) && out == ChText(Tokens(false, text))
  {
    RestAll(text);
    assert Rest(text, |text|) == [];
  }

  ghost predicate ChLoop(text: string, i: nat, env: Env, out: string, done: seq<string>, pushed: seq<BindValue>) {
    && i <= |text| && ChAt(Tokens(false, text), Rest(text, i), env, out, done)
    && Resolved(done, env) && pushed == Values(done, env)
  }

  lemma ChLoopBind(text: string, i: nat, j: nat, env: Env, out: string, done: seq<string>, pushed: seq<BindValue>)
    requires ChLoop(text, i, env, out, done, pushed) && BindSpan(text, i, j)
    ensures var n := text[i + 1..j];
            && n in BindNames(Tokens(false, text))
            && (n in env ==> ChLoop(text, j, env, out + "?", done + [n], pushed + [env[n]]))
  {
    ChBindAt(text, env, i, j, out, done);
  }

  lemma ChLoopCh(text: string, i: nat, env: Env, out: string, done: seq<string>, pushed: seq<BindValue>)
    requires ChLoop(text, i, env, out, done, pushed)
    requires i < |text| && !BindHere(i > 0 && text[i - 1] == ':', text[i..])
    ensures ChLoop(text, i + 1, env, out + [text[i]], done, pushed)
  {
    ChChAt(text, env, i, out, done);
  }

  lemma ChLoopEnds(text: string, env: Env, out: string, done: seq<string>,
                   pushed: seq<BindValue>, ordered: seq<BindValue>)
    ensures ChLoop(text, 0, env, "", [], [])
    ensures ChLoop(text, |text|, env, out, done, pushed) ==>
              Lowers(Bound(out, ordered + pushed), BindNames(Tokens(false, text)), env,
                     ChText(Tokens(false, text)), ordered)
  {
    ChEnds(text, env, out, done);
  }

  /** The ClickHouse text scanner; its values go behind those already in `ordered`. */
  method LowerTextBinds(text: string, env: Env, ordered: seq<BindValue>) returns (r: Lowered)
    ensures Lowers(r, BindNames(Tokens(false, text)), env, ChText(Tokens(false, text)), ordered)
  {
    var out := "";
    var pushed: seq<BindValue> := [];
    var i := 0;
    ghost var done: seq<string> := [];
    ChLoopEnds(text, env, out, done, pushed, ordered);
    while i < |text|
      invariant i <= |text| && ChLoop(text, i, env, out, done, pushed)
    {
      if text[i] == ':' {
        var prevColon := i > 0 && text[i - 1] == ':';
        var nextColon := i + 1 < |text| && text[i + 1] == ':';
        if !prevColon && !nextColon && i + 1 < |text| && IsIdentStart(text[i + 1]) {
          var j := ScanIdent(text, i + 1);
          var name := text[i + 1..j];
          ChLoopBind(text, i, j, env, out, done, pushed);
          if name !in env {
            LowersNot(name, BindNames(Tokens(false, text)), env, ChText(Tokens(false, text)), ordered);
            return Unresolved(name);
          }
          out := out + "?";
          pushed := pushed + [env[name]];
          done := done + [name];
          i := j;
          continue;
        }
      }
      ChLoopCh(text, i, env, out, done, pushed);
      out := out + [text[i]];
      i := i + 1;
    }
    ChLoopEnds(text, env, out, done, pushed, ordered);
    r := Bound(out, ordered + pushed);
  }

  /** The end of the digit run starting at `i`. */
  method ScanDigits(s: string, i: nat) returns (j: nat)
    requires i <= |s|
    ensures j == i + DigitLen(s[i..])
  {
    j := i;
    while j < |s| && IsDigit(s[j])
      invariant i <= j <= |s|
      invariant j + DigitLen(s[j..]) == i + DigitLen(s[i..])
    {
      assert s[j..][1..] == s[j + 1..];
      j := j + 1;
    }
  }

  /** The index behind the widening cast at `j`, if there is one. */
  method SkipCast(s: string, j: nat) returns (k: nat)
    requires j <= |s|
    ensures j <= k <= |s| && s[k..] == StripCast(s[j..])
  {
    k := j;
    if StartsWith(s[j..], "::int8") {
      k := j + 6;
    } else if StartsWith(s[j..], "::float8") {
      k := j + 8;
    }
  }

  /** What the next step emits, and where it goes on. */
  method TranslateNext(sql: string, i: nat) returns (piece: string, j: nat)
    requires i < |sql|
    ensures i < j <= |sql| && PgToCh(sql[i..]) == piece + PgToCh(sql[j..])
  {
    if sql[i] == '$' && i + 1 < |sql| && IsDigit(sql[i + 1]) {
      var k := ScanDigits(sql, i + 1);
      j := SkipCast(sql, k);
      TranslatedAt(sql, i, k);
      piece := "?";
    } else {
      CopiedAt(sql, i);
      piece, j := [sql[i]], i + 1;
    }
  }

  lemma CopiedAt(sql: string, i: nat)
    requires i < |sql| && !(sql[i] == '$' && i + 1 < |sql| && IsDigit(sql[i + 1]))
    ensures PgToCh(sql[i..]) == [sql[i]] + PgToCh(sql[i + 1..])
  {
    CopiedHead(sql[i..], sql[i + 1..]);
  }

  lemma CopiedHead(s: string, t: string)
    requires s != "" && s[1..] == t && !(s[0] == '$' && |s| > 1 && IsDigit(s[1]))
    ensures PgToCh(s) == [s[0]] + PgToCh(t)
  {
  }

  lemma TranslatedAt(sql: string, i: nat, k: nat)
    requires i + 1 < |sql| && sql[i] == '$' && IsDigit(sql[i + 1]) && k == i + 1 + DigitLen(sql[i + 1..])
    ensures k <= |sql| && PgToCh(sql[i..]) == "?" + PgToCh(StripCast(sql[k..]))
  {
    Suffixes(sql, i, k);
    TranslatedHead(sql[i..], sql[i + 1..], sql[k..]);
  }

  lemma Suffixes(sql: string, i: nat, k: nat)
    requires i + 1 <= k <= |sql|
    ensures sql[i..][1..] == sql[i + 1..] && sql[i..][k - i..] == sql[k..]
  {
  }

  lemma TranslatedHead(s: string, t: string, u: string)
    requires |s| > 1 && s[0] == '$' && IsDigit(s[1]) && s[1..] == t && s[1 + DigitLen(t)..] == u
    ensures PgToCh(s) == "?" + PgToCh(StripCast(u))
  {
  }

  method PgPlaceholdersToCh(sql: string) returns (out: string)
    ensures out == PgToCh(sql)
  {
    out := "";
    var i := 0;
    assert sql[0..] == sql;
    while i < |sql|
      invariant 0 <= i <= |sql| && out + PgToCh(sql[i..]) == PgToCh(sql)
    {
      var piece, j := TranslateNext(sql, i);
      Assoc(out, piece, PgToCh(sql[j..]));
      out := out + piece;
      i := j;
    }
  }
}
