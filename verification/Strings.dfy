/** An optional value. */
module Options {
  datatype Option<T> = None | Some(value: T)
}

/** Characters, decimal numerals and delimiter splitting: the string primitives the
    scanners, the cache key and the configuration parsers are built from. */
module Strings {
  import opened Options

  predicate IsDigit(c: char) { '0' <= c <= '9' }

  predicate IsAlpha(c: char) { 'a' <= c <= 'z' || 'A' <= c <= 'Z' }

  predicate IsIdentStart(c: char) { IsAlpha(c) || c == '_' }

  predicate IsIdent(c: char) { IsAlpha(c) || IsDigit(c) || c == '_' }

  predicate StartsWith(s: string, p: string) { p <= s }

  predicate Free(s: string, c: char) { c !in s }

  // ---- Concatenation ------------------------------------------------------

  lemma Assoc<T>(a: seq<T>, b: seq<T>, c: seq<T>)
    ensures (a + b) + c == a + (b + c)
  {
  }

  lemma TakeDrop<T>(a: seq<T>, n: nat)
    requires n <= |a|
    ensures a[..n] + a[n..] == a
  {
  }

  lemma Cons<T>(t: T, tail: seq<T>)
    ensures ([t] + tail)[0] == t && ([t] + tail)[1..] == tail
  {
  }

  lemma Cons2<T>(t: T, u: T, tail: seq<T>)
    ensures ([t] + ([u] + tail))[0] == t && ([t] + ([u] + tail))[1] == u
    ensures ([t] + ([u] + tail))[1..] == [u] + tail && ([t] + ([u] + tail))[2..] == tail
  {
  }

  lemma Cons3<T>(t: T, u: T, v: T, tail: seq<T>)
    ensures var s := [t] + ([u] + ([v] + tail));
            s[0] == t && s[1] == u && s[2..] == [v] + tail && s[3..] == tail
  {
  }

  /** Regroups `a` `t` `b` `k` to the right. */
  lemma Regroup<T>(a: seq<T>, t: T, b: seq<T>, k: seq<T>)
    ensures (a + ([t] + b)) + k == a + ([t] + (b + k))
    ensures ([t] + (b + k))[0] == t && ([t] + (b + k))[1..] == b + k
  {
  }

  lemma HeadTail<T>(a: seq<T>, p: seq<T>)
    requires a != []
    ensures (a + p)[0] == a[0] && (a + p)[1..] == a[1..] + p
    ensures [a[0]] + (a[1..] + p) == a + p
  {
  }

  // ---- Decimal numerals -------------------------------------------------

  function DigitChar(d: nat): char
    requires d < 10
  {
    '0' + d as char
  }

  /** The decimal rendering of a natural number (Rust's `to_string`). */
  function Dec(n: nat): string {
    if n < 10 then [DigitChar(n)] else Dec(n / 10) + [DigitChar(n % 10)]
  }

  predicate AllDigits(s: string) { forall i :: 0 <= i < |s| ==> IsDigit(s[i]) }

  /** Reads a digit string as a number. */
  function ParseDec(s: string): nat
    requires AllDigits(s)
  {
    if s == "" then 0
    else 10 * ParseDec(s[..|s| - 1]) + (s[|s| - 1] - '0') as nat
  }

  lemma {:induction false} DecRoundTrip(n: nat)
    ensures Dec(n) != "" && AllDigits(Dec(n)) && ParseDec(Dec(n)) == n
  {
    if n >= 10 {
      DecRoundTrip(n / 10);
      assert Dec(n)[..|Dec(n)| - 1] == Dec(n / 10);
    } else {
      assert Dec(n)[..0] == "";
    }
  }

  /** Signed decimal rendering. */
  function DecInt(i: int): string {
    if i < 0 then "-" + Dec(-i) else Dec(i)
  }

  lemma DecIntInjective(i: int, j: int)
    requires DecInt(i) == DecInt(j)
    ensures i == j
  {
    DecRoundTrip(if i < 0 then -i else i);
    DecRoundTrip(if j < 0 then -j else j);
    assert i < 0 ==> DecInt(i)[1..] == Dec(-i);
    assert j < 0 ==> DecInt(j)[1..] == Dec(-j);
    assert (i < 0 <==> DecInt(i)[0] == '-') && (j < 0 <==> DecInt(j)[0] == '-');
  }

  // ---- Splitting and trimming ------------------------------------------------

  /** The Unicode White_Space characters. */
  predicate IsSpace(c: char) {
    '\t' <= c <= '\r' || c == ' ' || c == '\U{85}' || c == '\U{A0}' || c == '\U{1680}'
    || '\U{2000}' <= c <= '\U{200A}' || c == '\U{2028}' || c == '\U{2029}' || c == '\U{202F}'
    || c == '\U{205F}' || c == '\U{3000}'
  }

  function TrimStart(s: string): (r: string)
    ensures r == "" || !IsSpace(r[0])
  {
    if s != "" && IsSpace(s[0]) then TrimStart(s[1..]) else s
  }

  function TrimEnd(s: string): (r: string)
    ensures r == "" || !IsSpace(r[|r| - 1])
  {
    if s != "" && IsSpace(s[|s| - 1]) then TrimEnd(s[..|s| - 1]) else s
  }

  function Trim(s: string): string { TrimEnd(TrimStart(s)) }

  predicate Trimmed(s: string) { s == "" || (!IsSpace(s[0]) && !IsSpace(s[|s| - 1])) }

  lemma TrimIdle(s: string)
    requires Trimmed(s)
    ensures Trim(s) == s
  {
  }

  predicate Blank(s: string) { forall i :: 0 <= i < |s| ==> IsSpace(s[i]) }

  lemma {:induction false} TrimStartPadded(l: string, x: string)
    requires Blank(l)
    ensures TrimStart(l + x) == TrimStart(x)
  {
    if l == "" {
      assert l + x == x;
    } else {
      HeadTail(l, x);
      TrimStartPadded(l[1..], x);
    }
  }

  lemma {:induction false} TrimEndPadded(x: string, r: string)
    requires Blank(r)
    ensures TrimEnd(x + r) == TrimEnd(x)
  {
    if r == "" {
      assert x + r == x;
    } else {
      var n := |r| - 1;
      assert (x + r)[..|x + r| - 1] == x + r[..n] && (x + r)[|x + r| - 1] == r[n];
      TrimEndPadded(x, r[..n]);
    }
  }

  /** Blanks around a text are trimmed off. */
  lemma TrimPadded(l: string, t: string, r: string)
    requires Blank(l) && Blank(r) && Trimmed(t) && t != ""
    ensures Trim(l + (t + r)) == t
  {
    TrimStartPadded(l, t + r);
    assert (t + r)[0] == t[0];
    TrimEndPadded(t, r);
    TrimIdle(t);
  }

  /** The position of the first `c`, or the length. */
  function IndexOf(s: string, c: char): (n: nat)
    ensures n <= |s| && (n < |s| ==> s[n] == c)
    ensures forall i :: 0 <= i < n ==> s[i] != c
  {
    if s == "" || s[0] == c then 0 else 1 + IndexOf(s[1..], c)
  }

  /** The pieces of `s` between occurrences of `c`; at least one. */
  function SplitOn(s: string, c: char): (r: seq<string>)
    ensures r != []
  {
    if s == "" then [""]
    else if s[0] == c then [""] + SplitOn(s[1..], c)
    else
      var r := SplitOn(s[1..], c);
      [[s[0]] + r[0]] + r[1..]
  }

  function JoinOn(parts: seq<string>, c: char): string {
    if parts == [] then ""
    else if |parts| == 1 then parts[0]
    else parts[0] + ([c] + JoinOn(parts[1..], c))
  }

  lemma {:induction false} SplitFront(a: string, c: char, t: string)
    requires Free(a, c)
    ensures SplitOn(a + ([c] + t), c) == [a] + SplitOn(t, c) && SplitOn(a, c) == [a]
  {
    if a == "" {
      assert a + ([c] + t) == [c] + t;
      Cons(c, t);
    } else {
      HeadTail(a, [c] + t);
      SplitFront(a[1..], c, t);
      assert a == [a[0]] + a[1..];
      assert ([a[1..]] + SplitOn(t, c))[1..] == SplitOn(t, c);
      assert [a[1..]][1..] == [];
    }
  }

  /** Joining and splitting are inverse on parts without the separator. */
  lemma {:induction false} SplitJoin(parts: seq<string>, c: char)
    requires parts != [] && forall p :: p in parts ==> Free(p, c)
    ensures SplitOn(JoinOn(parts, c), c) == parts
  {
    if |parts| == 1 {
      SplitFront(parts[0], c, "");
      assert parts == [parts[0]];
    } else {
      assert forall p :: p in parts[1..] ==> p in parts;
      SplitJoin(parts[1..], c);
      SplitFront(parts[0], c, JoinOn(parts[1..], c));
      assert parts == [parts[0]] + parts[1..];
    }
  }

  // ---- Unsigned numbers -----------------------------------------------------

  /** Reads an unsigned 32-bit number; a leading plus sign is allowed. */
  function ParseU32(s: string): Option<nat> {
    var d := if s != "" && s[0] == '+' then s[1..] else s;
    if d == "" || !AllDigits(d) || ParseDec(d) >= 0x1_0000_0000 then None else Some(ParseDec(d))
  }

  lemma ParseU32Back(n: nat)
    requires n < 0x1_0000_0000
    ensures ParseU32(Dec(n)) == Some(n) && Trimmed(Dec(n))
  {
    DecRoundTrip(n);
  }

  lemma DecFree(n: nat, c: char)
    requires !IsDigit(c)
    ensures Free(Dec(n), c)
  {
    DecRoundTrip(n);
  }

  /** `s` without its trailing `c`s. */
  function DropTrailing(s: string, c: char): string {
    if s != "" && s[|s| - 1] == c then DropTrailing(s[..|s| - 1], c) else s
  }

  /** The parts before and after the first `c`. */
  function SplitOnce(s: string, c: char): Option<(string, string)> {
    if s == "" then None
    else if s[0] == c then Some(("", s[1..]))
    else
      match SplitOnce(s[1..], c)
      case None => None
      case Some(p) => Some(([s[0]] + p.0, p.1))
  }

  lemma {:induction false} SplitOnceExact(a: string, c: char, t: string)
    requires Free(a, c)
    ensures SplitOnce(a + ([c] + t), c) == Some((a, t)) && SplitOnce(a, c) == None
  {
    if a == "" {
      assert a + ([c] + t) == [c] + t;
      Cons(c, t);
    } else {
      HeadTail(a, [c] + t);
      SplitOnceExact(a[1..], c, t);
      assert a == [a[0]] + a[1..];
    }
  }

  function LowerChar(c: char): char { if 'A' <= c <= 'Z' then c + ('a' - 'A') else c }

  /** ASCII lower case. */
  function Lower(s: string): string {
    if s == "" then "" else [LowerChar(s[0])] + Lower(s[1..])
  }

  lemma {:induction false} LowerAt(s: string)
    ensures |Lower(s)| == |s| && forall i :: 0 <= i < |s| ==> Lower(s)[i] == LowerChar(s[i])
  {
    if s != "" {
      LowerAt(s[1..]);
      assert forall i :: 1 <= i < |s| ==> Lower(s)[i] == Lower(s[1..])[i - 1];
    }
  }

  lemma LowerPrefix(s: string, n: nat)
    requires n <= |s|
    ensures |Lower(s)| == |s| && Lower(s[..n]) == Lower(s)[..n]
  {
    LowerAt(s);
    LowerAt(s[..n]);
  }
}
