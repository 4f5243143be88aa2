/** Server-sent-event chunks, and which of them carry a data frame. */
module SseFrames {
  import opened Strings

  /** A chunk of the byte stream: decodable text, or not UTF-8. */
  datatype Chunk = Utf8(text: string) | Binary(bytes: seq<bv8>)

  function StripCr(l: string): string {
    if l != "" && l[|l| - 1] == '\r' then l[..|l| - 1] else l
  }

  /** The lines of a text; a final line ending opens no further line. */
  function Lines(s: string): seq<string>
    decreases |s|
  {
    if s == "" then []
    else
      var n := IndexOf(s, '\n');
      if n == |s| then [s] else [StripCr(s[..n])] + Lines(s[n + 1..])
  }

  /** Drops every leading `data:`. */
  function TrimData(l: string): (r: string)
    ensures !("data:" <= r)
    decreases |l|
  {
    if "data:" <= l then TrimData(l[5..]) else l
  }

  predicate DataLine(l: string) { "data:" <= l && !Blank(TrimData(l)) }

  predicate HasDataFrame(c: Chunk) {
    match c
    case Binary(_) => true
    case Utf8(s) => exists l :: l in Lines(s) && DataLine(l)
  }

  /** Bytes that are no text are payload. */
  lemma BinaryIsData(c: Chunk)
    ensures !HasDataFrame(c) ==> c.Utf8?
  {
  }

  const KeepAlive := Utf8(": keep-alive\n\n")

  /** Lines hold no character the text does not hold. */
  lemma {:induction false} LineChars(s: string, c: char)
    requires c !in s
    ensures forall l :: l in Lines(s) ==> c !in l
    decreases |s|
  {
    if s != "" {
      var n := IndexOf(s, '\n');
      if n < |s| {
        LineChars(s[n + 1..], c);
        assert c !in StripCr(s[..n]);
      }
    }
  }

  lemma KeepAliveHasNoData()
    ensures !HasDataFrame(KeepAlive)
  {
    LineChars(KeepAlive.text, 'd');
    assert forall l: string :: "data:" <= l ==> l[0] == 'd' && 'd' in l;
  }

  lemma {:induction false} OneLine(s: string)
    requires s != "" && '\n' !in s
    ensures Lines(s) == [s]
  {
    assert forall i :: 0 <= i < |s| ==> s[i] in s;
  }

  lemma SingleLine(s: string)
    requires s != "" && '\n' !in s
    ensures HasDataFrame(Utf8(s)) <==> DataLine(s)
  {
    OneLine(s);
    assert s in [s];
  }

  // ---- Which lines carry data -------------------------------------------------------------------

  /** `k` copies of the field name. */
  function Copies(k: nat): string { if k == 0 then "" else "data:" + Copies(k - 1) }

  lemma {:induction false} CopiesLen(k: nat)
    ensures |Copies(k)| == 5 * k
  {
    if k > 0 { CopiesLen(k - 1); }
  }

  lemma FieldDropped(t: string)
    ensures "data:" <= "data:" + t && ("data:" + t)[5..] == t
  {
  }

  lemma {:induction false} TrimCopies(k: nat, w: string)
    requires !("data:" <= w)
    ensures TrimData(Copies(k) + w) == w && (k > 0 ==> "data:" <= Copies(k) + w)
  {
    if k == 0 {
      assert Copies(0) + w == w;
    } else {
      TrimCopies(k - 1, w);
      Assoc("data:", Copies(k - 1), w);
      FieldDropped(Copies(k - 1) + w);
    }
  }

  lemma FieldTaken(l: string)
    requires "data:" <= l
    ensures l == "data:" + l[5..]
  {
  }

  /** Every line is some copies of the field name and the payload that trimming leaves. */
  lemma {:induction false} TrimSplit(l: string) returns (k: nat)
    ensures l == Copies(k) + TrimData(l) && (k > 0 <==> "data:" <= l)
    decreases |l|
  {
    if "data:" <= l {
      var j := TrimSplit(l[5..]);
      k := j + 1;
      FieldTaken(l);
      Assoc("data:", Copies(j), TrimData(l));
    } else {
      k := 0;
      assert Copies(0) + l == l;
    }
  }

  lemma BlankIsNoField(w: string)
    requires Blank(w)
    ensures !("data:" <= w)
  {
    assert "data:"[0] == 'd' && (w != "" ==> w[0] in w);
  }

  /** Some copies of the field name followed only by blanks. */
  ghost predicate Idle(v: string) { exists k: nat, w :: Blank(w) && v == Copies(k) + w }

  /** A data field is missed exactly when its payload is copies of the field name and blanks. */
  lemma LineExact(v: string)
    ensures !DataLine("data:" + v) <==> Idle(v)
  {
    FieldDropped(v);
    var k := TrimSplit(v);
    if Blank(TrimData(v)) {
      assert Idle(v);
    }
    if Idle(v) {
      var j: nat, w :| Blank(w) && v == Copies(j) + w;
      BlankIsNoField(w);
      TrimCopies(j, w);
    }
  }

  /** A carriage return at the end of a line does not matter. */
  lemma CrIrrelevant(l: string)
    ensures DataLine(StripCr(l)) <==> DataLine(l)
  {
    if l != "" && l[|l| - 1] == '\r' {
      var k := TrimSplit(l);
      var w, m := TrimData(l), StripCr(l);
      CopiesEnd(k);
      assert w == "" ==> Copies(k) + w == Copies(k);
      var u := w[..|w| - 1];
      assert w == u + ['\r'];
      assert m == Copies(k) + u;
      BlankCr(u);
      TrimCopies(k, u);
    }
  }

  lemma BlankCr(u: string)
    ensures Blank(u + ['\r']) <==> Blank(u)
    ensures "data:" <= u ==> "data:" <= u + ['\r']
  {
    var w := u + ['\r'];
    assert w[|u|] == '\r' && forall i :: 0 <= i < |u| ==> w[i] == u[i];
  }

  /** Copies of the field name end in a colon. */
  lemma {:induction false} CopiesEnd(k: nat)
    ensures k > 0 ==> Copies(k) != "" && Copies(k)[|Copies(k)| - 1] == ':'
  {
    if k > 1 { CopiesEnd(k - 1); }
    if k == 1 { assert Copies(1) == "data:" + ""; }
  }

  ghost predicate AnyData(ls: seq<string>) { exists l :: l in ls && DataLine(l) }

  lemma AnyCons(l: string, ls: seq<string>)
    ensures AnyData([l] + ls) <==> DataLine(l) || AnyData(ls)
  {
    if DataLine(l) { assert l in [l] + ls; }
    if AnyData(ls) {
      var x :| x in ls && DataLine(x);
      assert x in [l] + ls;
    }
  }

  lemma {:induction false} LinesAndPieces(s: string)
    ensures AnyData(Lines(s)) <==> AnyData(SplitOn(s, '\n'))
    decreases |s|
  {
    var n := IndexOf(s, '\n');
    if s == "" {
    } else if n == |s| {
      assert '\n' !in s;
      SplitFront(s, '\n', "");
    } else {
      var a, t := s[..n], s[n + 1..];
      assert '\n' !in a && s == a + (['\n'] + t);
      SplitFront(a, '\n', t);
      LinesAndPieces(t);
      CrIrrelevant(a);
      AnyCons(a, SplitOn(t, '\n'));
      AnyCons(StripCr(a), Lines(t));
    }
  }

  /** A text chunk, of any lines and line endings, carries data exactly when one of its lines is a
      data field whose payload is not just copies of the field name and blanks. */
  lemma FrameExact(s: string)
    ensures HasDataFrame(Utf8(s)) <==> exists v :: "data:" + v in SplitOn(s, '\n') && !Idle(v)
  {
    LinesAndPieces(s);
    var ps := SplitOn(s, '\n');
    if AnyData(ps) {
      var l :| l in ps && DataLine(l);
      LineExact(l[5..]);
      assert l == "data:" + l[5..];
    }
    if v :| "data:" + v in ps && !Idle(v) {
      LineExact(v);
      assert AnyData(ps);
    }
  }

  // ---- Lines cut into two chunks ------------------------------------------------------------------

  /** The number of leading blanks. */
  function FirstSolid(w: string): (b: nat)
    ensures b <= |w| && (b < |w| ==> !IsSpace(w[b]))
    ensures forall i :: 0 <= i < b ==> IsSpace(w[i])
  {
    if w == "" || !IsSpace(w[0]) then 0 else 1 + FirstSolid(w[1..])
  }

  lemma BlankPrefix(w: string, m: nat)
    requires m <= |w| && !Blank(w)
    ensures Blank(w[..m]) <==> m <= FirstSolid(w)
  {
    var b := FirstSolid(w);
    assert b == |w| ==> forall c :: c in w ==> IsSpace(c);
    if m > b { assert w[..m][b] == w[b] && w[b] in w[..m]; }
  }

  lemma {:induction false} CopiesAdd(a: nat, b: nat)
    ensures Copies(a + b) == Copies(a) + Copies(b)
  {
    if a == 0 {
      assert "" + Copies(b) == Copies(b);
    } else {
      CopiesAdd(a - 1, b);
      Assoc("data:", Copies(a - 1), Copies(b));
    }
  }

  /** A line around its copy number `j` of the field name. */
  lemma AroundCopy(k: nat, w: string, j: nat)
    requires j < k
    ensures |Copies(j)| == 5 * j && Copies(k) + w == Copies(j) + ("data:" + (Copies(k - j - 1) + w))
  {
    CopiesLen(j);
    CopiesAdd(j, k - j);
    Assoc("data:", Copies(k - j - 1), w);
    Assoc(Copies(j), Copies(k - j), w);
  }

  lemma CutInside(c: string, x: string, t: string, r: nat)
    requires r <= |x|
    ensures (c + (x + t))[..|c| + r] == c + x[..r] && (c + (x + t))[|c| + r..] == x[r..] + t
  {
  }

  /** Neither of two pieces is a data line. */
  predicate Unseen(a: string, b: string) { !DataLine(a) && !DataLine(b) }

  /** A piece that stops inside a copy of the field name. */
  lemma HeadInCopies(j: nat, x: string)
    requires |x| < 5 && x <= "data:"
    ensures DataLine(Copies(j) + x) <==> j > 0 && x != ""
  {
    PartialField(x);
    TrimCopies(j, x);
    assert j == 0 ==> Copies(j) + x == x;
  }

  lemma PartialField(x: string)
    requires |x| < 5 && x <= "data:"
    ensures !("data:" <= x) && (Blank(x) <==> x == "")
  {
    if x != "" { assert x[0] == "data:"[0] == 'd' && x[0] in x; }
  }

  /** A piece that starts inside a copy of the field name. */
  lemma TailInCopies(y: string, t: string)
    requires y != "" && y[0] != 'd'
    ensures !DataLine(y + t)
  {
    assert (y + t)[0] == y[0] && "data:"[0] == 'd';
  }

  lemma WholeNames(m: nat, w: string)
    requires !("data:" <= w) && !Blank(w)
    ensures DataLine("data:" + (Copies(m) + w))
  {
    TrimCopies(m + 1, w);
    Assoc("data:", Copies(m), w);
  }

  /** The pieces of a line cut inside its copies of the field name. */
  lemma CutInNames(j: nat, r: nat, m: nat, w: string)
    requires r < 5 && !("data:" <= w) && !Blank(w)
    ensures Unseen(Copies(j) + "data:"[..r], "data:"[r..] + (Copies(m) + w)) <==> j == 0 && r > 0
  {
    HeadInCopies(j, "data:"[..r]);
    if r == 0 {
      assert "data:"[0..] == "data:";
      WholeNames(m, w);
    } else {
      assert "data:"[r] != 'd';
      TailInCopies("data:"[r..], Copies(m) + w);
    }
  }

  /** The pieces of a line cut behind its copies of the field name. */
  lemma CutBehindNames(k: nat, w: string, m: nat)
    requires k >= 1 && !("data:" <= w) && !Blank(w) && m <= |w|
    ensures Unseen(Copies(k) + w[..m], w[m..]) <==> m <= FirstSolid(w) && !DataLine(w[m..])
  {
    PrefixIsNoField(w, m);
    TrimCopies(k, w[..m]);
    BlankPrefix(w, m);
  }

  lemma PrefixIsNoField(w: string, m: nat)
    requires !("data:" <= w) && m <= |w|
    ensures !("data:" <= w[..m])
  {
  }

  lemma Fives(i: nat, k: nat)
    requires i < 5 * k
    ensures i / 5 < k && i == 5 * (i / 5) + i % 5 && (i / 5 == 0 && i % 5 > 0 <==> 1 <= i <= 4)
  {
  }

  /** The two pieces of a line cut inside, or behind, its copies of the field name. */
  lemma PiecesInNames(a: string, b: string, k: nat, w: string, j: nat, r: nat)
    requires a + b == Copies(k) + w && |a| == 5 * j + r && j < k && r < 5
    ensures a == Copies(j) + "data:"[..r] && b == "data:"[r..] + (Copies(k - j - 1) + w)
  {
    AroundCopy(k, w, j);
    CutInside(Copies(j), "data:", Copies(k - j - 1) + w, r);
    CutOf(a, b);
  }

  lemma PiecesBehindNames(a: string, b: string, k: nat, w: string, m: nat)
    requires a + b == Copies(k) + w && |a| == 5 * k + m
    ensures m <= |w| && a == Copies(k) + w[..m] && b == w[m..]
  {
    CopiesLen(k);
    CutOf(a, b);
    CutOf(Copies(k), w);
  }

  lemma CutOf(a: string, b: string)
    ensures (a + b)[..|a|] == a && (a + b)[|a|..] == b
  {
  }

  lemma CutEarly(a: string, b: string, k: nat, w: string)
    requires !("data:" <= w) && !Blank(w) && a + b == Copies(k) + w && |a| < 5 * k
    ensures Unseen(a, b) <==> 1 <= |a| <= 4
  {
    var j, r := |a| / 5, |a| % 5;
    Fives(|a|, k);
    PiecesInNames(a, b, k, w, j, r);
    CutInNames(j, r, k - j - 1, w);
  }

  lemma CutLate(a: string, b: string, k: nat, w: string, m: nat)
    requires k >= 1 && !("data:" <= w) && !Blank(w) && a + b == Copies(k) + w && |a| == 5 * k + m
    ensures m <= |w| && (Unseen(a, b) <==> m <= FirstSolid(w) && !DataLine(w[m..]))
  {
    PiecesBehindNames(a, b, k, w, m);
    CutBehindNames(k, w, m);
  }

  /** For every data line, written as its copies of the field name and its payload, and for every
      cut into two pieces: both go unseen exactly when the cut falls inside the first field name, or
      behind the names and not behind the first solid character of the payload, unless what starts
      there looks like a data field itself. */
  lemma CutExact(a: string, b: string, k: nat, w: string)
    requires k >= 1 && !("data:" <= w) && !Blank(w) && a + b == Copies(k) + w
    ensures |a| <= 5 * k + |w|
    ensures Unseen(a, b) <==>
            1 <= |a| <= 4 || (5 * k <= |a| <= 5 * k + FirstSolid(w) && !DataLine(w[|a| - 5 * k..]))
  {
    CopiesLen(k);
    assert |a + b| == 5 * k + |w|;
    if |a| < 5 * k {
      CutEarly(a, b, k, w);
    } else {
      CutLate(a, b, k, w, |a| - 5 * k);
    }
  }

  /** The same of the chunks that carry the two pieces. */
  lemma CutFrameExact(a: string, b: string, k: nat, w: string)
    requires k >= 1 && !("data:" <= w) && !Blank(w) && a + b == Copies(k) + w
    requires a != "" && b != "" && '\n' !in a && '\n' !in b
    ensures |a| <= 5 * k + |w|
    ensures (!HasDataFrame(Utf8(a)) && !HasDataFrame(Utf8(b))) <==>
            1 <= |a| <= 4 || (5 * k <= |a| <= 5 * k + FirstSolid(w) && !DataLine(w[|a| - 5 * k..]))
  {
    CutExact(a, b, k, w);
    SingleLine(a);
    SingleLine(b);
  }

  /** The first piece of a field name carries no data. */
  lemma PartOfNameIsNoData(r: nat)
    requires 1 <= r <= 4
    ensures !HasDataFrame(Utf8("data:"[..r]))
  {
    var x := "data:"[..r];
    PartialField(x);
    assert '\n' !in x;
    SingleLine(x);
  }
}
