/** Reading the canonical cache-key string back, and when it cannot be read. */
module CanonKey {
  import opened Strings
  import opened Options
  import opened Resolve

  type Pair = (string, string)

  // ---- The order of the parts ---------------------------------------------------------------------

  lemma {:induction false} StrOrder(a: string, b: string)
    ensures !(StrLess(a, b) && StrLess(b, a)) && (a == b || StrLess(a, b) || StrLess(b, a))
  {
    if a != "" && b != "" {
      StrOrder(a[1..], b[1..]);
      assert a == [a[0]] + a[1..] && b == [b[0]] + b[1..];
    }
  }

  lemma {:induction false} StrChain(a: string, b: string, c: string)
    requires StrLess(a, b) && StrLess(b, c)
    ensures StrLess(a, c)
  {
    if a != "" && a[0] == b[0] && b[0] == c[0] { StrChain(a[1..], b[1..], c[1..]); }
  }

  lemma PairOrder(x: Pair, y: Pair)
    ensures !(PairLess(x, y) && PairLess(y, x)) && (x == y || PairLess(x, y) || PairLess(y, x))
  {
    StrOrder(x.0, y.0);
    StrOrder(x.0, x.0);
    StrOrder(x.1, y.1);
  }

  lemma PairChain(x: Pair, y: Pair, z: Pair)
    requires !PairLess(y, x) && !PairLess(z, y)
    ensures !PairLess(z, x)
  {
    PairOrder(x, y);
    PairOrder(y, z);
    PairOrder(x, z);
    if PairLess(x, y) && PairLess(y, z) { PairLessChain(x, y, z); }
  }

  lemma PairLessChain(x: Pair, y: Pair, z: Pair)
    requires PairLess(x, y) && PairLess(y, z)
    ensures PairLess(x, z)
  {
    if StrLess(x.0, y.0) && StrLess(y.0, z.0) { StrChain(x.0, y.0, z.0); }
    if x.0 == y.0 == z.0 {
      StrOrder(x.0, x.0);
      StrChain(x.1, y.1, z.1);
    }
  }

  ghost predicate Ascending(xs: seq<Pair>) { forall i, j :: 0 <= i < j < |xs| ==> !PairLess(xs[j], xs[i]) }

  lemma {:induction false} InsertPermutes(x: Pair, xs: seq<Pair>)
    ensures multiset(InsertPart(x, xs)) == multiset(xs) + multiset{x}
  {
    if xs != [] && !PairLess(x, xs[0]) {
      InsertPermutes(x, xs[1..]);
      assert xs == [xs[0]] + xs[1..];
    }
  }

  lemma {:induction false} SortPermutes(xs: seq<Pair>)
    ensures multiset(SortParts(xs)) == multiset(xs)
    decreases |xs|
  {
    if xs != [] {
      var n := |xs| - 1;
      SortPermutes(xs[..n]);
      InsertPermutes(xs[n], SortParts(xs[..n]));
      assert xs == xs[..n] + [xs[n]];
    }
  }

  lemma SortMembers(xs: seq<Pair>, x: Pair)
    ensures x in SortParts(xs) <==> x in xs
  {
    SortPermutes(xs);
    assert x in SortParts(xs) <==> x in multiset(SortParts(xs));
  }

  lemma ConsAscends(x: Pair, xs: seq<Pair>)
    requires Ascending(xs) && forall j :: 0 <= j < |xs| ==> !PairLess(xs[j], x)
    ensures Ascending([x] + xs)
  {
  }

  lemma {:induction false} InsertAscends(x: Pair, xs: seq<Pair>)
    requires Ascending(xs)
    ensures Ascending(InsertPart(x, xs))
  {
    if xs != [] && !PairLess(x, xs[0]) {
      var r := InsertPart(x, xs[1..]);
      InsertAscends(x, xs[1..]);
      InsertPermutes(x, xs[1..]);
      forall j | 0 <= j < |r| ensures !PairLess(r[j], xs[0]) {
        assert r[j] in multiset(r);
        assert r[j] in xs[1..] || r[j] == x;
      }
      ConsAscends(xs[0], r);
    } else {
      forall j | 0 <= j < |xs| ensures !PairLess(xs[j], x) {
        PairOrder(x, xs[0]);
        if j > 0 { PairChain(x, xs[0], xs[j]); }
      }
      ConsAscends(x, xs);
    }
  }

  lemma {:induction false} SortAscends(xs: seq<Pair>)
    ensures Ascending(SortParts(xs))
    decreases |xs|
  {
    if xs != [] {
      SortAscends(xs[..|xs| - 1]);
      InsertAscends(xs[|xs| - 1], SortParts(xs[..|xs| - 1]));
    }
  }

  lemma HeadIsLeast(xs: seq<Pair>, y: Pair)
    requires Ascending(xs) && xs != [] && y in xs
    ensures !PairLess(y, xs[0])
  {
    var i :| 0 <= i < |xs| && xs[i] == y;
    PairOrder(xs[0], xs[0]);
  }

  lemma TailMembers(xs: seq<Pair>)
    requires xs != []
    ensures multiset(xs[1..]) == multiset(xs) - multiset{xs[0]} && xs == [xs[0]] + xs[1..]
  {
    assert xs == [xs[0]] + xs[1..];
  }

  /** There is one ascending arrangement. */
  lemma {:induction false} AscendingUnique(xs: seq<Pair>, ys: seq<Pair>)
    requires Ascending(xs) && Ascending(ys) && multiset(xs) == multiset(ys)
    ensures xs == ys
  {
    assert |xs| == |multiset(xs)| == |multiset(ys)| == |ys|;
    if xs != [] {
      assert xs[0] in multiset(ys) && ys[0] in multiset(xs);
      HeadIsLeast(ys, xs[0]);
      HeadIsLeast(xs, ys[0]);
      PairOrder(xs[0], ys[0]);
      TailMembers(xs);
      TailMembers(ys);
      AscendingUnique(xs[1..], ys[1..]);
    }
  }

  /** Parts in another order have the same string. */
  lemma SameSorted(xs: seq<Pair>, ys: seq<Pair>)
    requires multiset(xs) == multiset(ys)
    ensures SortParts(xs) == SortParts(ys) && CanonText(xs) == CanonText(ys)
  {
    SortPermutes(xs);
    SortPermutes(ys);
    SortAscends(xs);
    SortAscends(ys);
    AscendingUnique(SortParts(xs), SortParts(ys));
  }

  lemma SortIdle(o: seq<Pair>)
    requires Ascending(o)
    ensures SortParts(o) == o
  {
    SortPermutes(o);
    SortAscends(o);
    AscendingUnique(SortParts(o), o);
  }

  // ---- Marks -----------------------------------------------------------------------------------------

  predicate PlainName(n: string) { Free(n, '&') && Free(n, '=') }

  /** What starts a further part. */
  function Mark(n: string): string { "&" + (n + "=") }

  predicate OccursAt(v: string, m: string, i: nat) { i + |m| <= |v| && v[i..i + |m|] == m }

  ghost predicate Occurs(v: string, m: string) { exists i: nat :: OccursAt(v, m, i) }

  /** The value of `a` contains nothing that reads as the start of a part with a later name. */
  ghost predicate Tame(a: string, v: string, names: set<string>) {
    forall n :: n in names && StrLess(a, n) ==> !Occurs(v, Mark(n))
  }

  ghost predicate PlainNames(names: set<string>) { forall n :: n in names ==> PlainName(n) }

  ghost predicate Named(xs: seq<Pair>, names: set<string>) { forall x :: x in xs ==> x.0 in names }

  /** Names of the specification with tame values. */
  ghost predicate Readable(xs: seq<Pair>, names: set<string>) {
    forall x :: x in xs ==> x.0 in names && Tame(x.0, x.1, names)
  }

  ghost predicate Rising(xs: seq<Pair>) { forall i, j :: 0 <= i < j < |xs| ==> StrLess(xs[i].0, xs[j].0) }

  function Joined(xs: seq<Pair>): string { JoinOn(PartTexts(xs), '&') }

  /** A value and the parts behind it. */
  function Behind(v: string, tail: seq<Pair>): string { if tail == [] then v else v + ("&" + Joined(tail)) }

  lemma JoinedCons(xs: seq<Pair>)
    requires xs != []
    ensures Joined(xs) == xs[0].0 + ("=" + Behind(xs[0].1, xs[1..]))
  {
    var ts := PartTexts(xs);
    assert ts[0] == PartText(xs[0]) && ts[1..] == PartTexts(xs[1..]);
    assert |ts| == 1 ==> xs[1..] == [];
    assert "&" == ['&'];
    if |xs| > 1 { Regrouped(xs[0].0, xs[0].1, "&" + Joined(xs[1..])); }
  }

  lemma Regrouped(n: string, v: string, t: string)
    ensures (n + ("=" + v)) + t == n + ("=" + (v + t))
  {
  }

  lemma MarkFirst(n: string, t: string)
    ensures "&" + (n + ("=" + t)) == Mark(n) + t
  {
  }

  lemma Glued(s: string, m: string, t: string, r: string)
    ensures (s + (m + t)) + r == s + (m + (t + r))
  {
  }

  /** Behind a value that is followed by parts stands a mark. */
  lemma MarkBehind(v: string, tail: seq<Pair>, k: nat)
    requires tail != [] && k < |Mark(tail[0].0)|
    ensures |v| + |Mark(tail[0].0)| <= |Behind(v, tail)| && Behind(v, tail)[|v| + k] == Mark(tail[0].0)[k]
  {
    JoinedCons(tail);
    var n, t := tail[0].0, Behind(tail[0].1, tail[1..]);
    MarkFirst(n, t);
    assert Behind(v, tail) == v + (Mark(n) + t);
  }

  lemma MarkInside(n: string, k: nat)
    requires PlainName(n) && 1 <= k < |Mark(n)|
    ensures Mark(n)[k] != '&'
  {
    if k <= |n| { assert Mark(n)[k] == n[k - 1] && n[k - 1] in n; }
  }

  /** A mark that starts inside a value lies inside it. */
  lemma MarkLiesInside(w: string, tail: seq<Pair>, i: nat, n: string)
    requires PlainName(n) && i < |w| && i + |Mark(n)| <= |Behind(w, tail)|
    requires forall k :: 0 <= k < |Mark(n)| ==> Behind(w, tail)[i + k] == Mark(n)[k]
    ensures Occurs(w, Mark(n))
  {
    var m := Mark(n);
    if i + |m| > |w| {
      assert tail != [];
      MarkBehind(w, tail, 0);
      MarkInside(n, |w| - i);
    }
    assert OccursAt(w, m, i);
  }

  // ---- One tame reading -------------------------------------------------------------------------------

  /** The longer of two readings of a value would hold the mark of a later name. */
  lemma ValuesAgree(a: string, v: string, xs: seq<Pair>, w: string, ys: seq<Pair>, names: set<string>)
    requires Behind(v, xs) == Behind(w, ys) && Tame(a, w, names)
    requires xs != [] ==> xs[0].0 in names && PlainName(xs[0].0) && StrLess(a, xs[0].0)
    ensures |v| >= |w|
  {
    if |v| < |w| {
      assert xs != [];
      var n := xs[0].0;
      forall k | 0 <= k < |Mark(n)| ensures Behind(w, ys)[|v| + k] == Mark(n)[k] { MarkBehind(v, xs, k); }
      MarkBehind(v, xs, 0);
      MarkLiesInside(w, ys, |v|, n);
    }
  }

  lemma BehindBack(v: string, xs: seq<Pair>, w: string, ys: seq<Pair>)
    requires Behind(v, xs) == Behind(w, ys) && |v| == |w|
    ensures v == w && Joined(xs) == Joined(ys) && (xs == [] <==> ys == [])
  {
    var b := Behind(v, xs);
    assert b[..|v|] == v && b[..|w|] == w;
    assert xs != [] ==> b[|v| + 1..] == Joined(xs);
    assert ys != [] ==> b[|w| + 1..] == Joined(ys);
  }

  lemma HeadBack(xs: seq<Pair>, ys: seq<Pair>)
    requires xs != [] && ys != [] && PlainName(xs[0].0) && PlainName(ys[0].0) && Joined(xs) == Joined(ys)
    ensures xs[0].0 == ys[0].0 && Behind(xs[0].1, xs[1..]) == Behind(ys[0].1, ys[1..])
  {
    JoinedCons(xs);
    JoinedCons(ys);
    SplitOnceExact(xs[0].0, '=', Behind(xs[0].1, xs[1..]));
    SplitOnceExact(ys[0].0, '=', Behind(ys[0].1, ys[1..]));
  }

  lemma TailReadable(xs: seq<Pair>, names: set<string>)
    requires xs != [] && Readable(xs, names) && Rising(xs)
    ensures xs[0] in xs && Readable(xs[1..], names) && Rising(xs[1..])
    ensures |xs| > 1 ==> StrLess(xs[0].0, xs[1].0) && xs[1] in xs
    ensures xs == [xs[0]] + xs[1..]
  {
    assert forall z :: z in xs[1..] ==> z in xs;
  }

  /** A joined string has one reading with rising names and tame values. */
  lemma {:induction false} Unjoin(xs: seq<Pair>, ys: seq<Pair>, names: set<string>)
    requires PlainNames(names) && Readable(xs, names) && Readable(ys, names) && Rising(xs) && Rising(ys)
    requires Joined(xs) == Joined(ys)
    ensures xs == ys
    decreases |xs|
  {
    if xs != [] { JoinedCons(xs); }
    if ys != [] { JoinedCons(ys); }
    if xs != [] && ys != [] {
      TailReadable(xs, names);
      TailReadable(ys, names);
      HeadBack(xs, ys);
      var a, v, w := xs[0].0, xs[0].1, ys[0].1;
      ValuesAgree(a, v, xs[1..], w, ys[1..], names);
      ValuesAgree(a, w, ys[1..], v, xs[1..], names);
      BehindBack(v, xs[1..], w, ys[1..]);
      Unjoin(xs[1..], ys[1..], names);
    }
  }

  // ---- The tame reading exists ------------------------------------------------------------------------

  ghost predicate LaterAt(t: string, a: string, names: set<string>, i: nat) {
    exists n :: n in names && StrLess(a, n) && OccursAt(t, Mark(n), i)
  }

  /** The first mark of a later name from `i` on, or the length. */
  ghost function FirstMark(t: string, a: string, names: set<string>, i: nat): (p: nat)
    requires i <= |t|
    ensures i <= p <= |t| && (p < |t| ==> LaterAt(t, a, names, p))
    ensures forall q :: i <= q < p ==> !LaterAt(t, a, names, q)
    decreases |t| - i
  {
    if i == |t| || LaterAt(t, a, names, i) then i else FirstMark(t, a, names, i + 1)
  }

  ghost function MarkName(t: string, a: string, names: set<string>, p: nat): (n: string)
    requires LaterAt(t, a, names, p)
    ensures n in names && StrLess(a, n) && OccursAt(t, Mark(n), p)
  {
    var n :| n in names && StrLess(a, n) && OccursAt(t, Mark(n), p);
    n
  }

  /** Reads `t`, standing behind `a=`, by cutting it at the first mark of each later name. */
  ghost function Reading(a: string, t: string, names: set<string>): seq<Pair>
    decreases |t|
  {
    var p := FirstMark(t, a, names, 0);
    if p == |t| then [(a, t)]
    else
      var n := MarkName(t, a, names, p);
      [(a, t[..p])] + Reading(n, t[p + |Mark(n)|..], names)
  }

  lemma CutIsTame(t: string, a: string, names: set<string>)
    ensures Tame(a, t[..FirstMark(t, a, names, 0)], names)
  {
    var p := FirstMark(t, a, names, 0);
    forall n | n in names && StrLess(a, n) ensures !Occurs(t[..p], Mark(n)) {
      if i: nat :| OccursAt(t[..p], Mark(n), i) {
        assert t[..p][i..i + |Mark(n)|] == t[i..i + |Mark(n)|];
        assert OccursAt(t, Mark(n), i);
        assert LaterAt(t, a, names, i);
      }
    }
  }

  lemma RisingCons(x: Pair, xs: seq<Pair>)
    requires Rising(xs) && xs != [] && StrLess(x.0, xs[0].0)
    ensures Rising([x] + xs)
  {
    forall j | 0 <= j < |xs| ensures StrLess(x.0, xs[j].0) {
      if j > 0 { StrChain(x.0, xs[0].0, xs[j].0); }
    }
  }

  /** A list with rising names and tame values that spells `a=` and the text. */
  ghost predicate Spells(r: seq<Pair>, a: string, t: string, names: set<string>) {
    r != [] && r[0].0 == a && Rising(r) && Readable(r, names) && Joined(r) == a + ("=" + t)
  }

  lemma OnePart(a: string, t: string, names: set<string>)
    requires a in names && Tame(a, t, names)
    ensures Spells([(a, t)], a, t, names)
  {
    JoinedCons([(a, t)]);
  }

  /** A part cut off at a mark, in front of the reading of the rest. */
  lemma CutPart(a: string, t: string, p: nat, n: string, more: seq<Pair>, names: set<string>)
    requires a in names && StrLess(a, n) && OccursAt(t, Mark(n), p) && Tame(a, t[..p], names)
    requires Spells(more, n, t[p + |Mark(n)|..], names)
    ensures Spells([(a, t[..p])] + more, a, t, names)
  {
    var r, rest := [(a, t[..p])] + more, t[p + |Mark(n)|..];
    RisingCons((a, t[..p]), more);
    JoinedCons(r);
    assert r[1..] == more;
    MarkFirst(n, rest);
    assert t == t[..p] + (Mark(n) + rest);
  }

  /** The cut parts rise, are tame and spell the text. */
  lemma {:induction false} ReadingExact(a: string, t: string, names: set<string>)
    requires a in names
    ensures Spells(Reading(a, t, names), a, t, names)
    decreases |t|
  {
    var p := FirstMark(t, a, names, 0);
    CutIsTame(t, a, names);
    if p == |t| {
      assert t[..p] == t;
      OnePart(a, t, names);
    } else {
      var n := MarkName(t, a, names, p);
      var rest := t[p + |Mark(n)|..];
      assert Reading(a, t, names) == [(a, t[..p])] + Reading(n, rest, names);
      ReadingExact(n, rest, names);
      CutPart(a, t, p, n, Reading(n, rest, names), names);
    }
  }

  /** What is read behind a value with the mark of a later name is shorter than the value. */
  lemma ReadingCuts(a: string, v: string, tail: seq<Pair>, names: set<string>)
    requires !Tame(a, v, names)
    ensures var r := Reading(a, Behind(v, tail), names); r != [] && r[0].0 == a && r[0].1 != v
  {
    var n :| n in names && StrLess(a, n) && Occurs(v, Mark(n));
    var i: nat :| OccursAt(v, Mark(n), i);
    var t := Behind(v, tail);
    assert t[i..i + |Mark(n)|] == v[i..i + |Mark(n)|];
    assert LaterAt(t, a, names, i);
    assert FirstMark(t, a, names, 0) <= i;
  }

  /** The tame reading of the joined parts. */
  ghost function Normal(xs: seq<Pair>, names: set<string>): seq<Pair> {
    if xs == [] then [] else Reading(xs[0].0, Behind(xs[0].1, xs[1..]), names)
  }

  lemma NormalExact(xs: seq<Pair>, names: set<string>)
    requires Named(xs, names)
    ensures var r := Normal(xs, names); Rising(r) && Readable(r, names) && Joined(r) == Joined(xs)
  {
    if xs != [] {
      assert xs[0] in xs;
      JoinedCons(xs);
      ReadingExact(xs[0].0, Behind(xs[0].1, xs[1..]), names);
    }
  }

  /** Lists of any values share their string exactly when they have the same tame reading, and a
      list is its own tame reading exactly when its names rise and its values are tame. */
  lemma JoinedExact(xs: seq<Pair>, ys: seq<Pair>, names: set<string>)
    requires PlainNames(names) && Named(xs, names) && Named(ys, names)
    ensures Joined(xs) == Joined(ys) <==> Normal(xs, names) == Normal(ys, names)
    ensures Normal(xs, names) == xs <==> Rising(xs) && Readable(xs, names)
  {
    NormalExact(xs, names);
    NormalExact(ys, names);
    if Joined(xs) == Joined(ys) { Unjoin(Normal(xs, names), Normal(ys, names), names); }
    if Rising(xs) && Readable(xs, names) { Unjoin(Normal(xs, names), xs, names); }
  }

  // ---- Repeated parts ------------------------------------------------------------------------------------

  /** The text behind `a=` of one part and `k` more copies of it. */
  function Repeated(a: string, v: string, k: nat): string {
    if k == 0 then v else v + (Mark(a) + Repeated(a, v, k - 1))
  }

  lemma {:induction false} RepeatedTame(a: string, v: string, k: nat, names: set<string>)
    requires PlainNames(names) && a in names && Tame(a, v, names)
    ensures Tame(a, Repeated(a, v, k), names)
  {
    if k > 0 {
      RepeatedTame(a, v, k - 1, names);
      var r := Repeated(a, v, k - 1);
      forall n | n in names && StrLess(a, n) ensures !Occurs(Repeated(a, v, k), Mark(n)) {
        if i: nat :| OccursAt(v + (Mark(a) + r), Mark(n), i) { MarkNotAcross(v, a, r, n, i); }
      }
    }
  }

  /** The mark of another name in a text joined by a mark lies in one of the two sides. */
  lemma MarkNotAcross(v: string, a: string, r: string, n: string, i: nat)
    requires PlainName(a) && PlainName(n) && StrLess(a, n) && OccursAt(v + (Mark(a) + r), Mark(n), i)
    ensures Occurs(v, Mark(n)) || Occurs(r, Mark(n))
  {
    var t, m, d := v + (Mark(a) + r), Mark(n), |Mark(a)|;
    if |v| < i < |v| + d { InsideAMark(v, a, r, i); }
    assert forall k :: 0 <= k < |m| ==> t[i + k] == t[i..i + |m|][k] == m[k];
    if i + |m| <= |v| {
      assert t[i..i + |m|] == v[i..i + |m|];
      assert OccursAt(v, m, i);
    } else if i >= |v| + d {
      assert t[i..i + |m|] == r[i - |v| - d..i - |v| - d + |m|];
      assert OccursAt(r, m, i - |v| - d);
    } else if i < |v| {
      assert t[i + (|v| - i)] == Mark(a)[0];
      MarkInside(n, |v| - i);
    } else if i == |v| {
      SameMark(v, a, r, n);
      StrOrder(a, a);
    }
  }

  lemma InsideAMark(v: string, a: string, r: string, i: nat)
    requires PlainName(a) && |v| < i < |v| + |Mark(a)|
    ensures (v + (Mark(a) + r))[i] != '&'
  {
    MarkInside(a, i - |v|);
  }

  lemma SameMark(v: string, a: string, r: string, n: string)
    requires PlainName(a) && PlainName(n) && OccursAt(v + (Mark(a) + r), Mark(n), |v|)
    ensures a == n
  {
    var u := Mark(a) + r;
    assert (v + u)[|v|..] == u;
    assert u[..|Mark(n)|] == (v + u)[|v|..|v| + |Mark(n)|] == Mark(n);
    var x, y := u[1..], u[|Mark(n)|..];
    assert x == a + (['='] + r);
    assert x == n + (['='] + y);
    SplitOnceExact(a, '=', r);
    SplitOnceExact(n, '=', y);
  }

  lemma {:induction false} RepeatedLonger(a: string, v: string, w: string, k: nat)
    requires |v| < |w|
    ensures |Repeated(a, v, k)| < |Repeated(a, w, k)|
  {
    if k > 0 { RepeatedLonger(a, v, w, k - 1); }
  }

  lemma RepeatedBack(a: string, v: string, w: string, k: nat)
    requires Repeated(a, v, k) == Repeated(a, w, k)
    ensures v == w
  {
    if |v| < |w| { RepeatedLonger(a, v, w, k); }
    if |w| < |v| { RepeatedLonger(a, w, v, k); }
    assert v <= Repeated(a, v, k) && w <= Repeated(a, w, k);
  }

  /** Runs of equal parts, as long as `times` says, with rising names. */
  ghost predicate Blocks(xs: seq<Pair>, times: string -> nat)
    decreases |xs|
  {
    xs == [] ||
    (var k := times(xs[0].0);
     && 1 <= k <= |xs| && (forall i :: 0 <= i < k ==> xs[i] == xs[0])
     && (forall i :: k <= i < |xs| ==> StrLess(xs[0].0, xs[i].0))
     && Blocks(xs[k..], times))
  }

  /** Each run as one part. */
  ghost function Fold(xs: seq<Pair>, times: string -> nat): seq<Pair>
    requires Blocks(xs, times)
    decreases |xs|
  {
    if xs == [] then []
    else
      var k := times(xs[0].0);
      [(xs[0].0, Repeated(xs[0].0, xs[0].1, k - 1))] + Fold(xs[k..], times)
  }

  lemma {:induction false} RunJoined(xs: seq<Pair>, k: nat)
    requires 1 <= k <= |xs| && forall i :: 0 <= i < k ==> xs[i] == xs[0]
    ensures Joined(xs) == xs[0].0 + ("=" + Behind(Repeated(xs[0].0, xs[0].1, k - 1), xs[k..]))
    decreases k
  {
    JoinedCons(xs);
    if k > 1 {
      var a, v, r := xs[0].0, xs[0].1, Repeated(xs[0].0, xs[0].1, k - 2);
      RunJoined(xs[1..], k - 1);
      assert xs[1..][k - 1..] == xs[k..] && xs[1..][0] == xs[0];
      MarkFirst(a, Behind(r, xs[k..]));
      if xs[k..] != [] { Glued(v, Mark(a), r, "&" + Joined(xs[k..])); }
    }
  }

  lemma {:induction false} FoldExact(xs: seq<Pair>, times: string -> nat, names: set<string>)
    requires Blocks(xs, times) && PlainNames(names) && Readable(xs, names)
    ensures var f := Fold(xs, times);
            && Joined(f) == Joined(xs) && Rising(f) && Readable(f, names)
            && (xs == [] <==> f == []) && (xs != [] ==> f[0].0 == xs[0].0)
    decreases |xs|
  {
    if xs != [] {
      var a, k := xs[0].0, times(xs[0].0);
      BlockHead(xs, times, names);
      FoldExact(xs[k..], times, names);
      RunJoined(xs, k);
      RepeatedTame(a, xs[0].1, k - 1, names);
      FoldStep(a, Repeated(a, xs[0].1, k - 1), xs[k..], Fold(xs[k..], times), names);
    }
  }

  lemma BlockHead(xs: seq<Pair>, times: string -> nat, names: set<string>)
    requires xs != [] && Blocks(xs, times) && Readable(xs, names)
    ensures var k := times(xs[0].0);
            && 1 <= k <= |xs| && Readable(xs[k..], names) && xs[0].0 in names && Tame(xs[0].0, xs[0].1, names)
            && (xs[k..] != [] ==> StrLess(xs[0].0, xs[k..][0].0))
  {
    assert xs[0] in xs && forall z :: z in xs[times(xs[0].0)..] ==> z in xs;
  }

  /** One folded part in front of the folded rest. */
  lemma FoldStep(a: string, v: string, rest: seq<Pair>, more: seq<Pair>, names: set<string>)
    requires a in names && Tame(a, v, names) && Rising(more) && Readable(more, names)
    requires Joined(more) == Joined(rest) && (rest == [] <==> more == [])
    requires more != [] ==> StrLess(a, more[0].0)
    ensures var f := [(a, v)] + more;
            && Rising(f) && Readable(f, names) && Joined(f) == a + ("=" + Behind(v, rest))
  {
    var f := [(a, v)] + more;
    JoinedCons(f);
    assert f[1..] == more;
    if more != [] { RisingCons((a, v), more); }
  }

  lemma {:induction false} FoldBack(xs: seq<Pair>, ys: seq<Pair>, times: string -> nat)
    requires Blocks(xs, times) && Blocks(ys, times) && Fold(xs, times) == Fold(ys, times)
    ensures xs == ys
    decreases |xs|
  {
    if xs != [] && ys != [] {
      var f, g := Fold(xs, times), Fold(ys, times);
      assert f[0] == g[0];
      var k := times(xs[0].0);
      RepeatedBack(xs[0].0, xs[0].1, ys[0].1, k - 1);
      assert f[1..] == Fold(xs[k..], times) && g[1..] == Fold(ys[k..], times);
      FoldBack(xs[k..], ys[k..], times);
      assert xs[..k] == ys[..k];
      TakeDrop(xs, k);
      TakeDrop(ys, k);
    }
  }

  lemma {:induction false} EqualRun(xs: seq<Pair>)
    requires Ascending(xs) && xs != []
    ensures var k := multiset(xs)[xs[0]];
            && 1 <= k <= |xs| && (forall i :: 0 <= i < k ==> xs[i] == xs[0])
            && (forall i :: k <= i < |xs| ==> xs[i] != xs[0])
    decreases |xs|
  {
    TailMembers(xs);
    var tail := xs[1..];
    assert forall i :: 1 <= i < |xs| ==> xs[i] == tail[i - 1];
    if tail != [] && tail[0] == xs[0] {
      EqualRun(tail);
    } else {
      forall i | 1 <= i < |xs| ensures xs[i] != xs[0] { PairOrder(xs[0], xs[1]); }
      assert xs[0] !in tail;
    }
  }

  /** Parts in which a name has one value and occurs as often as `times` says. */
  ghost predicate Counted(xs: seq<Pair>, times: string -> nat) {
    && (forall x, y :: x in xs && y in xs && x.0 == y.0 ==> x == y)
    && (forall x :: x in xs ==> multiset(xs)[x] == times(x.0))
  }

  lemma {:induction false} AscendingBlocks(xs: seq<Pair>, times: string -> nat)
    requires Ascending(xs) && Counted(xs, times)
    ensures Blocks(xs, times)
    decreases |xs|
  {
    if xs != [] {
      EqualRun(xs);
      var k := times(xs[0].0);
      assert xs[0] in xs;
      forall i | k <= i < |xs| ensures StrLess(xs[0].0, xs[i].0) {
        assert xs[i] in xs;
        StrOrder(xs[0].0, xs[i].0);
      }
      RestCounted(xs, k, times);
      AscendingBlocks(xs[k..], times);
    }
  }

  lemma RestCounted(xs: seq<Pair>, k: nat, times: string -> nat)
    requires Counted(xs, times) && 1 <= k <= |xs|
    requires (forall i :: 0 <= i < k ==> xs[i] == xs[0]) && (forall i :: k <= i < |xs| ==> xs[i] != xs[0])
    ensures Counted(xs[k..], times)
  {
    TakeDrop(xs, k);
    assert multiset(xs) == multiset(xs[..k]) + multiset(xs[k..]);
    forall x | x in xs[k..] ensures x in xs && multiset(xs[k..])[x] == times(x.0) {
      assert x in xs && x !in xs[..k];
    }
  }

  /** Equal canonical strings come from equal parts, up to order, whatever their values hold apart
      from marks of later names. */
  lemma CanonBack(xs: seq<Pair>, ys: seq<Pair>, times: string -> nat, names: set<string>)
    requires PlainNames(names) && Readable(xs, names) && Readable(ys, names)
    requires Counted(xs, times) && Counted(ys, times) && CanonText(xs) == CanonText(ys)
    ensures multiset(xs) == multiset(ys)
  {
    SortFolds(xs, times, names);
    SortFolds(ys, times, names);
    var a, b := SortParts(xs), SortParts(ys);
    Unjoin(Fold(a, times), Fold(b, times), names);
    FoldBack(a, b, times);
    SortPermutes(xs);
    SortPermutes(ys);
  }

  lemma SortFolds(xs: seq<Pair>, times: string -> nat, names: set<string>)
    requires PlainNames(names) && Readable(xs, names) && Counted(xs, times)
    ensures var o := SortParts(xs);
            && Blocks(o, times) && Rising(Fold(o, times)) && Readable(Fold(o, times), names)
            && Joined(Fold(o, times)) == CanonText(xs)
  {
    var o := SortParts(xs);
    SortPermutes(xs);
    SortAscends(xs);
    forall x | x in o ensures x in xs { SortMembers(xs, x); }
    AscendingBlocks(o, times);
    FoldExact(o, times, names);
  }

  // ---- Lists with one part per name ----------------------------------------------------------------------

  lemma RisingAscends(xs: seq<Pair>)
    requires Rising(xs)
    ensures Ascending(xs)
  {
    forall i, j | 0 <= i < j < |xs| ensures !PairLess(xs[j], xs[i]) { StrOrder(xs[i].0, xs[j].0); }
  }

  ghost predicate DistinctNames(xs: seq<Pair>) {
    forall i, j :: 0 <= i < j < |xs| ==> xs[i].0 != xs[j].0
  }

  lemma {:induction false} DistinctCount(xs: seq<Pair>, x: Pair)
    requires DistinctNames(xs)
    ensures multiset(xs)[x] == if x in xs then 1 else 0
  {
    if xs != [] {
      TailMembers(xs);
      DistinctCount(xs[1..], x);
    }
  }

  /** Parts with distinct names, sorted, are the rising list of the same parts. */
  lemma SortDistinct(xs: seq<Pair>, o: seq<Pair>)
    requires DistinctNames(xs) && Rising(o) && forall x :: x in xs <==> x in o
    ensures SortParts(xs) == o
  {
    forall i, j | 0 <= i < j < |o| ensures o[i].0 != o[j].0 { StrOrder(o[i].0, o[j].0); }
    forall x ensures multiset(xs)[x] == multiset(o)[x] {
      DistinctCount(xs, x);
      DistinctCount(o, x);
    }
    RisingAscends(o);
    SameSorted(xs, o);
    SortIdle(o);
  }

  lemma SortRises(xs: seq<Pair>)
    requires DistinctNames(xs)
    ensures Rising(SortParts(xs)) && (forall x :: x in SortParts(xs) <==> x in xs)
  {
    var o := SortParts(xs);
    SortPermutes(xs);
    SortAscends(xs);
    forall x ensures x in o <==> x in xs { SortMembers(xs, x); }
    forall i, j | 0 <= i < j < |o| ensures StrLess(o[i].0, o[j].0) {
      StrOrder(o[i].0, o[j].0);
      if o[i].0 == o[j].0 { OneOfAName(xs, o, i, j); }
    }
  }

  lemma OneOfAName(xs: seq<Pair>, o: seq<Pair>, i: nat, j: nat)
    requires DistinctNames(xs) && multiset(o) == multiset(xs) && i < j < |o|
    ensures o[i].0 != o[j].0
  {
    assert o[i] in multiset(o) && o[j] in multiset(o);
    assert o[i] in xs && o[j] in xs;
    if o[i] == o[j] {
      TwiceCounted(o, i, j);
      DistinctCount(xs, o[i]);
    }
  }

  lemma TwiceCounted(o: seq<Pair>, i: nat, j: nat)
    requires i < j < |o| && o[i] == o[j]
    ensures multiset(o)[o[i]] >= 2
  {
    assert o == o[..i] + [o[i]] + o[i + 1..j] + [o[j]] + o[j + 1..];
  }

  /** The string of a list does not see how the string of its tail is divided. */
  lemma {:induction false} SameTail(pre: seq<Pair>, q: seq<Pair>, r: seq<Pair>)
    requires q != [] && r != [] && Joined(q) == Joined(r)
    ensures Joined(pre + q) == Joined(pre + r)
    decreases |pre|
  {
    if pre == [] {
      assert pre + q == q && pre + r == r;
    } else {
      HeadTail(pre, q);
      HeadTail(pre, r);
      SameTail(pre[1..], q, r);
      JoinedCons(pre + q);
      JoinedCons(pre + r);
    }
  }
}
