/** Cached bodies, their tags, their form in Redis and conditional responses. A character stands
    for one byte of a body. */
module CacheBodies {
  import opened Strings
  import opened Options

  /** The hex digest; nothing is assumed but its alphabet. */
  type Digest = string -> string

  predicate IsHex(c: char) { IsDigit(c) || 'a' <= c <= 'f' }

  ghost predicate HexDigest(h: Digest) { forall s, i :: 0 <= i < |h(s)| ==> IsHex(h(s)[i]) }

  function Tag(h: Digest, bytes: string): string { "\"" + h(bytes) + "\"" }

  datatype CachedBody = CachedBody(bytes: string, etag: string)

  function NewBody(h: Digest, bytes: string): CachedBody { CachedBody(bytes, Tag(h, bytes)) }

  /** The tag belongs to the bytes. */
  predicate Tagged(h: Digest, b: CachedBody) { b.etag == Tag(h, b.bytes) }

  lemma TagChars(h: Digest, bytes: string)
    requires HexDigest(h)
    ensures Free(Tag(h, bytes), '\n') && Free(Tag(h, bytes), ',') && Trimmed(Tag(h, bytes)) && Tag(h, bytes) != ""
  {
    var d := h(bytes);
    assert forall i :: 0 <= i < |d| ==> IsHex(d[i]);
    assert Tag(h, bytes)[|Tag(h, bytes)| - 1] == '\"';
  }

  // ---- Redis payloads -------------------------------------------------------------

  function EncodeL2(b: CachedBody): string { b.etag + ("\n" + b.bytes) }

  function DecodeL2(raw: string): Option<CachedBody> {
    var n := IndexOf(raw, '\n');
    if n == |raw| then None else Some(CachedBody(raw[n + 1..], raw[..n]))
  }

  /** Decoding undoes encoding exactly when the tag has no newline. */
  lemma L2RoundTrip(b: CachedBody)
    ensures DecodeL2(EncodeL2(b)) == Some(b) <==> Free(b.etag, '\n')
  {
    var raw := EncodeL2(b);
    assert raw[|b.etag|] == '\n';
    assert forall i :: 0 <= i < |b.etag| ==> raw[i] == b.etag[i];
    var n := IndexOf(raw, '\n');
    if Free(b.etag, '\n') {
      assert forall i :: 0 <= i < |b.etag| ==> b.etag[i] in b.etag;
      assert n == |b.etag|;
      assert raw[..n] == b.etag && raw[n + 1..] == b.bytes;
    } else {
      assert exists i :: 0 <= i < |b.etag| && raw[i] == '\n';
      assert n < |b.etag|;
    }
  }

  /** What comes back from Redis is the body that went in, tag included. */
  lemma TaggedRoundTrip(h: Digest, b: CachedBody)
    requires HexDigest(h) && Tagged(h, b)
    ensures DecodeL2(EncodeL2(b)) == Some(b)
  {
    TagChars(h, b.bytes);
    L2RoundTrip(b);
  }

  // ---- Conditional responses --------------------------------------------------------

  datatype Response = NotModified(tag: string) | Full(etag: string, body: string)

  predicate Names(inm: string, etag: string) {
    exists t :: t in SplitOn(inm, ',') && Trim(t) == etag
  }

  /** The header bytes that `to_str` lets through; a header with any other is as good as none. */
  predicate Visible(s: string) { forall i :: 0 <= i < |s| ==> ' ' <= s[i] <= '~' || s[i] == '\t' }

  function Respond(b: CachedBody, ifNoneMatch: Option<string>): Response {
    if ifNoneMatch.Some? && Visible(ifNoneMatch.value) && Names(ifNoneMatch.value, b.etag)
    then NotModified(b.etag)
    else Full(b.etag, b.bytes)
  }

  /** Tags with any blanks around them. */
  function Padded(tags: seq<string>, pads: seq<(string, string)>): (r: seq<string>)
    requires |pads| == |tags|
    ensures |r| == |tags|
  {
    seq(|tags|, i requires 0 <= i < |tags| => pads[i].0 + (tags[i] + pads[i].1))
  }

  predicate IsTag(t: string) { Trimmed(t) && t != "" && Free(t, ',') }

  ghost predicate Listed(tags: seq<string>, pads: seq<(string, string)>) {
    && |pads| == |tags| && tags != []
    && forall i :: 0 <= i < |tags| ==> IsTag(tags[i]) && Blank(pads[i].0) && Blank(pads[i].1)
  }

  lemma PaddedTag(l: string, t: string, r: string)
    requires IsTag(t) && Blank(l) && Blank(r)
    ensures Trim(l + (t + r)) == t && Free(l + (t + r), ',')
  {
    TrimPadded(l, t, r);
    assert !IsSpace(',');
  }

  lemma PaddedTags(tags: seq<string>, pads: seq<(string, string)>)
    requires Listed(tags, pads)
    ensures forall i :: 0 <= i < |tags| ==> Trim(Padded(tags, pads)[i]) == tags[i]
    ensures forall p :: p in Padded(tags, pads) ==> Free(p, ',')
  {
    forall i | 0 <= i < |tags| ensures Trim(Padded(tags, pads)[i]) == tags[i] && Free(Padded(tags, pads)[i], ',') {
      PaddedTag(pads[i].0, tags[i], pads[i].1);
    }
  }

  /** A trimmed part is the tag exactly when the tag is listed. */
  lemma FoundExactly(parts: seq<string>, tags: seq<string>, tag: string)
    requires |parts| == |tags| && forall i :: 0 <= i < |tags| ==> Trim(parts[i]) == tags[i]
    ensures (exists p :: p in parts && Trim(p) == tag) <==> tag in tags
  {
    if tag in tags {
      var i :| 0 <= i < |tags| && tags[i] == tag;
      assert parts[i] in parts;
    }
    if p :| p in parts && Trim(p) == tag {
      var i :| 0 <= i < |parts| && parts[i] == p;
      assert tags[i] == tag;
    }
  }

  /** A client that lists tags, with any blanks around them, gets a 304 exactly when the header is
      visible and the digest of the body's own bytes is among them. */
  lemma ConditionalExact(h: Digest, b: CachedBody, tags: seq<string>, pads: seq<(string, string)>)
    requires Tagged(h, b) && Listed(tags, pads)
    ensures var header := JoinOn(Padded(tags, pads), ',');
            Respond(b, Some(header)).NotModified? <==> Visible(header) && Tag(h, b.bytes) in tags
  {
    PaddedTags(tags, pads);
    SplitJoin(Padded(tags, pads), ',');
    FoundExactly(Padded(tags, pads), tags, b.etag);
  }

  // ---- Section 13.1.2 of RFC 9110 ------------------------------------------------------------

  /** An entity tag: whether it is weak, and its opaque part with the quotes. */
  datatype EntityTag = EntityTag(weak: bool, quoted: string)

  /** The If-None-Match field. */
  datatype Field = Any | List(tags: seq<EntityTag>)

  /** `etagc`: the characters between the quotes, a comma among them. */
  predicate IsEtagc(c: char) { c == '!' || '#' <= c <= '~' || '\U{80}' <= c <= '\U{FF}' }

  predicate IsOpaque(o: string) {
    |o| >= 2 && o[0] == '\"' && o[|o| - 1] == '\"' && forall i :: 1 <= i < |o| - 1 ==> IsEtagc(o[i])
  }

  /** Optional white space. */
  predicate IsOws(s: string) { forall i :: 0 <= i < |s| ==> s[i] == ' ' || s[i] == '\t' }

  function Written(t: EntityTag): string { (if t.weak then "W/" else "") + t.quoted }

  function Texts(tags: seq<EntityTag>): (r: seq<string>)
    ensures |r| == |tags|
  {
    seq(|tags|, i requires 0 <= i < |tags| => Written(tags[i]))
  }

  function Header(f: Field, pads: seq<(string, string)>): string
    requires f.List? ==> |pads| == |f.tags|
  {
    if f.Any? then "*" else JoinOn(Padded(Texts(f.tags), pads), ',')
  }

  ghost predicate WellFormed(f: Field, pads: seq<(string, string)>) {
    f.List? ==>
      && |pads| == |f.tags| && f.tags != []
      && forall i :: 0 <= i < |f.tags| ==> IsOpaque(f.tags[i].quoted) && IsOws(pads[i].0) && IsOws(pads[i].1)
  }

  /** The section's rule: the condition is false, so the answer is a 304, for `*` and for a tag that
      matches under weak comparison, which looks at the opaque parts alone. */
  predicate AsksNotModified(f: Field, etag: string) {
    f.Any? || exists t :: t in f.tags && t.quoted == etag
  }

  lemma {:induction false} SplitAppend(a: string, c: char, t: string)
    ensures SplitOn(a + ([c] + t), c) == SplitOn(a, c) + SplitOn(t, c)
  {
    if a == "" {
      assert a + ([c] + t) == [c] + t;
      Cons(c, t);
    } else {
      HeadTail(a, [c] + t);
      SplitAppend(a[1..], c, t);
      var r, u := SplitOn(a[1..], c), SplitOn(t, c);
      if a[0] == c {
        Assoc([""], r, u);
      } else {
        HeadTail(r, u);
        Assoc([[a[0]] + r[0]], r[1..], u);
      }
    }
  }

  /** A tag is found in a joined list exactly when it is found in an element. */
  lemma {:induction false} NamesJoined(us: seq<string>, etag: string)
    requires us != []
    ensures Names(JoinOn(us, ','), etag) <==> exists i :: 0 <= i < |us| && Names(us[i], etag)
  {
    if |us| > 1 {
      NamesJoined(us[1..], etag);
      NamesTwo(us[0], JoinOn(us[1..], ','), etag);
      assert forall i :: 1 <= i < |us| ==> us[i] == us[1..][i - 1];
      assert forall i :: 0 <= i < |us| - 1 ==> us[1..][i] == us[i + 1];
    }
  }

  lemma NamesTwo(a: string, t: string, etag: string)
    ensures Names(a + ([','] + t), etag) <==> Names(a, etag) || Names(t, etag)
  {
    SplitAppend(a, ',', t);
    var x, y := SplitOn(a, ','), SplitOn(t, ',');
    assert forall p :: p in x + y <==> p in x || p in y;
  }

  /** Every piece is a stretch of the text without the separator. */
  lemma {:induction false} PieceOf(s: string, c: char, p: string) returns (i: nat)
    requires p in SplitOn(s, c)
    ensures i + |p| <= |s| && s[i..i + |p|] == p && Free(p, c)
  {
    i := 0;
    if s != "" {
      var r := SplitOn(s[1..], c);
      if s[0] != c && p == [s[0]] + r[0] {
        LastPiece(s[1..], c);
        assert s == [s[0]] + s[1..];
      } else if p != "" || s[0] != c {
        var j := PieceOf(s[1..], c, p);
        i := j + 1;
        assert s[i..i + |p|] == s[1..][j..j + |p|];
      }
    }
  }

  lemma {:induction false} LastPiece(s: string, c: char)
    ensures SplitOn(s, c)[0] <= s && Free(SplitOn(s, c)[0], c)
  {
    if s != "" && s[0] != c {
      LastPiece(s[1..], c);
      assert s == [s[0]] + s[1..];
    }
  }

  lemma {:induction false} TrimStretch(s: string) returns (i: nat)
    ensures i + |Trim(s)| <= |s| && s[i..i + |Trim(s)|] == Trim(s)
  {
    TrimStartSuffix(s);
    TrimEndPrefix(TrimStart(s));
    i := |s| - |TrimStart(s)|;
  }

  lemma {:induction false} TrimStartSuffix(s: string)
    ensures |TrimStart(s)| <= |s| && s[|s| - |TrimStart(s)|..] == TrimStart(s)
  {
    if s != "" && IsSpace(s[0]) { TrimStartSuffix(s[1..]); }
  }

  lemma {:induction false} TrimEndPrefix(s: string)
    ensures TrimEnd(s) <= s
  {
    if s != "" && IsSpace(s[|s| - 1]) { TrimEndPrefix(s[..|s| - 1]); }
  }

  /** The quotes of a written tag are its first and last opaque character. */
  lemma QuotesAt(t: EntityTag, l: string, r: string, i: nat)
    requires IsOpaque(t.quoted) && IsOws(l) && IsOws(r) && i < |l + (Written(t) + r)|
    requires (l + (Written(t) + r))[i] == '\"'
    ensures var q := |l| + |Written(t)| - |t.quoted|; i == q || i == q + |t.quoted| - 1
  {
    var u, w := l + (Written(t) + r), Written(t);
    assert forall k :: 0 <= k < |l| ==> u[k] == l[k];
    assert forall k :: 0 <= k < |w| ==> u[|l| + k] == w[k];
    assert forall k :: 0 <= k < |r| ==> u[|l| + |w| + k] == r[k];
  }

  /** A stretch of the element that is a quoted tag spans the element's opaque part. */
  lemma StretchIsOpaque(t: EntityTag, l: string, r: string, i: nat, etag: string)
    requires IsOpaque(t.quoted) && IsOws(l) && IsOws(r) && IsOpaque(etag)
    requires var u := l + (Written(t) + r); i + |etag| <= |u| && u[i..i + |etag|] == etag
    ensures t.quoted == etag
  {
    var u, o := l + (Written(t) + r), t.quoted;
    var q := |l| + |Written(t)| - |o|;
    assert u[i] == etag[0] && u[i + |etag| - 1] == etag[|etag| - 1];
    QuotesAt(t, l, r, i);
    QuotesAt(t, l, r, i + |etag| - 1);
    assert u[q..q + |o|] == o;
  }

  lemma OwsBlank(s: string)
    requires IsOws(s)
    ensures Blank(s)
  {
  }

  lemma SubStretch(u: string, i: nat, p: string, j: nat, e: string)
    requires i + |p| <= |u| && u[i..i + |p|] == p && j + |e| <= |p| && p[j..j + |e|] == e
    ensures i + j + |e| <= |u| && u[i + j..i + j + |e|] == e
  {
    assert forall k :: 0 <= k < |p| ==> u[i + k] == u[i..i + |p|][k] == p[k];
    assert forall k :: 0 <= k < |e| ==> p[j + k] == p[j..j + |e|][k] == e[k];
    forall k | 0 <= k < |e| ensures u[i + j + k] == e[k] { assert u[i + (j + k)] == p[j + k]; }
  }

  /** What is found in a text is a stretch of it. */
  lemma NamedStretch(u: string, etag: string) returns (k: nat)
    requires Names(u, etag)
    ensures k + |etag| <= |u| && u[k..k + |etag|] == etag
  {
    var p :| p in SplitOn(u, ',') && Trim(p) == etag;
    var i := PieceOf(u, ',', p);
    var j := TrimStretch(p);
    SubStretch(u, i, p, j, etag);
    k := i + j;
  }

  /** A written tag without a comma is one piece. */
  lemma OnePiece(t: EntityTag, l: string, r: string, etag: string)
    requires IsOpaque(t.quoted) && Free(t.quoted, ',') && IsOws(l) && IsOws(r)
    ensures Names(l + (Written(t) + r), etag) <==> Written(t) == etag
  {
    var u, w := l + (Written(t) + r), Written(t);
    OwsBlank(l);
    OwsBlank(r);
    assert w[0] == (if t.weak then 'W' else '\"') && w[|w| - 1] == '\"';
    PaddedTag(l, w, r);
    SplitFront(u, ',', "");
    assert u in SplitOn(u, ',') && forall p :: p in SplitOn(u, ',') ==> p == u;
  }

  /** An element names the tag exactly when it is that tag, not weak. */
  lemma ElementNames(t: EntityTag, l: string, r: string, etag: string)
    requires IsOpaque(t.quoted) && IsOws(l) && IsOws(r) && IsOpaque(etag) && Free(etag, ',')
    ensures Names(l + (Written(t) + r), etag) <==> t == EntityTag(false, etag)
  {
    if t.quoted == etag {
      OnePiece(t, l, r, etag);
      assert t.weak ==> Written(t)[0] == 'W';
    } else if Names(l + (Written(t) + r), etag) {
      var k := NamedStretch(l + (Written(t) + r), etag);
      StretchIsOpaque(t, l, r, k, etag);
    }
  }

  lemma FieldNames(f: Field, pads: seq<(string, string)>, etag: string)
    requires f.List? && WellFormed(f, pads) && IsOpaque(etag) && Free(etag, ',')
    ensures Names(Header(f, pads), etag) <==> EntityTag(false, etag) in f.tags
  {
    var us := Padded(Texts(f.tags), pads);
    forall i | 0 <= i < |us| ensures Names(us[i], etag) <==> f.tags[i] == EntityTag(false, etag) {
      ElementNames(f.tags[i], pads[i].0, pads[i].1, etag);
    }
    NamesJoined(us, etag);
  }

  lemma TagIsOpaque(h: Digest, bytes: string)
    requires HexDigest(h)
    ensures IsOpaque(Tag(h, bytes)) && Free(Tag(h, bytes), ',')
  {
    TagChars(h, bytes);
    var d := h(bytes);
    assert forall i :: 0 <= i < |d| ==> IsHex(d[i]);
    assert forall i :: 1 <= i < |Tag(h, bytes)| - 1 ==> Tag(h, bytes)[i] == d[i - 1];
  }

  /** Every well-formed field gets the answer the section asks for, except `*` and a field that
      names the body only weakly or has a byte outside visible ASCII. */
  lemma RfcExact(h: Digest, b: CachedBody, f: Field, pads: seq<(string, string)>)
    requires HexDigest(h) && Tagged(h, b) && WellFormed(f, pads)
    ensures (Respond(b, Some(Header(f, pads))).NotModified? <==> AsksNotModified(f, b.etag)) <==>
            !f.Any? && (AsksNotModified(f, b.etag) ==>
                          Visible(Header(f, pads)) && EntityTag(false, b.etag) in f.tags)
  {
    TagIsOpaque(h, b.bytes);
    if f.Any? {
      WildcardIgnored(h, b);
    } else {
      FieldNames(f, pads, b.etag);
    }
  }

  /** A weak form of the body's own tag, which the section wants compared weakly, gets a full response. */
  lemma WeakTagMissed(h: Digest, b: CachedBody)
    requires HexDigest(h) && Tagged(h, b)
    ensures Respond(b, Some("W/" + b.etag)).Full? && AsksNotModified(List([EntityTag(true, b.etag)]), b.etag)
  {
    TagIsOpaque(h, b.bytes);
    var t := EntityTag(true, b.etag);
    ElementNames(t, "", "", b.etag);
    assert "" + (Written(t) + "") == "W/" + b.etag;
    assert t in [t];
  }

  /** The wildcard of section 13.1.2 of RFC 9110 is treated as a tag that matches nothing. */
  lemma WildcardIgnored(h: Digest, b: CachedBody)
    requires HexDigest(h) && Tagged(h, b)
    ensures Respond(b, Some("*")).Full?
  {
    SplitFront("*", ',', "");
    TrimIdle("*");
    assert b.etag[0] == '\"';
    forall t | t in SplitOn("*", ',') ensures Trim(t) != b.etag { assert t == "*"; }
  }
}
