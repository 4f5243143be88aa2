/** Backend URLs with routing suffixes, and the interning of a configuration into handles. */
module BackendPool {
  import opened Strings
  import opened Options

  // ---- Suffixes ---------------------------------------------------------------------------

  /** The value the last `key=value` pair with this key carries. */
  function LastOf(kvs: seq<string>, key: string): Option<string> {
    if kvs == [] then None
    else if HasKey(kvs[|kvs| - 1], key) then Some(SplitOnce(kvs[|kvs| - 1], '=').value.1)
    else LastOf(kvs[..|kvs| - 1], key)
  }

  predicate HasKey(kv: string, key: string) {
    SplitOnce(kv, '=').Some? && Trim(SplitOnce(kv, '=').value.0) == key
  }

  lemma LastStep(kvs: seq<string>, i: nat, key: string)
    requires i < |kvs|
    ensures LastOf(kvs[..i + 1], key) ==
            if HasKey(kvs[i], key) then Some(SplitOnce(kvs[i], '=').value.1) else LastOf(kvs[..i], key)
  {
    assert kvs[..i + 1][..i] == kvs[..i] && kvs[..i + 1][i] == kvs[i];
  }

  function NumberOf(v: Option<string>): Option<nat> {
    match v case None => None case Some(s) => ParseU32(Trim(s))
  }

  function Pairs(url: string): seq<string> {
    match SplitOnce(url, '#') case None => [] case Some(p) => SplitOn(p.1, '&')
  }

  function Base(url: string): string {
    match SplitOnce(url, '#') case None => url case Some(p) => p.0
  }

  function TierOf(url: string): nat {
    match NumberOf(LastOf(Pairs(url), "tier")) case None => 0 case Some(n) => n
  }

  function MaxOf(url: string): Option<nat> { NumberOf(LastOf(Pairs(url), "max_concurrency")) }

  /** A short-prompt preference needs both keys, valid, and a positive roof. */
  function ShortOf(url: string): (Option<nat>, nat) {
    var t, r := NumberOf(LastOf(Pairs(url), "short_tier")), NumberOf(LastOf(Pairs(url), "short_roof"));
    if t.Some? && r.Some? && r.value > 0 then (t, r.value) else (None, 0)
  }

  method ParseSuffix(url: string) returns (base: string, tier: nat, max: Option<nat>)
    ensures base == Base(url) && tier == TierOf(url) && max == MaxOf(url)
  {
    var split := SplitOnce(url, '#');
    if split.None? {
      return url, 0, None;
    }
    base, tier, max := split.value.0, 0, None;
    var kvs := SplitOn(split.value.1, '&');
    for i := 0 to |kvs|
      invariant tier == match NumberOf(LastOf(kvs[..i], "tier")) { case None => 0 case Some(n) => n }
      invariant max == NumberOf(LastOf(kvs[..i], "max_concurrency"))
    {
      LastStep(kvs, i, "tier");
      LastStep(kvs, i, "max_concurrency");
      var kv := SplitOnce(kvs[i], '=');
      if kv.Some? {
        var n := ParseU32(Trim(kv.value.1));
        if Trim(kv.value.0) == "tier" {
          tier := if n.Some? then n.value else 0;
        } else if Trim(kv.value.0) == "max_concurrency" {
          max := n;
        }
      }
    }
    assert kvs[..|kvs|] == kvs;
  }

  method ParseShortSuffix(url: string) returns (tier: Option<nat>, roof: nat)
    ensures (tier, roof) == ShortOf(url)
  {
    var split := SplitOnce(url, '#');
    if split.None? {
      return None, 0;
    }
    var t, r := None, None;
    var kvs := SplitOn(split.value.1, '&');
    for i := 0 to |kvs|
      invariant t == NumberOf(LastOf(kvs[..i], "short_tier"))
      invariant r == NumberOf(LastOf(kvs[..i], "short_roof"))
    {
      LastStep(kvs, i, "short_tier");
      LastStep(kvs, i, "short_roof");
      var kv := SplitOnce(kvs[i], '=');
      if kv.Some? {
        var n := ParseU32(Trim(kv.value.1));
        if Trim(kv.value.0) == "short_tier" {
          t := n;
        } else if Trim(kv.value.0) == "short_roof" {
          r := n;
        }
      }
    }
    assert kvs[..|kvs|] == kvs;
    if t.Some? && r.Some? && r.value > 0 {
      tier, roof := t, r.value;
    } else {
      tier, roof := None, 0;
    }
  }

  lemma PairExact(key: string, n: nat)
    requires Trimmed(key) && Free(key, '=') && Free(key, '&') && n < 0x1_0000_0000
    ensures var kv := key + ("=" + Dec(n));
            && Free(kv, '&') && SplitOnce(kv, '=') == Some((key, Dec(n))) && Trim(key) == key
            && NumberOf(Some(Dec(n))) == Some(n)
  {
    SplitOnceExact(key, '=', Dec(n));
    ParseU32Back(n);
    DecFree(n, '&');
    TrimIdle(key);
    TrimIdle(Dec(n));
  }

  /** A suffix written with both keys reads back as written. */
  lemma SuffixRoundTrip(base: string, tier: nat, max: nat)
    requires Free(base, '#') && tier < 0x1_0000_0000 && max < 0x1_0000_0000
    ensures var url := base + ("#" + JoinOn(["tier" + ("=" + Dec(tier)), "max_concurrency" + ("=" + Dec(max))], '&'));
            Base(url) == base && TierOf(url) == tier && MaxOf(url) == Some(max) && ShortOf(url) == (None, 0)
  {
    var a, b := "tier" + ("=" + Dec(tier)), "max_concurrency" + ("=" + Dec(max));
    TierPair(tier);
    MaxPair(max);
    SuffixParts(base, a, b);
    TierAndMax(a, b);
  }

  lemma TierPair(n: nat)
    requires n < 0x1_0000_0000
    ensures var kv := "tier" + ("=" + Dec(n));
            && Free(kv, '&') && SplitOnce(kv, '=') == Some(("tier", Dec(n))) && Trim("tier") == "tier"
            && NumberOf(Some(Dec(n))) == Some(n)
  {
    PairExact("tier", n);
  }

  lemma MaxPair(n: nat)
    requires n < 0x1_0000_0000
    ensures var kv := "max_concurrency" + ("=" + Dec(n));
            && Free(kv, '&') && SplitOnce(kv, '=') == Some(("max_concurrency", Dec(n)))
            && Trim("max_concurrency") == "max_concurrency" && NumberOf(Some(Dec(n))) == Some(n)
  {
    PairExact("max_concurrency", n);
  }

  lemma SuffixParts(base: string, a: string, b: string)
    requires Free(base, '#') && Free(a, '&') && Free(b, '&')
    ensures var url := base + ("#" + JoinOn([a, b], '&')); Base(url) == base && Pairs(url) == [a, b]
  {
    SplitOnceExact(base, '#', JoinOn([a, b], '&'));
    SplitJoin([a, b], '&');
  }

  lemma TierAndMax(a: string, b: string)
    requires SplitOnce(a, '=').Some? && Trim(SplitOnce(a, '=').value.0) == "tier"
    requires SplitOnce(b, '=').Some? && Trim(SplitOnce(b, '=').value.0) == "max_concurrency"
    ensures LastOf([a, b], "tier") == Some(SplitOnce(a, '=').value.1)
    ensures LastOf([a, b], "max_concurrency") == Some(SplitOnce(b, '=').value.1)
    ensures LastOf([a, b], "short_tier") == None
  {
    LastOfTwo(a, "tier", b, "max_concurrency", "tier");
    LastOfTwo(a, "tier", b, "max_concurrency", "max_concurrency");
    LastOfTwo(a, "tier", b, "max_concurrency", "short_tier");
  }

  /** Looking a key up in two pairs. */
  lemma LastOfTwo(a: string, ka: string, b: string, kb: string, key: string)
    requires SplitOnce(a, '=').Some? && Trim(SplitOnce(a, '=').value.0) == ka
    requires SplitOnce(b, '=').Some? && Trim(SplitOnce(b, '=').value.0) == kb
    ensures LastOf([a, b], key) ==
            if key == kb then Some(SplitOnce(b, '=').value.1)
            else if key == ka then Some(SplitOnce(a, '=').value.1)
            else None
  {
    assert [a, b][..1] == [a] && [a][..0] == [];
    assert LastOf([a], key) == if key == ka then Some(SplitOnce(a, '=').value.1) else None;
  }

  // ---- Interning ------------------------------------------------------------------------------

  /** What a handle is created with. */
  datatype Settings = Settings(url: string, max: nat, queueRoof: nat, tier: nat, shortTier: Option<nat>, shortRoof: nat)

  datatype Defaults = Defaults(max: nat, queueRoof: nat)

  /** The normalised URL: no suffix, no trailing slashes. */
  function Key(url: string): string { DropTrailing(Base(url), '/') }

  function SettingsOf(url: string, d: Defaults): Settings {
    var m := MaxOf(url);
    Settings(Key(url), if m.Some? then m.value else d.max, d.queueRoof, TierOf(url), ShortOf(url).0, ShortOf(url).1)
  }

  /** A written suffix gives a URL its own limit and tier; without one it has the defaults. */
  lemma SettingsWritten(base: string, tier: nat, max: nat, d: Defaults)
    requires Free(base, '#') && tier < 0x1_0000_0000 && max < 0x1_0000_0000
    ensures var url := base + ("#" + JoinOn(["tier" + ("=" + Dec(tier)), "max_concurrency" + ("=" + Dec(max))], '&'));
            SettingsOf(url, d) == Settings(DropTrailing(base, '/'), max, d.queueRoof, tier, None, 0)
    ensures SettingsOf(base, d) == Settings(DropTrailing(base, '/'), d.max, d.queueRoof, 0, None, 0)
  {
    SuffixRoundTrip(base, tier, max);
    SplitOnceExact(base, '#', "");
  }

  /** Both short keys give a short tier if the roof is positive; one alone gives none. */
  lemma ShortWritten(base: string, tier: nat, roof: nat)
    requires Free(base, '#') && tier < 0x1_0000_0000 && roof < 0x1_0000_0000
    ensures var t, r := "short_tier" + ("=" + Dec(tier)), "short_roof" + ("=" + Dec(roof));
            && ShortOf(base + ("#" + JoinOn([t, r], '&'))) == (if roof > 0 then (Some(tier), roof) else (None, 0))
            && ShortOf(base + ("#" + JoinOn([t, t], '&'))) == (None, 0)
            && ShortOf(base + ("#" + JoinOn([r, r], '&'))) == (None, 0)
  {
    var t, r := "short_tier" + ("=" + Dec(tier)), "short_roof" + ("=" + Dec(roof));
    ShortPair("short_tier", tier);
    ShortPair("short_roof", roof);
    SuffixParts(base, t, r);
    SuffixParts(base, t, t);
    SuffixParts(base, r, r);
    TwoShort(t, r);
    TwoShort(t, t);
    TwoShort(r, r);
  }

  lemma ShortPair(key: string, n: nat)
    requires n < 0x1_0000_0000 && (key == "short_tier" || key == "short_roof")
    ensures var kv := key + ("=" + Dec(n));
            && Free(kv, '&') && SplitOnce(kv, '=') == Some((key, Dec(n))) && Trim(key) == key
            && NumberOf(Some(Dec(n))) == Some(n)
  {
    PairExact(key, n);
  }

  lemma TwoShort(a: string, b: string)
    requires SplitOnce(a, '=').Some? && SplitOnce(b, '=').Some?
    ensures var ka, kb := Trim(SplitOnce(a, '=').value.0), Trim(SplitOnce(b, '=').value.0);
            forall key :: LastOf([a, b], key) == if key == kb then Some(SplitOnce(b, '=').value.1)
                                                  else if key == ka then Some(SplitOnce(a, '=').value.1) else None
  {
    var ka, kb := Trim(SplitOnce(a, '=').value.0), Trim(SplitOnce(b, '=').value.0);
    forall key ensures LastOf([a, b], key) == if key == kb then Some(SplitOnce(b, '=').value.1)
                                              else if key == ka then Some(SplitOnce(a, '=').value.1) else None
    {
      LastOfTwo(a, ka, b, kb, key);
    }
  }

  function Slashes(n: nat): string { if n == 0 then "" else Slashes(n - 1) + "/" }

  lemma {:induction false} DropSlashes(base: string, n: nat)
    requires base == "" || base[|base| - 1] != '/'
    ensures DropTrailing(base + Slashes(n), '/') == base
  {
    if n == 0 {
      assert base + "" == base;
    } else {
      var u := base + Slashes(n);
      assert u[|u| - 1] == '/' && u[..|u| - 1] == base + Slashes(n - 1);
      DropSlashes(base, n - 1);
    }
  }

  lemma {:induction false} SlashesFree(n: nat)
    ensures Free(Slashes(n), '#')
  {
    if n > 0 { SlashesFree(n - 1); }
  }

  /** URLs that differ in trailing slashes have one key. */
  lemma KeyExact(base: string, n: nat)
    requires Free(base, '#') && (base == "" || base[|base| - 1] != '/')
    ensures Key(base + Slashes(n)) == base
  {
    SlashesFree(n);
    SplitOnceExact(base + Slashes(n), '#', "");
    DropSlashes(base, n);
  }

  /** Does some URL of the list name this key? */
  predicate Mentioned(urls: seq<string>, key: string) { exists i :: 0 <= i < |urls| && Key(urls[i]) == key }

  /** One handle per key, created by the first URL that names it. */
  function Interned(urls: seq<string>, d: Defaults): seq<Settings> {
    if urls == [] then []
    else
      var pre, u := urls[..|urls| - 1], urls[|urls| - 1];
      if Mentioned(pre, Key(u)) then Interned(pre, d) else Interned(pre, d) + [SettingsOf(u, d)]
  }

  /** Position `j` is the first mention of its key. */
  predicate First(urls: seq<string>, j: nat)
    requires j < |urls|
  {
    !Mentioned(urls[..j], Key(urls[j]))
  }

  lemma MentionedSnoc(urls: seq<string>, u: string, key: string)
    ensures Mentioned(urls + [u], key) <==> Mentioned(urls, key) || Key(u) == key
  {
    if Mentioned(urls, key) {
      var i :| 0 <= i < |urls| && Key(urls[i]) == key;
      assert (urls + [u])[i] == urls[i];
    }
    if Key(u) == key { assert (urls + [u])[|urls|] == u; }
  }

  predicate Distinct(all: seq<Settings>) { forall i, j :: 0 <= i < j < |all| ==> all[i].url != all[j].url }

  predicate Has(all: seq<Settings>, key: string) { exists i :: 0 <= i < |all| && all[i].url == key }

  /** The settings are those of the first mention of their URL. */
  predicate FromFirst(urls: seq<string>, d: Defaults, h: Settings) {
    exists j :: 0 <= j < |urls| && First(urls, j) && h == SettingsOf(urls[j], d)
  }

  lemma HasSnoc(all: seq<Settings>, h: Settings, key: string)
    ensures Has(all + [h], key) <==> Has(all, key) || h.url == key
  {
    if Has(all, key) {
      var i :| 0 <= i < |all| && all[i].url == key;
      assert (all + [h])[i] == all[i];
    }
    if h.url == key { assert (all + [h])[|all|] == h; }
  }

  lemma FromFirstSnoc(urls: seq<string>, u: string, d: Defaults, h: Settings)
    ensures FromFirst(urls, d, h) ==> FromFirst(urls + [u], d, h)
    ensures !Mentioned(urls, Key(u)) ==> FromFirst(urls + [u], d, SettingsOf(u, d))
  {
    if FromFirst(urls, d, h) {
      var j :| 0 <= j < |urls| && First(urls, j) && h == SettingsOf(urls[j], d);
      assert (urls + [u])[..j] == urls[..j] && (urls + [u])[j] == urls[j];
      assert First(urls + [u], j);
    }
    if !Mentioned(urls, Key(u)) {
      assert (urls + [u])[..|urls|] == urls && (urls + [u])[|urls|] == u;
      assert First(urls + [u], |urls|);
    }
  }

  /** `all` has exactly one handle per mentioned key, with the settings of its first mention. */
  lemma {:induction false} InternedExact(urls: seq<string>, d: Defaults)
    ensures var all := Interned(urls, d);
            && Distinct(all)
            && (forall key :: Mentioned(urls, key) <==> Has(all, key))
            && (forall h :: h in all ==> FromFirst(urls, d, h))
    decreases |urls|
  {
    if urls != [] {
      var n := |urls| - 1;
      var pre, u := urls[..n], urls[n];
      assert urls == pre + [u];
      InternedExact(pre, d);
      var h := SettingsOf(u, d);
      forall key ensures Mentioned(urls, key) <==> Has(Interned(urls, d), key) {
        MentionedSnoc(pre, u, key);
        HasSnoc(Interned(pre, d), h, key);
      }
      forall x | x in Interned(urls, d) ensures FromFirst(urls, d, x) {
        FromFirstSnoc(pre, u, d, x);
      }
      DistinctSnoc(Interned(pre, d), h);
    }
  }

  lemma DistinctSnoc(all: seq<Settings>, h: Settings)
    requires Distinct(all)
    ensures !Has(all, h.url) ==> Distinct(all + [h])
  {
  }

  lemma {:induction false} Grows(urls: seq<string>, more: seq<string>, d: Defaults)
    ensures Interned(urls, d) <= Interned(urls + more, d)
    decreases |more|
  {
    if more == [] {
      assert urls + more == urls;
    } else {
      var n := |more| - 1;
      assert (urls + more)[..|urls + more| - 1] == urls + more[..n];
      Grows(urls, more[..n], d);
    }
  }

  /** One more URL adds a handle only for a new key. */
  lemma InternedSnoc(urls: seq<string>, u: string, d: Defaults)
    ensures var all := Interned(urls + [u], d);
            if Mentioned(urls, Key(u)) then all == Interned(urls, d)
            else all == Interned(urls, d) + [SettingsOf(u, d)]
  {
    assert (urls + [u])[..|urls|] == urls;
  }

  /** The settings a URL gets behind a roster: those of the first roster entry with its key, and its
      own only if there is none. */
  ghost predicate SettledBy(roster: seq<string>, u: string, d: Defaults, h: Settings) {
    if Mentioned(roster, Key(u))
    then exists j :: 0 <= j < |roster| && First(roster, j) && Key(roster[j]) == Key(u) && h == SettingsOf(roster[j], d)
    else h == SettingsOf(u, d)
  }

  lemma SettingsUrl(u: string, d: Defaults)
    ensures SettingsOf(u, d).url == Key(u)
  {
  }

  /** The primary's handle has the settings of the first roster entry that names its URL, and the
      primary's own only if none does. */
  lemma PrimarySettings(roster: seq<string>, primary: string, d: Defaults, h: nat)
    requires var all := Interned(roster + [primary], d); h < |all| && all[h].url == Key(primary)
    ensures SettledBy(roster, primary, d, Interned(roster + [primary], d)[h])
  {
    InternedSnoc(roster, primary, d);
    InternedExact(roster, d);
    var all := Interned(roster + [primary], d);
    if Mentioned(roster, Key(primary)) {
      assert FromFirst(roster, d, all[h]);
      var j :| 0 <= j < |roster| && First(roster, j) && all[h] == SettingsOf(roster[j], d);
      SettingsUrl(roster[j], d);
    } else {
      var before := Interned(roster, d);
      assert forall i :: 0 <= i < |before| ==> before[i] in before && Has(before, before[i].url);
    }
  }

  /** The handles of the URLs so far and the index that finds them by key. */
  ghost predicate Tracks(all: seq<Settings>, seen: map<string, nat>, urls: seq<string>, d: Defaults) {
    && all == Interned(urls, d)
    && (forall key :: key in seen <==> Mentioned(urls, key))
    && Indexed(all, seen)
  }

  predicate Indexed(all: seq<Settings>, seen: map<string, nat>) {
    forall key :: key in seen ==> seen[key] < |all| && all[seen[key]].url == key
  }

  lemma IndexedSnoc(all: seq<Settings>, seen: map<string, nat>, h: Settings)
    requires Indexed(all, seen)
    ensures Indexed(all + [h], seen[h.url := |all|])
  {
  }

  lemma TracksOld(all: seq<Settings>, seen: map<string, nat>, urls: seq<string>, d: Defaults, u: string)
    requires Tracks(all, seen, urls, d) && Key(u) in seen
    ensures Tracks(all, seen, urls + [u], d)
  {
    forall key ensures Mentioned(urls + [u], key) <==> Mentioned(urls, key) || Key(u) == key {
      MentionedSnoc(urls, u, key);
    }
    InternedSnoc(urls, u, d);
  }

  lemma TracksNew(all: seq<Settings>, seen: map<string, nat>, urls: seq<string>, d: Defaults, u: string)
    requires Tracks(all, seen, urls, d) && Key(u) !in seen
    ensures Tracks(all + [SettingsOf(u, d)], seen[Key(u) := |all|], urls + [u], d)
  {
    forall key ensures Mentioned(urls + [u], key) <==> Mentioned(urls, key) || Key(u) == key {
      MentionedSnoc(urls, u, key);
    }
    InternedSnoc(urls, u, d);
    IndexedSnoc(all, seen, SettingsOf(u, d));
  }

  /** The list points at the handles of its URLs. */
  ghost predicate PointsInto(hs: seq<nat>, urls: seq<string>, all: seq<Settings>) {
    |hs| == |urls| && forall i :: 0 <= i < |hs| ==> hs[i] < |all| && all[hs[i]].url == Key(urls[i])
  }

  lemma PointsGrow(hs: seq<nat>, urls: seq<string>, all: seq<Settings>, more: seq<Settings>)
    requires PointsInto(hs, urls, all) && all <= more
    ensures PointsInto(hs, urls, more)
  {
  }

  lemma PointsSnoc(hs: seq<nat>, urls: seq<string>, all: seq<Settings>, h: nat, u: string)
    requires PointsInto(hs, urls, all) && h < |all| && all[h].url == Key(u)
    ensures PointsInto(hs + [h], urls + [u], all)
  {
  }

  lemma PointsNext(hs: seq<nat>, list: seq<string>, i: nat, all: seq<Settings>, more: seq<Settings>, h: nat)
    requires i < |list| && PointsInto(hs, list[..i], all) && all <= more && h < |more| && more[h].url == Key(list[i])
    ensures PointsInto(hs + [h], list[..i + 1], more)
  {
    PointsGrow(hs, list[..i], all, more);
    PointsSnoc(hs, list[..i], more, h, list[i]);
    assert list[..i + 1] == list[..i] + [list[i]];
  }

  lemma UrlsNext(urls0: seq<string>, list: seq<string>, i: nat)
    requires i < |list|
    ensures urls0 + list[..i] + [list[i]] == urls0 + list[..i + 1]
  {
  }

  /** The interning closure and the vectors it fills. */
  class Interner {
    const defaults: Defaults
    var all: seq<Settings>
    var seen: map<string, nat>
    ghost var urls: seq<string>

    ghost predicate Valid()
      reads this
    {
      Tracks(all, seen, urls, defaults)
    }

    constructor (d: Defaults)
      ensures Valid() && urls == [] && defaults == d
    {
      defaults := d;
      all, seen, urls := [], map[], [];
    }

    /** Returns the handle of the URL's key, creating it on its first mention. */
    method Intern(url: string) returns (h: nat)
      requires Valid()
      modifies this
      ensures Valid() && urls == old(urls) + [url] && old(all) <= all
      ensures h < |all| && all[h].url == Key(url)
    {
      var base, tier, max := ParseSuffix(url);
      var key := DropTrailing(base, '/');
      if key in seen {
        TracksOld(all, seen, urls, defaults, url);
      } else {
        TracksNew(all, seen, urls, defaults, url);
        var t, r := ParseShortSuffix(url);
        var m := if max.Some? then max.value else defaults.max;
        seen := seen[key := |all|];
        all := all + [Settings(key, m, defaults.queueRoof, tier, t, r)];
      }
      urls := urls + [url];
      h := seen[key];
    }

    /** The first `i` URLs of a list are interned. */
    ghost predicate Progress(hs: seq<nat>, list: seq<string>, i: nat, urls0: seq<string>, all0: seq<Settings>)
      reads this
    {
      i <= |list| && Valid() && urls == urls0 + list[..i] && all0 <= all && PointsInto(hs, list[..i], all)
    }

    method InternNext(hs: seq<nat>, list: seq<string>, i: nat, ghost urls0: seq<string>, ghost all0: seq<Settings>)
      returns (hs': seq<nat>)
      requires i < |list| && Progress(hs, list, i, urls0, all0)
      modifies this
      ensures Progress(hs', list, i + 1, urls0, all0)
    {
      ghost var before := all;
      var h := Intern(list[i]);
      PointsNext(hs, list, i, before, all, h);
      UrlsNext(urls0, list, i);
      hs' := hs + [h];
    }

    method InternList(list: seq<string>) returns (hs: seq<nat>)
      requires Valid()
      modifies this
      ensures Valid() && urls == old(urls) + list && old(all) <= all
      ensures PointsInto(hs, list, all)
    {
      hs := [];
      ghost var urls0, all0 := urls, all;
      assert urls0 + list[..0] == urls0;
      for i := 0 to |list|
        invariant Progress(hs, list, i, urls0, all0)
      {
        hs := InternNext(hs, list, i, urls0, all0);
      }
      assert list[..|list|] == list;
    }
  }

  datatype Pool = Pool(byModel: map<string, seq<nat>>, primary: Option<nat>, all: seq<Settings>)

  function RosterUrls(backends: seq<(string, seq<string>)>): seq<string> {
    if backends == [] then [] else RosterUrls(backends[..|backends| - 1]) + backends[|backends| - 1].1
  }

  /** The list configured for a model: the last non-empty one. */
  function Roster(backends: seq<(string, seq<string>)>, model: string): Option<seq<string>> {
    if backends == [] then None
    else
      var x := backends[|backends| - 1];
      if x.0 == model && x.1 != [] then Some(x.1) else Roster(backends[..|backends| - 1], model)
  }

  ghost predicate ModelsPoint(byModel: map<string, seq<nat>>, backends: seq<(string, seq<string>)>,
                              all: seq<Settings>)
  {
    forall m :: (m in byModel <==> Roster(backends, m).Some?) &&
                (m in byModel ==> PointsInto(byModel[m], Roster(backends, m).value, all))
  }

  /** One roster entry more. */
  lemma ModelsStep(byModel: map<string, seq<nat>>, backends: seq<(string, seq<string>)>, x: (string, seq<string>),
                   hs: seq<nat>, all: seq<Settings>, more: seq<Settings>)
    requires ModelsPoint(byModel, backends, all) && all <= more && PointsInto(hs, x.1, more)
    ensures ModelsPoint(if hs == [] then byModel else byModel[x.0 := hs], backends + [x], more)
  {
    var b2 := if hs == [] then byModel else byModel[x.0 := hs];
    assert (backends + [x])[..|backends|] == backends && (backends + [x])[|backends|] == x;
    forall m
      ensures (m in b2 <==> Roster(backends + [x], m).Some?) &&
              (m in b2 ==> PointsInto(b2[m], Roster(backends + [x], m).value, more))
    {
      if m in byModel { PointsGrow(byModel[m], Roster(backends, m).value, all, more); }
    }
  }

  lemma RosterNext(byModel: map<string, seq<nat>>, backends: seq<(string, seq<string>)>, i: nat,
                   hs: seq<nat>, all: seq<Settings>, more: seq<Settings>)
    requires i < |backends| && ModelsPoint(byModel, backends[..i], all)
    requires all <= more && PointsInto(hs, backends[i].1, more)
    ensures RosterUrls(backends[..i + 1]) == RosterUrls(backends[..i]) + backends[i].1
    ensures ModelsPoint(if hs == [] then byModel else byModel[backends[i].0 := hs], backends[..i + 1], more)
  {
    ModelsStep(byModel, backends[..i], backends[i], hs, all, more);
    assert backends[..i + 1] == backends[..i] + [backends[i]];
    assert backends[..i + 1][..i] == backends[..i];
  }

  /** The rosters, in order. */
  method InternRosters(it: Interner, backends: seq<(string, seq<string>)>) returns (byModel: map<string, seq<nat>>)
    requires it.Valid() && it.urls == []
    modifies it
    ensures it.Valid() && it.urls == RosterUrls(backends) && ModelsPoint(byModel, backends, it.all)
  {
    byModel := map[];
    for i := 0 to |backends|
      invariant it.Valid() && it.urls == RosterUrls(backends[..i])
      invariant ModelsPoint(byModel, backends[..i], it.all)
    {
      ghost var before := it.all;
      var hs := it.InternList(backends[i].1);
      RosterNext(byModel, backends, i, hs, before, it.all);
      if hs != [] {
        byModel := byModel[backends[i].0 := hs];
      }
    }
    assert backends[..|backends|] == backends;
  }

  /** `intern_backends`: the rosters first, then the primary. */
  method InternBackends(primaryUrl: string, backends: seq<(string, seq<string>)>, d: Defaults) returns (p: Pool)
    ensures p.all == Interned(RosterUrls(backends) + (if primaryUrl == "" then [] else [primaryUrl]), d)
    ensures ModelsPoint(p.byModel, backends, p.all)
    ensures p.primary.Some? <==> primaryUrl != ""
    ensures p.primary.Some? ==> p.primary.value < |p.all| && p.all[p.primary.value].url == Key(primaryUrl)
    ensures p.primary.Some? ==> SettledBy(RosterUrls(backends), primaryUrl, d, p.all[p.primary.value])
  {
    var it := new Interner(d);
    var byModel := InternRosters(it, backends);
    var primary := None;
    if primaryUrl == "" {
      assert RosterUrls(backends) + [] == RosterUrls(backends);
    } else {
      ghost var before := it.all;
      var h := it.Intern(primaryUrl);
      primary := Some(h);
      ModelsGrow(byModel, backends, before, it.all);
      PrimarySettings(RosterUrls(backends), primaryUrl, d, h);
    }
    p := Pool(byModel, primary, it.all);
  }

  lemma ModelsGrow(byModel: map<string, seq<nat>>, backends: seq<(string, seq<string>)>,
                   all: seq<Settings>, more: seq<Settings>)
    requires ModelsPoint(byModel, backends, all) && all <= more
    ensures ModelsPoint(byModel, backends, more)
  {
    forall m | m in byModel ensures PointsInto(byModel[m], Roster(backends, m).value, more) {
      PointsGrow(byModel[m], Roster(backends, m).value, all, more);
    }
  }
}
