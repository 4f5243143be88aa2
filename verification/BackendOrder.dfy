/** The order in which a request tries its backends. */
module BackendOrder {
  import opened Strings
  import opened Options
  import opened BackendPool

  /** A handle as one request sees it. */
  datatype View = View(conf: Settings, healthy: bool, inflight: int, queueDepth: int)

  /** An unsigned 32-bit setting compared as a signed one. */
  function AsI32(n: nat): int {
    var low := n % 0x1_0000_0000;
    if low < 0x8000_0000 then low else low - 0x1_0000_0000
  }

  predicate AtQueueRoof(v: View) {
    v.conf.queueRoof != 0 && v.queueDepth >= 0 && v.queueDepth >= AsI32(v.conf.queueRoof)
  }

  predicate AtRoof(v: View) {
    AtQueueRoof(v) || (v.conf.max != 0 && v.inflight >= AsI32(v.conf.max))
  }

  lemma AsI32Exact(n: nat)
    ensures -0x8000_0000 <= AsI32(n) < 0x8000_0000 && (n - AsI32(n)) % 0x1_0000_0000 == 0
    ensures n < 0x8000_0000 ==> AsI32(n) == n
  {
  }

  /** Below both configured roofs; zero means that there is no roof. */
  predicate HasRoom(v: View) {
    && (v.conf.max == 0 || v.inflight < v.conf.max)
    && (v.conf.queueRoof == 0 || v.queueDepth < v.conf.queueRoof)
  }

  /** A backend is full if and only if a roof is reached, for roofs that fit the signed counters. */
  lemma AtRoofExact(v: View)
    requires v.conf.max < 0x8000_0000 && v.conf.queueRoof < 0x8000_0000
    ensures AtRoof(v) <==> !HasRoom(v)
  {
  }

  /** A roof past the signed range compares as negative: any known queue and any load reach it. */
  lemma HugeRoofIsFull(v: View)
    ensures 0x8000_0000 <= v.conf.queueRoof < 0x1_0000_0000 ==> (AtQueueRoof(v) <==> v.queueDepth >= 0)
    ensures 0x8000_0000 <= v.conf.max < 0x1_0000_0000 && v.inflight >= 0 ==> AtRoof(v)
  {
  }

  function EffectiveTier(v: View, short: bool): nat {
    if v.conf.shortTier.Some? && short && v.inflight < AsI32(v.conf.shortRoof)
    then v.conf.shortTier.value
    else v.conf.tier
  }

  datatype Rank = Rank(unhealthy: bool, full: bool, tier: nat, load: int)

  function RankOf(v: View, short: bool): Rank {
    Rank(!v.healthy, AtRoof(v), EffectiveTier(v, short), v.inflight)
  }

  /** Tuple order; `false` comes before `true`. */
  predicate Less(a: Rank, b: Rank) {
    if a.unhealthy != b.unhealthy then b.unhealthy
    else if a.full != b.full then b.full
    else if a.tier != b.tier then a.tier < b.tier
    else a.load < b.load
  }

  /** Position `i` of the roster goes before position `j`: by rank, then by position. */
  predicate Before(vs: seq<View>, short: bool, i: nat, j: nat)
    requires i < |vs| && j < |vs|
  {
    var a, b := RankOf(vs[i], short), RankOf(vs[j], short);
    Less(a, b) || (a == b && i < j)
  }

  predicate Positions(vs: seq<View>, out: seq<nat>) { forall a :: 0 <= a < |out| ==> out[a] < |vs| }

  function Insert(vs: seq<View>, short: bool, out: seq<nat>, i: nat): seq<nat>
    requires i < |vs| && Positions(vs, out)
  {
    if out == [] then [i]
    else
      if Less(RankOf(vs[i], short), RankOf(vs[out[0]], short)) then [i] + out
      else [out[0]] + Insert(vs, short, out[1..], i)
  }

  /** The stable sort of the first `n` roster positions. */
  function Sorted(vs: seq<View>, short: bool, n: nat): (out: seq<nat>)
    requires n <= |vs|
    ensures Positions(vs, out)
  {
    if n == 0 then []
    else
      var pre := Sorted(vs, short, n - 1);
      InsertMembers(vs, short, pre, n - 1);
      Insert(vs, short, pre, n - 1)
  }

  function Order(vs: seq<View>, short: bool): (out: seq<nat>)
    ensures Positions(vs, out)
  {
    Sorted(vs, short, |vs|)
  }

  lemma {:induction false} InsertMembers(vs: seq<View>, short: bool, out: seq<nat>, i: nat)
    requires i < |vs| && Positions(vs, out)
    ensures Positions(vs, Insert(vs, short, out, i))
    ensures forall k :: k in Insert(vs, short, out, i) <==> k in out || k == i
    ensures |Insert(vs, short, out, i)| == |out| + 1
    decreases |out|
  {
    if out != [] {
      InsertMembers(vs, short, out[1..], i);
      assert out == [out[0]] + out[1..];
    }
  }

  /** Strictly increasing in the order. */
  ghost predicate Ascending(vs: seq<View>, short: bool, out: seq<nat>)
    requires Positions(vs, out)
  {
    forall a, b :: 0 <= a < b < |out| ==> Before(vs, short, out[a], out[b])
  }

  lemma BeforeTotal(vs: seq<View>, short: bool, i: nat, j: nat)
    requires i < |vs| && j < |vs|
    ensures i != j ==> Before(vs, short, i, j) || Before(vs, short, j, i)
    ensures !(Before(vs, short, i, j) && Before(vs, short, j, i))
  {
  }

  lemma BeforeChain(vs: seq<View>, short: bool, i: nat, j: nat, k: nat)
    requires i < |vs| && j < |vs| && k < |vs| && Before(vs, short, i, j) && Before(vs, short, j, k)
    ensures Before(vs, short, i, k)
  {
  }

  lemma {:induction false} InsertAscends(vs: seq<View>, short: bool, out: seq<nat>, i: nat)
    requires i < |vs| && Positions(vs, out) && Ascending(vs, short, out) && Positions(vs[..i], out)
    ensures Positions(vs, Insert(vs, short, out, i)) && Ascending(vs, short, Insert(vs, short, out, i))
    decreases |out|
  {
    InsertMembers(vs, short, out, i);
    if out != [] {
      var rest := out[1..];
      InsertAscends(vs, short, rest, i);
      InsertMembers(vs, short, rest, i);
      if Less(RankOf(vs[i], short), RankOf(vs[out[0]], short)) {
        FirstIsLeast(vs, short, out, i);
      } else {
        BeforeTotal(vs, short, out[0], i);
        HeadLeads(vs, short, out[0], Insert(vs, short, rest, i), rest, i);
      }
    }
  }

  lemma FirstIsLeast(vs: seq<View>, short: bool, out: seq<nat>, i: nat)
    requires i < |vs| && Positions(vs, out) && Ascending(vs, short, out) && out != [] && Before(vs, short, i, out[0])
    ensures Positions(vs, [i] + out) && Ascending(vs, short, [i] + out)
  {
    forall b | 0 < b < |out| ensures Before(vs, short, i, out[b]) {
      BeforeChain(vs, short, i, out[0], out[b]);
    }
  }

  lemma HeadLeads(vs: seq<View>, short: bool, h: nat, r: seq<nat>, rest: seq<nat>, i: nat)
    requires h < |vs| && i < |vs| && Positions(vs, r) && Ascending(vs, short, r)
    requires forall k :: k in r ==> k in rest || k == i
    requires Positions(vs, rest)
    requires (forall b :: 0 <= b < |rest| ==> Before(vs, short, h, rest[b])) && Before(vs, short, h, i)
    ensures Positions(vs, [h] + r) && Ascending(vs, short, [h] + r)
  {
    forall b | 0 <= b < |r| ensures Before(vs, short, h, r[b]) {
      assert r[b] in r;
    }
  }

  /** The members are the numbers below `n`. */
  ghost predicate Covers(out: seq<nat>, n: nat) {
    (forall k :: k in out ==> k < n) && (forall k: nat :: k < n ==> k in out)
  }

  lemma CoversNext(pre: seq<nat>, out: seq<nat>, n: nat)
    requires Covers(pre, n) && forall k :: k in out <==> k in pre || k == n
    ensures Covers(out, n + 1)
  {
  }

  /** A stable sorted permutation of the roster positions. */
  ghost predicate StableSort(vs: seq<View>, short: bool, out: seq<nat>) {
    && Positions(vs, out) && |out| == |vs| && Covers(out, |vs|)
    && Ascending(vs, short, out)
  }

  lemma {:induction false} SortedIsStable(vs: seq<View>, short: bool, n: nat)
    requires n <= |vs|
    ensures var out := Sorted(vs, short, n);
            |out| == n && Ascending(vs, short, out) && Covers(out, n)
  {
    if n > 0 {
      SortedIsStable(vs, short, n - 1);
      InsertNext(vs, short, Sorted(vs, short, n - 1), n - 1);
    }
  }

  lemma InsertNext(vs: seq<View>, short: bool, pre: seq<nat>, n: nat)
    requires n < |vs| && Positions(vs, pre) && |pre| == n && Ascending(vs, short, pre) && Covers(pre, n)
    ensures var out := Insert(vs, short, pre, n);
            Positions(vs, out) && |out| == n + 1 && Ascending(vs, short, out) && Covers(out, n + 1)
  {
    assert forall a :: 0 <= a < |pre| ==> pre[a] in pre;
    InsertMembers(vs, short, pre, n);
    InsertAscends(vs, short, pre, n);
    CoversNext(pre, Insert(vs, short, pre, n), n);
  }

  lemma OrderIsStable(vs: seq<View>, short: bool)
    ensures StableSort(vs, short, Order(vs, short))
  {
    SortedIsStable(vs, short, |vs|);
  }

  /** Of two backends the earlier one is no worse: up before down, then room before full, then the lower
      tier, then the smaller load, then the earlier place in the roster. A short request sees a short
      tier below its short roof. */
  lemma InOrder(vs: seq<View>, short: bool, a: nat, b: nat)
    requires a < b < |Order(vs, short)|
    ensures var out := Order(vs, short);
            var x, y := vs[out[a]], vs[out[b]];
            && (y.healthy ==> x.healthy)
            && (x.healthy == y.healthy ==>
                  && (AtRoof(x) ==> AtRoof(y))
                  && (AtRoof(x) == AtRoof(y) ==>
                        && TierFor(x, short) <= TierFor(y, short)
                        && (TierFor(x, short) == TierFor(y, short) ==>
                              x.inflight < y.inflight || (x.inflight == y.inflight && out[a] < out[b]))))
  {
    SortedIsStable(vs, short, |vs|);
    assert Before(vs, short, Order(vs, short)[a], Order(vs, short)[b]);
    TierExact(vs[Order(vs, short)[a]], short);
    TierExact(vs[Order(vs, short)[b]], short);
  }

  /** The tier at which a backend competes for a request. */
  function TierFor(v: View, short: bool): nat {
    match v.conf.shortTier
    case Some(t) => if short && AsI32(v.conf.shortRoof) > v.inflight then t else v.conf.tier
    case None => v.conf.tier
  }

  lemma TierExact(v: View, short: bool)
    ensures EffectiveTier(v, short) == TierFor(v, short)
  {
  }

  // ---- There is only one stable sort ------------------------------------------------------

  lemma {:induction false} AscendingUnique(vs: seq<View>, short: bool, p: seq<nat>, q: seq<nat>)
    requires Positions(vs, p) && Positions(vs, q) && Ascending(vs, short, p) && Ascending(vs, short, q)
    requires forall k :: k in p <==> k in q
    ensures p == q
    decreases |p|
  {
    if p == [] {
      assert forall b :: 0 <= b < |q| ==> q[b] in q;
    } else {
      assert p[0] in p;
      assert q != [];
      assert q[0] in q;
      SameHead(vs, short, p, q);
      SameTail(vs, short, p, q);
      AscendingUnique(vs, short, p[1..], q[1..]);
      assert p == [p[0]] + p[1..] && q == [q[0]] + q[1..];
    }
  }

  lemma SameHead(vs: seq<View>, short: bool, p: seq<nat>, q: seq<nat>)
    requires Positions(vs, p) && Positions(vs, q) && Ascending(vs, short, p) && Ascending(vs, short, q)
    requires p != [] && q != [] && p[0] in q && q[0] in p
    ensures p[0] == q[0]
  {
    var i :| 0 <= i < |q| && q[i] == p[0];
    var j :| 0 <= j < |p| && p[j] == q[0];
    BeforeTotal(vs, short, p[0], q[0]);
  }

  lemma SameTail(vs: seq<View>, short: bool, p: seq<nat>, q: seq<nat>)
    requires Positions(vs, p) && Positions(vs, q) && Ascending(vs, short, p) && Ascending(vs, short, q)
    requires p != [] && q != [] && p[0] == q[0] && forall k :: k in p <==> k in q
    ensures Positions(vs, p[1..]) && Positions(vs, q[1..])
    ensures Ascending(vs, short, p[1..]) && Ascending(vs, short, q[1..])
    ensures forall k :: k in p[1..] <==> k in q[1..]
  {
    TailMembers(vs, short, p);
    TailMembers(vs, short, q);
  }

  lemma TailMembers(vs: seq<View>, short: bool, p: seq<nat>)
    requires Positions(vs, p) && Ascending(vs, short, p) && p != []
    ensures Positions(vs, p[1..]) && Ascending(vs, short, p[1..])
    ensures forall k :: k in p[1..] <==> k in p && k != p[0]
  {
    assert p == [p[0]] + p[1..];
    forall b | 1 <= b < |p| ensures p[b] != p[0] {
      assert Before(vs, short, p[0], p[b]);
      BeforeTotal(vs, short, p[0], p[0]);
    }
    assert forall b :: 0 <= b < |p[1..]| ==> p[1..][b] == p[b + 1];
  }

  /** Any stable sorted permutation is the order. */
  lemma OrderUnique(vs: seq<View>, short: bool, out: seq<nat>)
    requires StableSort(vs, short, out)
    ensures out == Order(vs, short)
  {
    SortedIsStable(vs, short, |vs|);
    AscendingUnique(vs, short, out, Order(vs, short));
  }

  // ---- What the head says -------------------------------------------------------------------

  /** The first backend tried is no worse than any other. */
  lemma HeadIsBest(vs: seq<View>, short: bool, j: nat)
    requires j < |vs|
    ensures Order(vs, short) != []
    ensures var h := Order(vs, short)[0]; h == j || Before(vs, short, h, j)
  {
    SortedIsStable(vs, short, |vs|);
    var out := Order(vs, short);
    assert j in out;
    var k :| 0 <= k < |out| && out[k] == j;
  }

  /** An unhealthy head means all are unhealthy; a healthy head at its roof means every healthy
      one is at its roof; a backend of a lower tier than the head is unhealthy or at its roof. */
  lemma HeadProperties(vs: seq<View>, short: bool, j: nat)
    requires j < |vs|
    ensures Order(vs, short) != []
    ensures var h := vs[Order(vs, short)[0]];
            && (!h.healthy ==> !vs[j].healthy)
            && (h.healthy && AtRoof(h) ==> vs[j].healthy ==> AtRoof(vs[j]))
            && (EffectiveTier(vs[j], short) < EffectiveTier(h, short) ==> !vs[j].healthy || AtRoof(vs[j]))
  {
    HeadIsBest(vs, short, j);
  }

  /** Rosters without short-prompt keys treat short and long requests alike. */
  lemma ShortMattersOnlyIfConfigured(vs: seq<View>)
    requires forall k :: 0 <= k < |vs| ==> vs[k].conf.shortTier.None?
    ensures Order(vs, true) == Order(vs, false)
  {
    OrderIsStable(vs, true);
    var out := Order(vs, true);
    forall a, b | 0 <= a < b < |out| ensures Before(vs, false, out[a], out[b]) {
      assert Before(vs, true, out[a], out[b]);
    }
    OrderUnique(vs, false, out);
  }

  // ---- Which roster ---------------------------------------------------------------------------

  /** The handles a request may use: its model's roster; the primary only for a request without
      a model or a deployment without rosters. */
  function Candidates(p: Pool, model: Option<string>): seq<nat> {
    if model.Some? && model.value in p.byModel then p.byModel[model.value]
    else if model.Some? && p.byModel != map[] then []
    else if p.primary.Some? then [p.primary.value] else []
  }

  /** The handles in the order they are tried. */
  function BackendsFor(p: Pool, load: nat -> View, model: Option<string>, short: bool): (hs: seq<nat>)
    ensures |hs| <= |Candidates(p, model)|
  {
    var c := Candidates(p, model);
    var vs := seq(|c|, i requires 0 <= i < |c| => load(c[i]));
    SortedIsStable(vs, short, |vs|);
    var out := Order(vs, short);
    assert forall i :: 0 <= i < |out| ==> out[i] in out;
    seq(|out|, i requires 0 <= i < |out| => c[out[i]])
  }

  /** Exactly the model's roster is tried; the primary for a request without a model, or for any model
      where no roster is configured; and nothing for a model outside every roster. */
  lemma BackendsExact(p: Pool, load: nat -> View, model: Option<string>, short: bool, h: nat)
    ensures h in BackendsFor(p, load, model, short) <==> h in Candidates(p, model)
    ensures h in Candidates(p, model) <==>
            || (model.Some? && model.value in p.byModel && h in p.byModel[model.value])
            || ((model.None? || p.byModel == map[]) && p.primary == Some(h))
    ensures |BackendsFor(p, load, model, short)| == |Candidates(p, model)|
    ensures model.Some? && model.value !in p.byModel && p.byModel != map[] ==> BackendsFor(p, load, model, short) == []
  {
    var c := Candidates(p, model);
    var vs := seq(|c|, i requires 0 <= i < |c| => load(c[i]));
    SortedIsStable(vs, short, |vs|);
    var out, hs := Order(vs, short), BackendsFor(p, load, model, short);
    assert forall i :: 0 <= i < |out| ==> out[i] in out && hs[i] == c[out[i]];
    if h in c {
      var i :| 0 <= i < |c| && c[i] == h;
      assert i in out;
      var k :| 0 <= k < |out| && out[k] == i;
      assert hs[k] == h;
    }
    if h in hs {
      var k :| 0 <= k < |hs| && hs[k] == h;
      assert c[out[k]] == h;
    }
  }
}
