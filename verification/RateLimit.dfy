/** The fixed-window rate limiter. */
module RateLimit {
  import opened Strings
  import opened Options

  // ---- Rate specifications -----------------------------------------------------------

  function UnitSeconds(unit: string): (w: nat)
    ensures w > 0
  {
    if unit == "second" then 1 else if unit == "minute" then 60 else if unit == "hour" then 3600
    else if unit == "day" then 86400 else 60
  }

  function ParseRate(spec: string): (nat, nat) {
    var parts := SplitOn(spec, '/');
    RateOf(parts[0], if |parts| > 1 then parts[1] else "minute")
  }

  function RateOf(number: string, unit: string): (nat, nat) {
    var n := match ParseU32(Trim(number)) case Some(n) => n case None => 60;
    (n, UnitSeconds(Lower(DropTrailing(Trim(unit), 's'))))
  }

  lemma RateParts(number: string, unit: string)
    requires Free(number, '/') && Free(unit, '/')
    ensures ParseRate(number + ("/" + unit)) == RateOf(number, unit)
  {
    SplitFront(number, '/', unit);
    SplitFront(unit, '/', "");
  }

  predicate IsUnit(u: string) { u == "second" || u == "minute" || u == "hour" || u == "day" }

  /** No unit name ends in an s, so a plural is its only form that does. */
  lemma UnitEnds(u: string)
    requires IsUnit(u)
    ensures u != "" && !EndsIn(u, 's') && !IsUnit(u + "s")
  {
    assert (u + "s")[|u|] == 's';
  }

  lemma NotAUnit(u: string)
    requires !IsUnit(u)
    ensures UnitSeconds(u) == 60
  {
  }

  lemma OnlyMinuteIsDefault(u: string)
    requires IsUnit(u)
    ensures UnitSeconds(u) == 60 <==> u == "minute"
  {
  }

  predicate EndsIn(s: string, c: char) { s != "" && s[|s| - 1] == c }

  lemma LowerLast(t: string)
    requires t != ""
    ensures |Lower(t)| == |t| && Lower(t)[|t| - 1] == LowerChar(t[|t| - 1])
  {
    LowerAt(t);
  }

  /** A text that lower-cases to a name without a final s is left alone. */
  lemma Singular(t: string, u: string)
    requires u != "" && !EndsIn(u, 's') && Lower(t) == u
    ensures DropTrailing(t, 's') == t && t != "" && !EndsIn(t, 's') && !EndsIn(t, 'S')
  {
    LowerAt(t);
    LowerLast(t);
  }

  /** One that lower-cases to a plural loses a small s and keeps a capital one. */
  lemma Plural(t: string, u: string)
    requires u != "" && !EndsIn(u, 's') && Lower(t) == u + "s"
    ensures t != "" && (EndsIn(t, 's') || EndsIn(t, 'S'))
    ensures EndsIn(t, 's') ==> Lower(DropTrailing(t, 's')) == u
    ensures EndsIn(t, 'S') ==> DropTrailing(t, 's') == t
  {
    PluralStem(t, u);
    LowerLast(t);
    Singular(t[..|t| - 1], u);
  }

  lemma PluralStem(t: string, u: string)
    requires Lower(t) == u + "s"
    ensures t != "" && Lower(t[..|t| - 1]) == u
  {
    LowerAt(t);
    LowerPrefix(t, |t| - 1);
    assert (u + "s")[..|u|] == u;
  }

  /** The exact rule: a unit in any case, with blanks around it, singular or plural, gives its own
      window if and only if it does not end in a capital S, or is the minute that is the default. */
  lemma UnitRule(number: string, v: string, u: string)
    requires IsUnit(u) && (Lower(Trim(v)) == u || Lower(Trim(v)) == u + "s")
    ensures RateOf(number, v).1 == UnitSeconds(u) <==> !EndsIn(Trim(v), 'S') || u == "minute"
  {
    var t := Trim(v);
    UnitEnds(u);
    if Lower(t) == u {
      Singular(t, u);
    } else {
      Plural(t, u);
      NotAUnit(u + "s");
      OnlyMinuteIsDefault(u);
    }
  }

  /** A readable number and a unit mean what they say exactly under that rule. */
  lemma ParseRateExact(number: string, v: string, n: nat, u: string)
    requires Free(number, '/') && Free(v, '/') && ParseU32(Trim(number)) == Some(n)
    requires IsUnit(u) && (Lower(Trim(v)) == u || Lower(Trim(v)) == u + "s")
    ensures ParseRate(number + ("/" + v)) == (n, UnitSeconds(u)) <==> !EndsIn(Trim(v), 'S') || u == "minute"
  {
    RateParts(number, v);
    UnitRule(number, v, u);
  }

  /** A second is one second, and each unit so many of the one before. */
  lemma UnitLengths()
    ensures UnitSeconds("second") == 1 && UnitSeconds("minute") == 60 * UnitSeconds("second")
    ensures UnitSeconds("hour") == 60 * UnitSeconds("minute") && UnitSeconds("day") == 24 * UnitSeconds("hour")
  {
    assert "second"[0] == 's' && "minute"[0] == 'm' && "hour"[0] == 'h' && "day"[0] == 'd';
  }

  /** Whatever cannot be read is sixty a minute: the number by itself, and the unit if it is missing or
      unknown. */
  lemma ParseRateDefaults(number: string, unit: string)
    requires Free(number, '/') && Free(unit, '/')
    ensures ParseRate(number) == (if ParseU32(Trim(number)).Some? then ParseU32(Trim(number)).value else 60, 60)
    ensures ParseU32(Trim(number)).None? ==> ParseRate(number + ("/" + unit)).0 == 60
    ensures !IsUnit(Lower(DropTrailing(Trim(unit), 's'))) ==> ParseRate(number + ("/" + unit)).1 == 60
  {
    SplitFront(number, '/', "");
    RateParts(number, unit);
    MinuteIsPlain();
  }

  lemma MinuteIsPlain()
    ensures UnitSeconds(Lower(DropTrailing(Trim("minute"), 's'))) == 60
  {
    TrimIdle("minute");
    assert DropTrailing("minute", 's') == "minute";
    LowerAt("minute");
    assert Lower("minute") == "minute";
  }

  // ---- The limiter --------------------------------------------------------------------

  /** Limit and window length in seconds of each tier. */
  datatype Tiers = Tiers(anon: (nat, nat), authed: (nat, nat))

  predicate Sound(c: Tiers) { c.anon.1 > 0 && c.authed.1 > 0 }

  predicate Authed(key: string) { StartsWith(key, "id:") || StartsWith(key, "presented:") }

  function LimitOf(c: Tiers, key: string): nat { if Authed(key) then c.authed.0 else c.anon.0 }

  function WindowOf(c: Tiers, key: string): (w: nat)
    requires Sound(c)
    ensures w > 0
  {
    if Authed(key) then c.authed.1 else c.anon.1
  }

  /** Identified and presented callers get the authenticated tier, addresses the anonymous one. */
  lemma TierExact(c: Tiers, who: string)
    requires Sound(c)
    ensures LimitOf(c, "id:" + who) == c.authed.0 && WindowOf(c, "id:" + who) == c.authed.1
    ensures LimitOf(c, "presented:" + who) == c.authed.0 && WindowOf(c, "presented:" + who) == c.authed.1
    ensures LimitOf(c, "ip:" + who) == c.anon.0 && WindowOf(c, "ip:" + who) == c.anon.1
  {
    assert ("ip:" + who)[1] == 'p' && "id:"[1] == 'd' && ("ip:" + who)[0] == 'i' && "presented:"[0] == 'p';
  }

  type Buckets = map<string, (nat, nat)>

  datatype Decision = Decision(allowed: bool, retryAfter: nat, remaining: nat, reset: nat)

  datatype Call = Call(key: string, now: nat)

  function Window(c: Tiers, x: Call): nat
    requires Sound(c)
  {
    x.now / WindowOf(c, x.key)
  }

  /** How many calls of this key the window has seen, this one included. */
  function CountAfter(c: Tiers, b: Buckets, x: Call): nat
    requires Sound(c)
  {
    if x.key in b && b[x.key].0 == Window(c, x) then b[x.key].1 + 1 else 1
  }

  lemma ResetPositive(now: nat, w: nat)
    requires w > 0
    ensures (now / w + 1) * w - now >= 1
  {
    assert now == now / w * w + now % w;
    assert (now / w + 1) * w == now / w * w + w;
  }

  /** The decision of one call, from the count it brings its window to. */
  function Decide(c: Tiers, x: Call, count: nat): Decision
    requires Sound(c)
  {
    var w := WindowOf(c, x.key);
    ResetPositive(x.now, w);
    var reset := (x.now / w + 1) * w - x.now;
    var limit := LimitOf(c, x.key);
    Decision(count <= limit, if count <= limit then 0 else reset, if limit >= count then limit - count else 0, reset)
  }

  class RateLimiter {
    const tiers: Tiers
    var buckets: Buckets

    constructor (anonSpec: string, authedSpec: string)
      ensures Sound(tiers) && buckets == map[]
      ensures tiers == Tiers(ParseRate(anonSpec), ParseRate(authedSpec))
    {
      tiers := Tiers(ParseRate(anonSpec), ParseRate(authedSpec));
      buckets := map[];
    }

    method Check(x: Call) returns (d: Decision)
      requires Sound(tiers)
      modifies this`buckets
      ensures var count := CountAfter(tiers, old(buckets), x);
              buckets == old(buckets)[x.key := (Window(tiers, x), count)] && d == Decide(tiers, x, count)
    {
      var window := WindowOf(tiers, x.key);
      var windowId := x.now / window;
      if x.key !in buckets {
        buckets := buckets[x.key := (windowId, 0)];
      }
      if buckets[x.key].0 != windowId {
        buckets := buckets[x.key := (windowId, 0)];
      }
      buckets := buckets[x.key := (windowId, buckets[x.key].1 + 1)];
      d := Decide(tiers, x, buckets[x.key].1);
    }

    /** A fresh limiter over a whole trace. */
    method Serve(trace: seq<Call>) returns (passed: seq<bool>)
      requires Sound(tiers) && buckets == map[]
      modifies this`buckets
      ensures |passed| == |trace| && forall i :: 0 <= i < |trace| ==> passed[i] == Allowed(tiers, trace, i)
    {
      passed := [];
      for i := 0 to |trace|
        invariant |passed| == i && buckets == After(tiers, trace[..i])
        invariant forall j :: 0 <= j < i ==> passed[j] == Allowed(tiers, trace, j)
      {
        var d := Check(trace[i]);
        passed := passed + [d.allowed];
        assert trace[..i + 1][..i] == trace[..i];
      }
    }
  }

  // ---- Whole traces of calls --------------------------------------------------------------

  function After(c: Tiers, trace: seq<Call>): Buckets
    requires Sound(c)
  {
    if trace == [] then map[]
    else
      var x, b := trace[|trace| - 1], After(c, trace[..|trace| - 1]);
      b[x.key := (Window(c, x), CountAfter(c, b, x))]
  }

  /** Was the `i`-th call allowed? */
  predicate Allowed(c: Tiers, trace: seq<Call>, i: nat)
    requires Sound(c) && i < |trace|
  {
    Decide(c, trace[i], CountAfter(c, After(c, trace[..i]), trace[i])).allowed
  }

  /** The calls of a key in a window. */
  function Calls(c: Tiers, trace: seq<Call>, key: string, win: nat): nat
    requires Sound(c)
  {
    if trace == [] then 0
    else
      var x := trace[|trace| - 1];
      Calls(c, trace[..|trace| - 1], key, win) + (if x.key == key && Window(c, x) == win then 1 else 0)
  }

  /** Clock readings reach each bucket in nondecreasing order. */
  ghost predicate Ordered(trace: seq<Call>) {
    forall i, j :: 0 <= i < j < |trace| && trace[i].key == trace[j].key ==> trace[i].now <= trace[j].now
  }

  lemma WindowGrows(a: nat, b: nat, w: nat)
    requires a <= b && w > 0
    ensures a / w <= b / w
  {
    var p, q := a / w, b / w;
    assert b == q * w + b % w && a == p * w + a % w && (q + 1) * w == q * w + w;
    Product(p, q + 1, w);
  }

  lemma Product(p: nat, q: nat, w: nat)
    ensures p >= q ==> p * w >= q * w
  {
  }

  /** No call of the key lies in a window none of its calls reaches. */
  lemma {:induction false} NoCallsAbove(c: Tiers, trace: seq<Call>, key: string, win: nat)
    requires Sound(c)
    ensures (forall i :: 0 <= i < |trace| && trace[i].key == key ==> Window(c, trace[i]) != win) ==>
              Calls(c, trace, key, win) == 0
    decreases |trace|
  {
    if trace != [] {
      var pre := trace[..|trace| - 1];
      assert forall i :: 0 <= i < |pre| ==> pre[i] == trace[i];
      NoCallsAbove(c, pre, key, win);
    }
  }

  // ---- When the counts are exact --------------------------------------------------------------

  /** The key never leaves a window and enters it again. */
  ghost predicate Contiguous(c: Tiers, trace: seq<Call>, key: string)
    requires Sound(c)
  {
    forall i, j, k :: 0 <= i < j < k < |trace| && trace[k].key == key ==> !Returns(c, trace[i], trace[j], trace[k])
  }

  /** Three calls of one key of which the first and last share a window that the middle is not in. */
  predicate Returns(c: Tiers, x: Call, y: Call, z: Call)
    requires Sound(c)
  {
    x.key == y.key == z.key && Window(c, x) == Window(c, z) != Window(c, y)
  }

  /** The `i`-th call is counted as the number of calls its window has seen. */
  predicate Exact(c: Tiers, trace: seq<Call>, i: nat)
    requires Sound(c) && i < |trace|
  {
    CountAfter(c, After(c, trace[..i]), trace[i]) == Calls(c, trace[..i + 1], trace[i].key, Window(c, trace[i]))
  }

  /** The position of the last call of a key, if it has one. */
  ghost predicate LastCall(trace: seq<Call>, key: string, m: nat) {
    m < |trace| && trace[m].key == key && forall j :: m < j < |trace| ==> trace[j].key != key
  }

  /** A bucket names the window of its key's last call, whatever the clock does. */
  lemma {:induction false} BucketWindow(c: Tiers, trace: seq<Call>, key: string) returns (m: nat)
    requires Sound(c)
    ensures var b := After(c, trace);
            if key in b then LastCall(trace, key, m) && b[key].0 == Window(c, trace[m])
            else forall j :: 0 <= j < |trace| ==> trace[j].key != key
    decreases |trace|
  {
    m := 0;
    if trace != [] {
      var n := |trace| - 1;
      m := BucketWindow(c, trace[..n], key);
      assert forall j :: 0 <= j < n ==> trace[..n][j] == trace[j];
      if trace[n].key == key { m := n; }
    }
  }

  lemma ContiguousPrefix(c: Tiers, trace: seq<Call>, key: string, n: nat)
    requires Sound(c) && Contiguous(c, trace, key) && n <= |trace|
    ensures Contiguous(c, trace[..n], key)
  {
    assert forall i :: 0 <= i < n ==> trace[..n][i] == trace[i];
  }

  /** The bucket of a contiguous key holds the number of calls in its window. */
  lemma {:induction false} BucketCounts(c: Tiers, trace: seq<Call>, key: string)
    requires Sound(c) && Contiguous(c, trace, key)
    ensures key in After(c, trace) ==>
              After(c, trace)[key].1 == Calls(c, trace, key, After(c, trace)[key].0)
    decreases |trace|
  {
    if trace != [] {
      var n := |trace| - 1;
      ContiguousPrefix(c, trace, key, n);
      BucketCounts(c, trace[..n], key);
      if trace[n].key == key { EnteredOnce(c, trace); }
    }
  }

  /** A contiguous key enters a new window only if it has not been there. */
  lemma EnteredOnce(c: Tiers, trace: seq<Call>)
    requires Sound(c) && trace != [] && Contiguous(c, trace, trace[|trace| - 1].key)
    ensures var n := |trace| - 1;
            var b, x := After(c, trace[..n]), trace[n];
            (x.key in b && b[x.key].0 == Window(c, x)) || Calls(c, trace[..n], x.key, Window(c, x)) == 0
  {
    var n := |trace| - 1;
    var b, x := After(c, trace[..n]), trace[n];
    var m := BucketWindow(c, trace[..n], x.key);
    assert forall i :: 0 <= i < n ==> trace[..n][i] == trace[i];
    NoCallsAbove(c, trace[..n], x.key, Window(c, x));
    if x.key in b && b[x.key].0 != Window(c, x) {
      forall i | 0 <= i < n && trace[..n][i].key == x.key ensures Window(c, trace[..n][i]) != Window(c, x) {
        assert i < m ==> !Returns(c, trace[i], trace[m], trace[n]);
      }
    }
  }

  lemma CountExact(c: Tiers, trace: seq<Call>, i: nat)
    requires Sound(c) && i < |trace| && Contiguous(c, trace, trace[i].key)
    ensures Exact(c, trace, i)
  {
    var t := trace[..i + 1];
    ContiguousPrefix(c, trace, trace[i].key, i + 1);
    ContiguousPrefix(c, trace, trace[i].key, i);
    assert t[..i] == trace[..i] && t[i] == trace[i];
    BucketCounts(c, trace[..i], trace[i].key);
    EnteredOnce(c, t);
  }

  /** A call that stands in a window is counted there. */
  lemma {:induction false} CallsAtLeast(c: Tiers, trace: seq<Call>, i: nat)
    requires Sound(c) && i < |trace|
    ensures Calls(c, trace, trace[i].key, Window(c, trace[i])) >= 1
    decreases |trace|
  {
    var n := |trace| - 1;
    if i < n {
      assert trace[..n][i] == trace[i];
      CallsAtLeast(c, trace[..n], i);
    }
  }

  /** A call that is counted as the first of its window although it is not. */
  predicate Restarts(c: Tiers, trace: seq<Call>, i: nat)
    requires Sound(c) && i < |trace|
  {
    CountAfter(c, After(c, trace[..i]), trace[i]) == 1 < Calls(c, trace[..i + 1], trace[i].key, Window(c, trace[i]))
  }

  /** The first call back into a window that was left is counted as its first. */
  lemma ReturnMiscounts(c: Tiers, trace: seq<Call>, i: nat, j: nat)
    requires Sound(c) && i < j < |trace| - 1 && Returns(c, trace[i], trace[j], trace[|trace| - 1])
    requires Contiguous(c, trace[..|trace| - 1], trace[|trace| - 1].key)
    ensures Restarts(c, trace, |trace| - 1)
  {
    var n := |trace| - 1;
    var pre, x := trace[..n], trace[n];
    assert trace[..n + 1] == trace;
    assert forall k :: 0 <= k < n ==> pre[k] == trace[k];
    CallsAtLeast(c, pre, i);
    var m := BucketWindow(c, pre, x.key);
    assert pre[i].key == x.key;
    assert j < m ==> !Returns(c, pre[i], pre[j], pre[m]);
  }

  lemma LastReturns(c: Tiers, trace: seq<Call>, key: string)
    requires Sound(c) && !Contiguous(c, trace, key) && trace != [] && Contiguous(c, trace[..|trace| - 1], key)
    ensures trace[|trace| - 1].key == key && Restarts(c, trace, |trace| - 1)
  {
    var n := |trace| - 1;
    var x, y, z :| 0 <= x < y < z < |trace| && trace[z].key == key && Returns(c, trace[x], trace[y], trace[z]);
    OnlyAtTheEnd(c, trace, key, x, y, z);
    ReturnMiscounts(c, trace, x, y);
  }

  lemma OnlyAtTheEnd(c: Tiers, trace: seq<Call>, key: string, x: nat, y: nat, z: nat)
    requires Sound(c) && trace != [] && Contiguous(c, trace[..|trace| - 1], key)
    requires x < y < z < |trace| && trace[z].key == key && Returns(c, trace[x], trace[y], trace[z])
    ensures z == |trace| - 1
  {
    var pre := trace[..|trace| - 1];
    assert forall k :: 0 <= k < |pre| ==> pre[k] == trace[k];
  }

  lemma SamePrefix(trace: seq<Call>, n: nat, i: nat)
    requires i < n <= |trace|
    ensures trace[..n][..i] == trace[..i] && trace[..n][..i + 1] == trace[..i + 1] && trace[..n][i] == trace[i]
  {
  }

  lemma {:induction false} SomeRestart(c: Tiers, trace: seq<Call>, key: string) returns (i: nat)
    requires Sound(c) && !Contiguous(c, trace, key)
    ensures i < |trace| && trace[i].key == key && Restarts(c, trace, i)
    decreases |trace|
  {
    var n := |trace| - 1;
    if Contiguous(c, trace[..n], key) {
      LastReturns(c, trace, key);
      i := n;
    } else {
      i := SomeRestart(c, trace[..n], key);
      SamePrefix(trace, n, i);
    }
  }

  /** Every call of a key is counted exactly if and only if the key never leaves a window and enters
      it again. */
  lemma CountsExactly(c: Tiers, trace: seq<Call>, key: string)
    requires Sound(c)
    ensures (forall i :: 0 <= i < |trace| && trace[i].key == key ==> Exact(c, trace, i)) <==> Contiguous(c, trace, key)
  {
    if Contiguous(c, trace, key) {
      forall i | 0 <= i < |trace| && trace[i].key == key ensures Exact(c, trace, i) { CountExact(c, trace, i); }
    } else {
      var i := SomeRestart(c, trace, key);
    }
  }

  /** A clock that never steps back for any key is contiguous; the converse does not hold. */
  lemma OrderedIsContiguous(c: Tiers, trace: seq<Call>, key: string)
    requires Sound(c) && Ordered(trace)
    ensures Contiguous(c, trace, key)
  {
    forall i, j, k | 0 <= i < j < k < |trace| && trace[k].key == key
      ensures !Returns(c, trace[i], trace[j], trace[k])
    {
      if trace[i].key == trace[j].key == trace[k].key {
        WindowGrows(trace[i].now, trace[j].now, WindowOf(c, trace[i].key));
        WindowGrows(trace[j].now, trace[k].now, WindowOf(c, trace[i].key));
      }
    }
  }

  /** The call is allowed exactly if it is among the first `limit` of its window, and is told how
      many are left. */
  predicate Right(c: Tiers, trace: seq<Call>, i: nat)
    requires Sound(c) && i < |trace|
  {
    var limit, calls := LimitOf(c, trace[i].key), Calls(c, trace[..i + 1], trace[i].key, Window(c, trace[i]));
    var d := Decide(c, trace[i], CountAfter(c, After(c, trace[..i]), trace[i]));
    (d.allowed <==> calls <= limit) && d.remaining == (if calls <= limit then limit - calls else 0)
  }

  /** Every call of a key gets the right verdict and remainder if and only if the key's limit is zero
      or the key never leaves a window and enters it again. */
  lemma FirstCallsAllowed(c: Tiers, trace: seq<Call>, key: string)
    requires Sound(c)
    ensures (forall i :: 0 <= i < |trace| && trace[i].key == key ==> Right(c, trace, i)) <==>
            LimitOf(c, key) == 0 || Contiguous(c, trace, key)
  {
    if LimitOf(c, key) == 0 {
      forall i | 0 <= i < |trace| && trace[i].key == key ensures Right(c, trace, i) {
        assert trace[..i + 1][i] == trace[i];
        CallsAtLeast(c, trace[..i + 1], i);
      }
    } else if Contiguous(c, trace, key) {
      forall i | 0 <= i < |trace| && trace[i].key == key ensures Right(c, trace, i) { CountExact(c, trace, i); }
    } else {
      var i := SomeRestart(c, trace, key);
      assert !Right(c, trace, i);
    }
  }

  /** The allowed calls of a key with a clock reading in `[from, until)`. */
  function AllowedIn(c: Tiers, trace: seq<Call>, key: string, from: nat, until: nat): nat
    requires Sound(c)
  {
    if trace == [] then 0
    else
      var n := |trace| - 1;
      var x := trace[n];
      AllowedIn(c, trace[..n], key, from, until)
      + (if x.key == key && from <= x.now < until && Allowed(c, trace, n) then 1 else 0)
  }

  lemma InWindow(now: nat, w: nat, win: nat)
    requires w > 0
    ensures win * w <= now < (win + 1) * w <==> now / w == win
  {
    var q := now / w;
    assert now == q * w + now % w && (q + 1) * w == q * w + w && (win + 1) * w == win * w + w;
    Product(win, q + 1, w);
    Product(q, win + 1, w);
  }

  /** One aligned window admits at most the limit. */
  lemma {:induction false} OneWindow(c: Tiers, trace: seq<Call>, key: string, win: nat)
    requires Sound(c) && Contiguous(c, trace, key)
    ensures var w := WindowOf(c, key);
            && AllowedIn(c, trace, key, win * w, (win + 1) * w) <= LimitOf(c, key)
            && AllowedIn(c, trace, key, win * w, (win + 1) * w) <= Calls(c, trace, key, win)
    decreases |trace|
  {
    if trace != [] {
      var n := |trace| - 1;
      ContiguousPrefix(c, trace, key, n);
      OneWindow(c, trace[..n], key, win);
      InWindow(trace[n].now, WindowOf(c, key), win);
      if trace[n].key == key { CountExact(c, trace, n); }
      assert trace[..n + 1] == trace;
    }
  }

  /** Splitting an interval. */
  lemma {:induction false} Cover(c: Tiers, trace: seq<Call>, key: string, a: nat, m: nat, b: nat, lo: nat, hi: nat)
    requires Sound(c) && lo <= a && b <= hi
    ensures AllowedIn(c, trace, key, a, b) <= AllowedIn(c, trace, key, lo, m) + AllowedIn(c, trace, key, m, hi)
    decreases |trace|
  {
    if trace != [] { Cover(c, trace[..|trace| - 1], key, a, m, b, lo, hi); }
  }

  /** Any interval of one window length, aligned or not, admits at most twice the limit. */
  lemma SlidingBound(c: Tiers, trace: seq<Call>, key: string, from: nat)
    requires Sound(c) && Contiguous(c, trace, key)
    ensures AllowedIn(c, trace, key, from, from + WindowOf(c, key)) <= 2 * LimitOf(c, key)
  {
    var w := WindowOf(c, key);
    var q := from / w;
    InWindow(from, w, q);
    OneWindow(c, trace, key, q);
    OneWindow(c, trace, key, q + 1);
    assert (q + 1) * w == q * w + w && (q + 1 + 1) * w == (q + 1) * w + w;
    Cover(c, trace, key, from, (q + 1) * w, from + w, q * w, (q + 1 + 1) * w);
  }

  /** Waiting as told lands on the first second of the next window, and not before. */
  lemma RetryLandsInNextWindow(c: Tiers, x: Call, count: nat, wait: nat)
    requires Sound(c)
    ensures var d, w := Decide(c, x, count), WindowOf(c, x.key);
            && 1 <= d.reset <= w && (x.now + d.reset) / w == x.now / w + 1
            && (wait < d.reset ==> (x.now + wait) / w == x.now / w)
            && d.retryAfter == (if d.allowed then 0 else d.reset)
  {
    NextWindow(x.now, WindowOf(c, x.key), wait);
  }

  lemma NextWindow(now: nat, w: nat, wait: nat)
    requires w > 0
    ensures var reset := (now / w + 1) * w - now;
            && 1 <= reset <= w && (now + reset) / w == now / w + 1
            && (wait < reset ==> (now + wait) / w == now / w)
  {
    var q := now / w;
    ResetPositive(now, w);
    InWindow(now, w, q);
    assert (q + 1) * w == q * w + w && (q + 1 + 1) * w == (q + 1) * w + w;
    InWindow((q + 1) * w, w, q + 1);
    InWindow(now + wait, w, q);
  }

  // ---- Bursts -----------------------------------------------------------------------------------

  function Repeat(x: Call, n: nat): seq<Call> { seq(n, _ => x) }

  /** The bucket of a call's key stands in another window, or is not there. */
  predicate Elsewhere(c: Tiers, b: Buckets, x: Call)
    requires Sound(c)
  {
    x.key in b ==> b[x.key].0 != Window(c, x)
  }

  /** A burst into a window the bucket is not in passes up to the limit, whatever came before. */
  lemma {:induction false} Burst(c: Tiers, trace: seq<Call>, x: Call, n: nat, from: nat, until: nat)
    requires Sound(c) && from <= x.now < until && Elsewhere(c, After(c, trace), x) && n <= LimitOf(c, x.key)
    ensures AllowedIn(c, trace + Repeat(x, n), x.key, from, until) == AllowedIn(c, trace, x.key, from, until) + n
    ensures n > 0 ==> x.key in After(c, trace + Repeat(x, n))
                      && After(c, trace + Repeat(x, n))[x.key] == (Window(c, x), n)
    decreases n
  {
    if n == 0 {
      assert trace + Repeat(x, 0) == trace;
    } else {
      Burst(c, trace, x, n - 1, from, until);
      RepeatSnoc(trace, x, n);
      OneCall(c, trace + Repeat(x, n - 1), x, from, until);
    }
  }

  lemma RepeatSnoc(trace: seq<Call>, x: Call, n: nat)
    requires n > 0
    ensures trace + Repeat(x, n) == (trace + Repeat(x, n - 1)) + [x] && trace + Repeat(x, 0) == trace
  {
  }

  /** What one more call does to the buckets and to the count of allowed calls. */
  lemma OneCall(c: Tiers, t: seq<Call>, x: Call, from: nat, until: nat)
    requires Sound(c)
    ensures var n := CountAfter(c, After(c, t), x);
            && After(c, t + [x]) == After(c, t)[x.key := (Window(c, x), n)]
            && AllowedIn(c, t + [x], x.key, from, until) ==
               AllowedIn(c, t, x.key, from, until) + (if from <= x.now < until && n <= LimitOf(c, x.key) then 1 else 0)
  {
    var u := t + [x];
    assert u[..|t|] == t && u[|t|] == x;
  }

  /** Twice the limit is reached: a burst in the last second of a window and one in the first
      second of the next. */
  lemma TwiceTheLimit(c: Tiers, key: string)
    requires Sound(c) && WindowOf(c, key) >= 2
    ensures var w, n := WindowOf(c, key), LimitOf(c, key);
            var trace := Repeat(Call(key, w - 1), n) + Repeat(Call(key, w), n);
            Ordered(trace) && AllowedIn(c, trace, key, w - 1, w - 1 + w) == 2 * n
  {
    var w, n := WindowOf(c, key), LimitOf(c, key);
    EdgeWindows(c, key);
    RepeatOrdered(key, w - 1, w, n);
    TwoBursts(c, Call(key, w - 1), Call(key, w), n, w - 1, w - 1 + w);
  }

  lemma RepeatOrdered(key: string, a: nat, b: nat, n: nat)
    requires a <= b
    ensures Ordered(Repeat(Call(key, a), n) + Repeat(Call(key, b), n))
  {
  }

  lemma Edge(w: nat)
    requires w > 0
    ensures (w - 1) / w == 0 && w / w == 1
  {
    InWindow(w - 1, w, 0);
    InWindow(w, w, 1);
  }

  lemma EdgeWindows(c: Tiers, key: string)
    requires Sound(c)
    ensures var w := WindowOf(c, key); Window(c, Call(key, w - 1)) == 0 && Window(c, Call(key, w)) == 1
  {
    Edge(WindowOf(c, key));
  }

  lemma TwoBursts(c: Tiers, a: Call, b: Call, n: nat, from: nat, until: nat)
    requires Sound(c) && a.key == b.key && from <= a.now <= b.now < until && Window(c, a) != Window(c, b)
    requires n <= LimitOf(c, a.key)
    ensures AllowedIn(c, Repeat(a, n) + Repeat(b, n), a.key, from, until) == 2 * n
  {
    assert [] + Repeat(a, n) == Repeat(a, n);
    Burst(c, [], a, n, from, until);
    assert n == 0 ==> Repeat(a, n) == [];
    SecondBurst(c, Repeat(a, n), a, b, n, from, until);
  }

  lemma SecondBurst(c: Tiers, t: seq<Call>, a: Call, b: Call, n: nat, from: nat, until: nat)
    requires Sound(c) && a.key == b.key && from <= b.now < until && Window(c, a) != Window(c, b)
    requires n <= LimitOf(c, a.key) && AllowedIn(c, t, a.key, from, until) == n
    requires n > 0 ==> a.key in After(c, t) && After(c, t)[a.key] == (Window(c, a), n)
    requires n == 0 ==> t == []
    ensures AllowedIn(c, t + Repeat(b, n), a.key, from, until) == 2 * n
  {
    Burst(c, t, b, n, from, until);
  }

  // ---- A clock that steps back --------------------------------------------------------------------

  /** Rounds of a burst of `a` and one call of `b`. */
  function Rounds(a: Call, b: Call, n: nat, rounds: nat): seq<Call> {
    if rounds == 0 then [] else Rounds(a, b, n, rounds - 1) + Repeat(a, n) + [b]
  }

  /** `total` calls of the window have passed and the bucket stands elsewhere. */
  ghost predicate Passed(c: Tiers, t: seq<Call>, a: Call, from: nat, until: nat, total: nat)
    requires Sound(c)
  {
    AllowedIn(c, t, a.key, from, until) == total && Elsewhere(c, After(c, t), a)
  }

  /** One round passes the limit in the window of `a` and leaves the bucket elsewhere. */
  lemma OneRound(c: Tiers, t: seq<Call>, a: Call, b: Call, n: nat, from: nat, until: nat, total: nat)
    requires Sound(c) && a.key == b.key && Window(c, a) != Window(c, b) && n <= LimitOf(c, a.key)
    requires from <= a.now < until && !(from <= b.now < until) && Passed(c, t, a, from, until, total)
    ensures Passed(c, t + Repeat(a, n) + [b], a, from, until, total + n)
  {
    Burst(c, t, a, n, from, until);
    OneCall(c, t + Repeat(a, n), b, from, until);
  }

  lemma OneMore(r: nat, n: nat)
    ensures (r + 1) * n == r * n + n
  {
  }

  lemma {:induction false} RoundsPass(c: Tiers, a: Call, b: Call, n: nat, rounds: nat, from: nat, until: nat)
    requires Sound(c) && a.key == b.key && Window(c, a) != Window(c, b) && n <= LimitOf(c, a.key)
    requires from <= a.now < until && !(from <= b.now < until)
    ensures Passed(c, Rounds(a, b, n, rounds), a, from, until, rounds * n)
    decreases rounds
  {
    if rounds > 0 {
      RoundsPass(c, a, b, n, rounds - 1, from, until);
      NextRound(c, a, b, n, rounds - 1, from, until, (rounds - 1) * n);
      OneMore(rounds - 1, n);
    }
  }

  lemma NextRound(c: Tiers, a: Call, b: Call, n: nat, r: nat, from: nat, until: nat, total: nat)
    requires Sound(c) && a.key == b.key && Window(c, a) != Window(c, b) && n <= LimitOf(c, a.key)
    requires from <= a.now < until && !(from <= b.now < until) && Passed(c, Rounds(a, b, n, r), a, from, until, total)
    ensures Passed(c, Rounds(a, b, n, r + 1), a, from, until, total + n)
  {
    OneRound(c, Rounds(a, b, n, r), a, b, n, from, until, total);
  }

  /** A clock that keeps stepping back into one window of a key, for any limit and any two calls of
      different windows, lets the limit pass in that window in every round: without bound. */
  lemma BackwardClockReopens(c: Tiers, a: Call, b: Call, rounds: nat)
    requires Sound(c) && a.key == b.key && Window(c, a) != Window(c, b)
    ensures var w, n, win := WindowOf(c, a.key), LimitOf(c, a.key), Window(c, a);
            AllowedIn(c, Rounds(a, b, n, rounds), a.key, win * w, (win + 1) * w) == rounds * n
  {
    var w, n, win := WindowOf(c, a.key), LimitOf(c, a.key), Window(c, a);
    InWindow(a.now, w, win);
    InWindow(b.now, w, win);
    RoundsPass(c, a, b, n, rounds, win * w, (win + 1) * w);
  }
}
