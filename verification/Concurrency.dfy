/** The concurrency limiter: separate atomic steps of any number of threads on shared counters. */
module Concurrency {
  import opened Strings

  datatype Limits = Limits(perKey: nat, perIp: nat)

  /** Where a thread stands in acquiring and releasing its pair of slots. `prev` is what its
      `fetch_add` returned. */
  datatype Thread =
    | Idle
    | KeyAdded(key: string, ip: string, prev: int)
    | HasKey(key: string, ip: string)
    | IpAdded(key: string, ip: string, prev: int)
    | Refused(key: string, ip: string)     // the address was over its limit; the key guard drops next
    | Held(key: string, ip: string)
    | HasIp(ip: string)                    // the pair is being dropped

  /** One counter map serves keys and addresses. */
  datatype State = State(counters: map<string, int>, threads: seq<Thread>)

  function Count(s: State, b: string): int { if b in s.counters then s.counters[b] else 0 }

  datatype Step =
    | AddKey(t: nat, key: string, ip: string)
    | ResolveKey(t: nat)
    | AddIp(t: nat)
    | ResolveIp(t: nat)
    | DropKey(t: nat)
    | DropIp(t: nat)

  /** One atomic operation: what is added to which counter, and the thread's next position. */
  datatype Effect = Effect(b: string, d: int, x: Thread)

  /** A thread's next operation when `key` and `ip` counters read as given; a step that does not
      apply changes nothing. */
  function Next(l: Limits, s: State, me: Thread, e: Step): Effect {
    if e.AddKey? && me.Idle? then Effect(e.key, 1, KeyAdded(e.key, e.ip, Count(s, e.key)))
    else if e.ResolveKey? && me.KeyAdded? then
      if me.prev >= l.perKey then Effect(me.key, -1, Idle) else Effect(me.key, 0, HasKey(me.key, me.ip))
    else if e.AddIp? && me.HasKey? then Effect(me.ip, 1, IpAdded(me.key, me.ip, Count(s, me.ip)))
    else if e.ResolveIp? && me.IpAdded? then
      if me.prev >= l.perIp then Effect(me.ip, -1, Refused(me.key, me.ip)) else Effect(me.ip, 0, Held(me.key, me.ip))
    else if e.DropKey? && me.Refused? then Effect(me.key, -1, Idle)
    else if e.DropKey? && me.Held? then Effect(me.key, -1, HasIp(me.ip))
    else if e.DropIp? && me.HasIp? then Effect(me.ip, -1, Idle)
    else Effect("", 0, me)
  }

  function Apply(l: Limits, s: State, e: Step): State {
    if e.t >= |s.threads| then s
    else
      var f := Next(l, s, s.threads[e.t], e);
      State(s.counters[f.b := Count(s, f.b) + f.d], s.threads[e.t := f.x])
  }

  function Initial(n: nat): State { State(map[], seq(n, _ => Idle)) }

  function Run(l: Limits, s: State, es: seq<Step>): State
    decreases |es|
  {
    if es == [] then s else Run(l, Apply(l, s, es[0]), es[1..])
  }

  // ---- What threads contribute ------------------------------------------------------------

  /** The guards a thread holds on a bucket. */
  function Guards(x: Thread, b: string): nat {
    (if (x.HasKey? || x.IpAdded? || x.Refused? || x.Held?) && x.key == b then 1 else 0)
    + (if (x.Held? || x.HasIp?) && x.ip == b then 1 else 0)
  }

  /** Its add that is not yet a guard nor undone. */
  function Pending(x: Thread, b: string): nat {
    (if x.KeyAdded? && x.key == b then 1 else 0) + (if x.IpAdded? && x.ip == b then 1 else 0)
  }

  /** Such an add that will become a guard. */
  function Winning(l: Limits, x: Thread, b: string): nat {
    (if x.KeyAdded? && x.key == b && x.prev < l.perKey then 1 else 0)
    + (if x.IpAdded? && x.ip == b && x.prev < l.perIp then 1 else 0)
  }

  function Weight(l: Limits, x: Thread, b: string, kind: Kind): nat {
    match kind
    case OfGuards => Guards(x, b)
    case OfPending => Pending(x, b)
    case OfWinning => Winning(l, x, b)
  }

  datatype Kind = OfGuards | OfPending | OfWinning

  function Total(l: Limits, ts: seq<Thread>, b: string, kind: Kind): nat {
    if ts == [] then 0 else Weight(l, ts[0], b, kind) + Total(l, ts[1..], b, kind)
  }

  /** The guards alive on a bucket. */
  function LiveGuards(l: Limits, s: State, b: string): nat { Total(l, s.threads, b, OfGuards) }

  function InBetween(l: Limits, s: State, b: string): nat { Total(l, s.threads, b, OfPending) }

  lemma {:induction false} TotalUpdate(l: Limits, ts: seq<Thread>, t: nat, x: Thread, b: string, kind: Kind)
    requires t < |ts|
    ensures Total(l, ts[t := x], b, kind) == Total(l, ts, b, kind) - Weight(l, ts[t], b, kind) + Weight(l, x, b, kind)
  {
    if t == 0 {
      assert ts[0 := x][1..] == ts[1..];
    } else {
      assert ts[t := x][1..] == ts[1..][t - 1 := x] && ts[t := x][0] == ts[0];
      TotalUpdate(l, ts[1..], t - 1, x, b, kind);
    }
  }

  lemma {:induction false} WinningPending(l: Limits, ts: seq<Thread>, b: string)
    ensures Total(l, ts, b, OfWinning) <= Total(l, ts, b, OfPending)
  {
    if ts != [] { WinningPending(l, ts[1..], b); }
  }

  // ---- The invariant ---------------------------------------------------------------------------

  /** The limits that apply to a bucket, which may be used as a key and as an address. */
  ghost predicate Caps(l: Limits, cap: string -> nat, e: Step) {
    e.AddKey? ==> l.perKey <= cap(e.key) && l.perIp <= cap(e.ip)
  }

  predicate CapsThread(l: Limits, cap: string -> nat, x: Thread) {
    && (x.KeyAdded? || x.HasKey? ==> l.perIp <= cap(x.ip))
  }

  ghost predicate Counted(l: Limits, s: State, b: string) {
    Count(s, b) == LiveGuards(l, s, b) + InBetween(l, s, b)
  }

  ghost predicate Capped(l: Limits, s: State, cap: string -> nat, b: string) {
    LiveGuards(l, s, b) + Total(l, s.threads, b, OfWinning) <= cap(b)
  }

  ghost predicate Inv(l: Limits, cap: string -> nat, s: State) {
    && (forall b :: Counted(l, s, b) && Capped(l, s, cap, b))
    && (forall t :: 0 <= t < |s.threads| ==> CapsThread(l, cap, s.threads[t]))
  }

  /** A thread's contribution changes by what it adds to the counter. */
  lemma OwnContribution(l: Limits, s: State, me: Thread, e: Step, b: string)
    ensures var f := Next(l, s, me, e);
            Guards(f.x, b) + Pending(f.x, b) == Guards(me, b) + Pending(me, b) + (if f.b == b then f.d else 0)
  {
  }

  /** A thread gains a sure guard only by an add that saw a count below the bucket's cap. */
  lemma OwnGain(l: Limits, cap: string -> nat, s: State, me: Thread, e: Step, b: string)
    requires CapsThread(l, cap, me) && Caps(l, cap, e)
    ensures var f := Next(l, s, me, e);
            && CapsThread(l, cap, f.x)
            && var g := Guards(f.x, b) + Winning(l, f.x, b) - Guards(me, b) - Winning(l, me, b);
               g <= 0 || (g == 1 && Count(s, b) < cap(b))
  {
  }

  lemma StepOnBucket(l: Limits, cap: string -> nat, s: State, e: Step, b: string)
    requires Inv(l, cap, s) && Caps(l, cap, e)
    ensures Counted(l, Apply(l, s, e), b) && Capped(l, Apply(l, s, e), cap, b)
  {
    assert Counted(l, s, b) && Capped(l, s, cap, b);
    if e.t < |s.threads| {
      var me := s.threads[e.t];
      var x := Next(l, s, me, e).x;
      TotalUpdate(l, s.threads, e.t, x, b, OfGuards);
      TotalUpdate(l, s.threads, e.t, x, b, OfPending);
      TotalUpdate(l, s.threads, e.t, x, b, OfWinning);
      WinningPending(l, s.threads, b);
      assert CapsThread(l, cap, me);
      OwnContribution(l, s, me, e, b);
      OwnGain(l, cap, s, me, e, b);
    }
  }

  lemma StepKeeps(l: Limits, cap: string -> nat, s: State, e: Step)
    requires Inv(l, cap, s) && Caps(l, cap, e)
    ensures Inv(l, cap, Apply(l, s, e))
  {
    forall b ensures Counted(l, Apply(l, s, e), b) && Capped(l, Apply(l, s, e), cap, b) {
      StepOnBucket(l, cap, s, e, b);
    }
    if e.t < |s.threads| {
      assert CapsThread(l, cap, s.threads[e.t]);
      OwnGain(l, cap, s, s.threads[e.t], e, "");
    }
  }

  lemma {:induction false} RunKeeps(l: Limits, cap: string -> nat, s: State, es: seq<Step>)
    requires Inv(l, cap, s) && forall e :: e in es ==> Caps(l, cap, e)
    ensures Inv(l, cap, Run(l, s, es))
    decreases |es|
  {
    if es != [] {
      assert Caps(l, cap, es[0]) && forall e :: e in es[1..] ==> e in es;
      StepKeeps(l, cap, s, es[0]);
      RunKeeps(l, cap, Apply(l, s, es[0]), es[1..]);
    }
  }

  lemma {:induction false} AllIdle(l: Limits, ts: seq<Thread>, b: string, kind: Kind)
    requires forall x :: x in ts ==> x.Idle?
    ensures Total(l, ts, b, kind) == 0
  {
    if ts != [] {
      assert ts[0] in ts && forall x :: x in ts[1..] ==> x in ts;
      AllIdle(l, ts[1..], b, kind);
    }
  }

  lemma InitialGood(l: Limits, cap: string -> nat, n: nat)
    ensures Inv(l, cap, Initial(n))
  {
    var s := Initial(n);
    forall b ensures Counted(l, s, b) && Capped(l, s, cap, b) {
      AllIdle(l, s.threads, b, OfGuards);
      AllIdle(l, s.threads, b, OfPending);
      AllIdle(l, s.threads, b, OfWinning);
    }
  }

  // ---- Every interleaving ---------------------------------------------------------------------

  /** Every counter is the live guards plus the adds not yet resolved, and the live guards never
      exceed the limit of the bucket (the larger one, if it serves as key and as address). */
  lemma Safety(l: Limits, cap: string -> nat, n: nat, es: seq<Step>, b: string)
    requires forall e :: e in es ==> Caps(l, cap, e)
    ensures var s := Run(l, Initial(n), es);
            && Count(s, b) == LiveGuards(l, s, b) + InBetween(l, s, b)
            && LiveGuards(l, s, b) <= cap(b)
  {
    InitialGood(l, cap, n);
    RunKeeps(l, cap, Initial(n), es);
    assert Counted(l, Run(l, Initial(n), es), b) && Capped(l, Run(l, Initial(n), es), cap, b);
  }

  /** A thread that is idle, whether it was refused or has released its pair, contributes nothing:
      once all are, every counter is zero. */
  lemma NothingLeaks(l: Limits, n: nat, es: seq<Step>, b: string)
    requires forall x :: x in Run(l, Initial(n), es).threads ==> x.Idle?
    ensures Count(Run(l, Initial(n), es), b) == 0
  {
    var s := Run(l, Initial(n), es);
    var cap := (k: string) => l.perKey + l.perIp;
    forall e | e in es ensures Caps(l, cap, e) {}
    Safety(l, cap, n, es, b);
    AllIdle(l, s.threads, b, OfGuards);
    AllIdle(l, s.threads, b, OfPending);
  }

  lemma {:induction false} RunAppend(l: Limits, s: State, a: seq<Step>, b: seq<Step>)
    ensures Run(l, s, a + b) == Run(l, Run(l, s, a), b)
    decreases |a|
  {
    if a == [] {
      assert a + b == b;
    } else {
      HeadTail(a, b);
      RunAppend(l, Apply(l, s, a[0]), a[1..], b);
    }
  }

  /** The invariant holds in every reachable state. */
  lemma Reachable(l: Limits, n: nat, es: seq<Step>, b: string)
    ensures Counted(l, Run(l, Initial(n), es), b)
  {
    var cap := (k: string) => l.perKey + l.perIp;
    forall e | e in es ensures Caps(l, cap, e) {}
    Safety(l, cap, n, es, b);
  }

  /** The threads besides one. */
  function Without(ts: seq<Thread>, t: nat): seq<Thread>
    requires t < |ts|
  {
    ts[..t] + ts[t + 1..]
  }

  lemma {:induction false} TotalWithout(l: Limits, ts: seq<Thread>, t: nat, b: string, kind: Kind)
    requires t < |ts|
    ensures Total(l, ts, b, kind) == Total(l, Without(ts, t), b, kind) + Weight(l, ts[t], b, kind)
  {
    if t == 0 {
      assert Without(ts, 0) == ts[1..];
    } else {
      assert Without(ts, t)[0] == ts[0] && Without(ts, t)[1..] == Without(ts[1..], t - 1);
      TotalWithout(l, ts[1..], t - 1, b, kind);
    }
  }

  /** What the threads besides `t` hold or have added. */
  function Others(l: Limits, s: State, t: nat, b: string): nat
    requires t < |s.threads|
  {
    Total(l, Without(s.threads, t), b, OfGuards) + Total(l, Without(s.threads, t), b, OfPending)
  }

  lemma IdleAddsNothing(l: Limits, n: nat, es: seq<Step>, t: nat, b: string)
    requires var s := Run(l, Initial(n), es); t < |s.threads| && s.threads[t].Idle?
    ensures Count(Run(l, Initial(n), es), b) == Others(l, Run(l, Initial(n), es), t, b)
  {
    var s := Run(l, Initial(n), es);
    Reachable(l, n, es, b);
    TotalWithout(l, s.threads, t, b, OfGuards);
    TotalWithout(l, s.threads, t, b, OfPending);
  }

  /** A thread that goes from idle to idle, by being refused at either limit or by acquiring and
      releasing, leaves no trace: whatever the other threads do in between, every counter changes
      by what they contribute, and not at all if they do nothing. */
  lemma PairLeavesNoTrace(l: Limits, n: nat, before: seq<Step>, t: nat, mid: seq<Step>, b: string)
    requires var s, s' := Run(l, Initial(n), before), Run(l, Initial(n), before + mid);
             t < |s.threads| && t < |s'.threads| && s.threads[t].Idle? && s'.threads[t].Idle?
    ensures var s, s' := Run(l, Initial(n), before), Run(l, Initial(n), before + mid);
            && Count(s', b) - Count(s, b) == Others(l, s', t, b) - Others(l, s, t, b)
            && ((forall e :: e in mid ==> e.t == t) ==> Count(s', b) == Count(s, b))
  {
    IdleAddsNothing(l, n, before, t, b);
    IdleAddsNothing(l, n, before + mid, t, b);
    if forall e :: e in mid ==> e.t == t {
      var s := Run(l, Initial(n), before);
      RunAppend(l, Initial(n), before, mid);
      OthersStay(l, s, t, mid);
      assert Run(l, s, mid).threads == s.threads;
    }
  }

  lemma {:induction false} OthersStay(l: Limits, s: State, t: nat, own: seq<Step>)
    requires forall e :: e in own ==> e.t == t
    ensures |Run(l, s, own).threads| == |s.threads|
    ensures forall i :: 0 <= i < |s.threads| && i != t ==> Run(l, s, own).threads[i] == s.threads[i]
    decreases |own|
  {
    if own != [] {
      assert own[0] in own && forall e :: e in own[1..] ==> e in own;
      OthersStay(l, Apply(l, s, own[0]), t, own[1..]);
    }
  }

  // ---- Exactly when a thread is refused ------------------------------------------------------------

  lemma {:induction false} MyselfStays(l: Limits, s: State, t: nat, others: seq<Step>)
    requires t < |s.threads| && forall e :: e in others ==> e.t != t
    ensures |Run(l, s, others).threads| == |s.threads| && Run(l, s, others).threads[t] == s.threads[t]
    decreases |others|
  {
    if others != [] {
      assert others[0] in others && forall e :: e in others[1..] ==> e in others;
      MyselfStays(l, Apply(l, s, others[0]), t, others[1..]);
    }
  }

  /** A thread's add and its resolution, with any steps of other threads in between. */
  function Attempt(l: Limits, s: State, add: Step, others: seq<Step>, resolve: Step): State {
    Apply(l, Run(l, Apply(l, s, add), others), resolve)
  }

  /** In every reachable state and whatever others do meanwhile, an attempt on a key is refused
      exactly when live guards and unresolved adds together fill the limit as it begins. */
  lemma KeyRefusedExactly(l: Limits, n: nat, es: seq<Step>, t: nat, key: string, ip: string, others: seq<Step>)
    requires var s := Run(l, Initial(n), es); t < |s.threads| && s.threads[t].Idle?
    requires forall e :: e in others ==> e.t != t
    ensures var s := Run(l, Initial(n), es);
            var s' := Attempt(l, s, AddKey(t, key, ip), others, ResolveKey(t));
            && t < |s'.threads|
            && s'.threads[t] ==
               (if LiveGuards(l, s, key) + InBetween(l, s, key) >= l.perKey then Idle else HasKey(key, ip))
  {
    var s := Run(l, Initial(n), es);
    Reachable(l, n, es, key);
    MyselfStays(l, Apply(l, s, AddKey(t, key, ip)), t, others);
  }

  /** The same for the address of a thread that has its key. */
  lemma IpRefusedExactly(l: Limits, n: nat, es: seq<Step>, t: nat, others: seq<Step>)
    requires var s := Run(l, Initial(n), es); t < |s.threads| && s.threads[t].HasKey?
    requires forall e :: e in others ==> e.t != t
    ensures var s := Run(l, Initial(n), es);
            var s', me := Attempt(l, s, AddIp(t), others, ResolveIp(t)), s.threads[t];
            && t < |s'.threads|
            && s'.threads[t] == (if LiveGuards(l, s, me.ip) + InBetween(l, s, me.ip) >= l.perIp
                                 then Refused(me.key, me.ip) else Held(me.key, me.ip))
  {
    var s := Run(l, Initial(n), es);
    Reachable(l, n, es, s.threads[t].ip);
    MyselfStays(l, Apply(l, s, AddIp(t)), t, others);
  }

  /** With no add in between, a key whose limit is its own is refused exactly when as many guards
      as the limit are alive. */
  lemma QuietRefusalMeansFull(l: Limits, cap: string -> nat, n: nat, es: seq<Step>, t: nat, key: string, ip: string)
    requires (forall e :: e in es ==> Caps(l, cap, e)) && cap(key) == l.perKey
    requires var s := Run(l, Initial(n), es); t < |s.threads| && s.threads[t].Idle? && InBetween(l, s, key) == 0
    ensures var s := Run(l, Initial(n), es);
            var s' := Attempt(l, s, AddKey(t, key, ip), [], ResolveKey(t));
            t < |s'.threads| && (s'.threads[t].Idle? <==> LiveGuards(l, s, key) == l.perKey)
  {
    Safety(l, cap, n, es, key);
    KeyRefusedExactly(l, n, es, t, key, ip, []);
  }

  // ---- Refusals although no guard is alive -----------------------------------------------------------

  /** Threads `[0, dropped)` are done with the key, `[dropped, held)` hold it, `[p, p + over)` have
      overshot it, all others are idle. */
  ghost predicate Crowd(s: State, k: string, ip: string, p: nat, held: nat, over: nat, dropped: nat) {
    && |s.threads| == 2 * p + 1 && dropped <= held <= p && over <= p
    && (forall j :: 0 <= j < dropped ==> Guards(s.threads[j], k) == 0)
    && (forall j :: dropped <= j < held ==> s.threads[j] == HasKey(k, ip))
    && (forall j :: held <= j < p ==> s.threads[j] == Idle)
    && (forall j :: p <= j < p + over ==> s.threads[j].KeyAdded?)
    && (forall j :: p + over <= j <= 2 * p ==> s.threads[j] == Idle)
    && Count(s, k) == held - dropped + over
  }

  lemma Holds(l: Limits, s: State, k: string, ip: string, held: nat)
    requires held < l.perKey && Crowd(s, k, ip, l.perKey, held, 0, 0)
    ensures Crowd(Apply(l, Apply(l, s, AddKey(held, k, ip)), ResolveKey(held)), k, ip, l.perKey, held + 1, 0, 0)
  {
    var s1 := Apply(l, s, AddKey(held, k, ip));
    assert s1.threads[held] == KeyAdded(k, ip, held);
  }

  lemma Overshoots(l: Limits, s: State, k: string, ip: string, over: nat)
    requires over < l.perKey && Crowd(s, k, ip, l.perKey, l.perKey, over, 0)
    ensures Crowd(Apply(l, s, AddKey(l.perKey + over, k, ip)), k, ip, l.perKey, l.perKey, over + 1, 0)
  {
  }

  lemma Drops(l: Limits, s: State, k: string, ip: string, d: nat)
    requires k != ip && d < l.perKey && Crowd(s, k, ip, l.perKey, l.perKey, l.perKey, d)
    ensures Crowd(Apply(l, Apply(l, Apply(l, s, AddIp(d)), ResolveIp(d)), DropKey(d)),
                  k, ip, l.perKey, l.perKey, l.perKey, d + 1)
  {
    var s1 := Apply(l, s, AddIp(d));
    assert s1.threads[d] == IpAdded(k, ip, Count(s, ip)) && Count(s1, k) == Count(s, k);
    var s2 := Apply(l, s1, ResolveIp(d));
    assert Count(s2, k) == Count(s, k) && (s2.threads[d] == Refused(k, ip) || s2.threads[d] == Held(k, ip));
  }

  lemma {:induction false} NoGuards(l: Limits, ts: seq<Thread>, b: string)
    requires forall j :: 0 <= j < |ts| ==> Guards(ts[j], b) == 0
    ensures Total(l, ts, b, OfGuards) == 0
  {
    if ts != [] {
      assert forall j :: 0 <= j < |ts[1..]| ==> ts[1..][j] == ts[j + 1];
      NoGuards(l, ts[1..], b);
    }
  }

  lemma RunSnoc(l: Limits, s: State, es: seq<Step>, e: Step)
    ensures Run(l, s, es + [e]) == Apply(l, Run(l, s, es), e)
  {
    RunAppend(l, s, es, [e]);
    assert [e][1..] == [];
  }

  lemma AllHold(l: Limits, k: string, ip: string) returns (es: seq<Step>)
    ensures Crowd(Run(l, Initial(2 * l.perKey + 1), es), k, ip, l.perKey, l.perKey, 0, 0)
  {
    var s0 := Initial(2 * l.perKey + 1);
    es := [];
    for i := 0 to l.perKey
      invariant Crowd(Run(l, s0, es), k, ip, l.perKey, i, 0, 0)
    {
      Holds(l, Run(l, s0, es), k, ip, i);
      RunSnoc(l, s0, es, AddKey(i, k, ip));
      RunSnoc(l, s0, es + [AddKey(i, k, ip)], ResolveKey(i));
      es := es + [AddKey(i, k, ip)] + [ResolveKey(i)];
    }
  }

  lemma AllOvershoot(l: Limits, k: string, ip: string, s0: State, es0: seq<Step>) returns (es: seq<Step>)
    requires Crowd(Run(l, s0, es0), k, ip, l.perKey, l.perKey, 0, 0)
    ensures Crowd(Run(l, s0, es), k, ip, l.perKey, l.perKey, l.perKey, 0)
  {
    es := es0;
    for i := 0 to l.perKey
      invariant Crowd(Run(l, s0, es), k, ip, l.perKey, l.perKey, i, 0)
    {
      Overshoots(l, Run(l, s0, es), k, ip, i);
      RunSnoc(l, s0, es, AddKey(l.perKey + i, k, ip));
      es := es + [AddKey(l.perKey + i, k, ip)];
    }
  }

  lemma AllDrop(l: Limits, k: string, ip: string, s0: State, es0: seq<Step>) returns (es: seq<Step>)
    requires k != ip && Crowd(Run(l, s0, es0), k, ip, l.perKey, l.perKey, l.perKey, 0)
    ensures Crowd(Run(l, s0, es), k, ip, l.perKey, l.perKey, l.perKey, l.perKey)
  {
    es := es0;
    for i := 0 to l.perKey
      invariant Crowd(Run(l, s0, es), k, ip, l.perKey, l.perKey, l.perKey, i)
    {
      Drops(l, Run(l, s0, es), k, ip, i);
      RunSnoc(l, s0, es, AddIp(i));
      RunSnoc(l, s0, es + [AddIp(i)], ResolveIp(i));
      RunSnoc(l, s0, es + [AddIp(i)] + [ResolveIp(i)], DropKey(i));
      es := es + [AddIp(i)] + [ResolveIp(i)] + [DropKey(i)];
    }
  }

  lemma CrowdRefuses(l: Limits, s: State, k: string, ip: string)
    requires Crowd(s, k, ip, l.perKey, l.perKey, l.perKey, l.perKey)
    ensures LiveGuards(l, s, k) == 0
    ensures var s' := Attempt(l, s, AddKey(2 * l.perKey, k, ip), [], ResolveKey(2 * l.perKey));
            2 * l.perKey < |s'.threads| && s'.threads[2 * l.perKey].Idle?
  {
    NoGuards(l, s.threads, k);
  }

  /** For every pair of limits there is a run after which no guard on the key is alive and yet an
      idle thread's attempt is refused: as many threads as the limit have overshot it and not yet
      undone their adds. */
  lemma SpuriousRefusal(l: Limits, k: string, ip: string) returns (es: seq<Step>)
    requires k != ip
    ensures var t := 2 * l.perKey;
            var s := Run(l, Initial(t + 1), es);
            var s' := Attempt(l, s, AddKey(t, k, ip), [], ResolveKey(t));
            && LiveGuards(l, s, k) == 0 && t < |s.threads| && s.threads[t].Idle?
            && t < |s'.threads| && s'.threads[t].Idle?
  {
    var s0 := Initial(2 * l.perKey + 1);
    es := AllHold(l, k, ip);
    es := AllOvershoot(l, k, ip, s0, es);
    es := AllDrop(l, k, ip, s0, es);
    CrowdRefuses(l, Run(l, s0, es), k, ip);
  }

  // ---- The limiter object, uninterrupted ------------------------------------------------------------

  function At(counters: map<string, nat>, b: string): nat { if b in counters then counters[b] else 0 }

  class ConcurrencyLimiter {
    const limits: Limits
    var counters: map<string, nat>

    constructor (perKey: nat, perIp: nat)
      ensures limits == Limits(perKey, perIp) && counters == map[] && forall b :: At(counters, b) == 0
    {
      limits := Limits(perKey, perIp);
      counters := map[];
    }

    /** Takes a slot exactly when one is free. */
    method TryAcquire(bucket: string, limit: nat) returns (ok: bool)
      modifies this`counters
      ensures ok <==> At(old(counters), bucket) < limit
      ensures forall b :: At(counters, b) == At(old(counters), b) + (if ok && b == bucket then 1 else 0)
    {
      var prev := At(counters, bucket);
      counters := counters[bucket := prev + 1];
      if prev >= limit {
        counters := counters[bucket := At(counters, bucket) - 1];
        ok := false;
      } else {
        ok := true;
      }
    }

    method Release(bucket: string)
      requires At(counters, bucket) > 0
      modifies this`counters
      ensures forall b :: At(counters, b) == At(old(counters), b) - (if b == bucket then 1 else 0)
    {
      counters := counters[bucket := At(counters, bucket) - 1];
    }

    /** Both slots or neither. A bucket used for both needs room for two. */
    method Acquire(key: string, ip: string) returns (ok: bool)
      modifies this`counters
      ensures ok <==> At(old(counters), key) < limits.perKey
                      && At(old(counters), ip) + (if key == ip then 1 else 0) < limits.perIp
      ensures forall b :: At(counters, b) ==
                          At(old(counters), b) + (if ok && b == key then 1 else 0) + (if ok && b == ip then 1 else 0)
    {
      ok := TryAcquire(key, limits.perKey);
      if ok {
        ok := TryAcquire(ip, limits.perIp);
        if !ok {
          Release(key);
        }
      }
    }
  }
}
