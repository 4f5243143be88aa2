/** In-flight slots: every backend's count is its live guards, in every run of any number of
    requests and stream tasks. */
module InFlight {
  import opened Strings

  /** How a request or its stream task stands. `guards` are the slots it owns. */
  datatype Phase = Trying | Streaming | Ended

  datatype Request = Request(phase: Phase, backends: seq<nat>, next: nat, stream: bool, guards: seq<nat>)

  datatype State = State(inflight: map<nat, int>, requests: seq<Request>)

  function Count(s: State, b: nat): int { if b in s.inflight then s.inflight[b] else 0 }

  datatype Step =
    | Arrive(backends: seq<nat>, stream: bool)
    | Acquire(r: nat)          // the loop enters its next turn
    | Retry(r: nat)            // connect failure or 503: the turn ends, the guard drops
    | Answer(r: nat)           // a response that is not streamed: the call returns
    | Spawn(r: nat)            // connected: the guard moves into the stream task
    | Finish(r: nat)           // the stream task ends
    | Cancel(r: nat)           // the client is gone before an answer: the call is dropped
    | Exhaust(r: nat)          // every backend failed

  /** A slot taken (1), given back (-1) or left alone (0) on a backend, and the request after. */
  datatype Effect = Effect(b: nat, d: int, x: Request)

  function Drop(x: Request, phase: Phase, next: nat): Effect {
    if x.guards == [] then Effect(0, 0, x.(phase := phase, next := next))
    else Effect(x.guards[0], -1, x.(phase := phase, next := next, guards := x.guards[1..]))
  }

  function Next(x: Request, e: Step): Effect {
    if x.phase == Trying then
      if e.Acquire? && x.next < |x.backends| && x.guards == [] then
        Effect(x.backends[x.next], 1, x.(guards := [x.backends[x.next]] + x.guards))
      else if e.Retry? && x.guards != [] then Drop(x, Trying, x.next + 1)
      else if e.Answer? && x.guards != [] then Drop(x, Ended, x.next)
      else if e.Spawn? && x.stream && x.guards != [] then Effect(0, 0, x.(phase := Streaming))
      else if e.Cancel? then Drop(x, Ended, x.next)
      else if e.Exhaust? && x.next >= |x.backends| && x.guards == [] then Effect(0, 0, x.(phase := Ended))
      else Effect(0, 0, x)
    else if x.phase == Streaming && e.Finish? then Drop(x, Ended, x.next)
    else Effect(0, 0, x)
  }

  function Apply(s: State, e: Step): State {
    if e.Arrive? then s.(requests := s.requests + [Request(Trying, e.backends, 0, e.stream, [])])
    else if e.r >= |s.requests| then s
    else
      var f := Next(s.requests[e.r], e);
      State(s.inflight[f.b := Count(s, f.b) + f.d], s.requests[e.r := f.x])
  }

  function Run(s: State, es: seq<Step>): State
    decreases |es|
  {
    if es == [] then s else Run(Apply(s, es[0]), es[1..])
  }

  function Initial(): State { State(map[], []) }

  // ---- Conservation -----------------------------------------------------------------------

  function Owned(guards: seq<nat>, b: nat): nat { multiset(guards)[b] }

  /** The live guards on a backend. */
  function Live(rs: seq<Request>, b: nat): nat {
    if rs == [] then 0 else Owned(rs[0].guards, b) + Live(rs[1..], b)
  }

  /** A request owns at most one guard, only while it runs, and always one while it streams. */
  predicate GoodRequest(x: Request) {
    && |x.guards| <= 1 && (x.phase == Ended ==> x.guards == [])
    && (x.phase == Streaming ==> |x.guards| == 1 && x.stream)
    && (x.guards != [] ==> x.next < |x.backends| && x.guards[0] == x.backends[x.next])
  }

  ghost predicate Inv(s: State) {
    && (forall b :: Count(s, b) == Live(s.requests, b))
    && (forall r :: 0 <= r < |s.requests| ==> GoodRequest(s.requests[r]))
  }

  lemma {:induction false} LiveUpdate(rs: seq<Request>, r: nat, x: Request, b: nat)
    requires r < |rs|
    ensures Live(rs[r := x], b) == Live(rs, b) - Owned(rs[r].guards, b) + Owned(x.guards, b)
  {
    if r == 0 {
      assert rs[0 := x][1..] == rs[1..];
    } else {
      assert rs[r := x][1..] == rs[1..][r - 1 := x] && rs[r := x][0] == rs[0];
      LiveUpdate(rs[1..], r - 1, x, b);
    }
  }

  lemma {:induction false} LiveAppend(rs: seq<Request>, x: Request, b: nat)
    ensures Live(rs + [x], b) == Live(rs, b) + Owned(x.guards, b)
  {
    if rs == [] {
      assert [] + [x] == [x] && [x][1..] == [];
    } else {
      HeadTail(rs, [x]);
      LiveAppend(rs[1..], x, b);
    }
  }

  /** A request's guards change by what it adds to the counter. */
  lemma OwnStep(x: Request, e: Step, b: nat)
    requires GoodRequest(x)
    ensures var f := Next(x, e);
            && GoodRequest(f.x)
            && Owned(f.x.guards, b) == Owned(x.guards, b) + (if f.b == b then f.d else 0)
  {
    if x.guards != [] {
      assert x.guards == [x.guards[0]] && x.guards[1..] == [];
    }
  }

  lemma StepKeeps(s: State, e: Step)
    requires Inv(s)
    ensures Inv(Apply(s, e))
  {
    var t := Apply(s, e);
    forall b ensures Count(t, b) == Live(t.requests, b) {
      assert Count(s, b) == Live(s.requests, b);
      if e.Arrive? {
        LiveAppend(s.requests, Request(Trying, e.backends, 0, e.stream, []), b);
      } else if e.r < |s.requests| {
        OwnStep(s.requests[e.r], e, b);
        LiveUpdate(s.requests, e.r, Next(s.requests[e.r], e).x, b);
      }
    }
    if !e.Arrive? && e.r < |s.requests| { OwnStep(s.requests[e.r], e, 0); }
  }

  lemma {:induction false} RunKeeps(s: State, es: seq<Step>)
    requires Inv(s)
    ensures Inv(Run(s, es))
    decreases |es|
  {
    if es != [] {
      StepKeeps(s, es[0]);
      RunKeeps(Apply(s, es[0]), es[1..]);
    }
  }

  lemma {:induction false} NoneLive(rs: seq<Request>, b: nat)
    requires forall x :: x in rs ==> x.guards == []
    ensures Live(rs, b) == 0
  {
    if rs != [] {
      assert rs[0] in rs && forall x :: x in rs[1..] ==> x in rs;
      NoneLive(rs[1..], b);
    }
  }

  /** In every run each backend's count is its live guards, no request owns two, and when all
      requests and stream tasks have ended every count is zero. */
  lemma Conservation(es: seq<Step>, b: nat)
    ensures var s := Run(Initial(), es);
            && Count(s, b) == Live(s.requests, b)
            && (forall r :: 0 <= r < |s.requests| ==> |s.requests[r].guards| <= 1)
            && ((forall x :: x in s.requests ==> x.phase == Ended) ==> Count(s, b) == 0)
  {
    RunKeeps(Initial(), es);
    var s := Run(Initial(), es);
    assert forall r :: 0 <= r < |s.requests| ==> GoodRequest(s.requests[r]);
    if forall x :: x in s.requests ==> x.phase == Ended {
      forall x | x in s.requests ensures x.guards == [] {
        var r :| 0 <= r < |s.requests| && s.requests[r] == x;
        assert GoodRequest(s.requests[r]);
      }
      NoneLive(s.requests, b);
    }
  }

  // ---- What a request goes through ---------------------------------------------------------------

  /** The backends on which a request takes a slot, in order. */
  function Tried(s: State, es: seq<Step>, r: nat): seq<nat>
    decreases |es|
  {
    if es == [] then []
    else
      var t := Apply(s, es[0]);
      (if r < |s.requests| && |t.requests[r].guards| > |s.requests[r].guards| then [t.requests[r].guards[0]] else [])
      + Tried(t, es[1..], r)
  }

  /** How many backends a request has tried so far, while it runs. */
  function Turns(x: Request): nat { x.next + |x.guards| }

  /** A request has tried the first of its backends, and all of them if it gave up. */
  predicate TriedSome(x: Request, tried: seq<nat>) {
    tried <= x.backends && (x.phase != Ended ==> |tried| == Turns(x))
  }

  lemma OneStepTries(x: Request, e: Step, tried: seq<nat>)
    requires GoodRequest(x) && TriedSome(x, tried)
    ensures var y := Next(x, e).x;
            && y.backends == x.backends
            && TriedSome(y, tried + (if |y.guards| > |x.guards| then [y.guards[0]] else []))
            && (e.Exhaust? && y != x ==> tried == x.backends)
  {
    if |Next(x, e).x.guards| <= |x.guards| { assert tried + [] == tried; }
  }

  lemma {:induction false} TriesInOrder(s: State, es: seq<Step>, r: nat, tried: seq<nat>)
    requires Inv(s) && r < |s.requests| && TriedSome(s.requests[r], tried)
    ensures var t := Run(s, es);
            && r < |t.requests| && t.requests[r].backends == s.requests[r].backends
            && TriedSome(t.requests[r], tried + Tried(s, es, r))
    decreases |es|
  {
    if es == [] {
      assert tried + [] == tried;
    } else {
      var t := Apply(s, es[0]);
      StepKeeps(s, es[0]);
      var more := if |t.requests[r].guards| > |s.requests[r].guards| then [t.requests[r].guards[0]] else [];
      if !es[0].Arrive? && es[0].r == r {
        OneStepTries(s.requests[r], es[0], tried);
      } else {
        assert tried + [] == tried;
      }
      TriesInOrder(t, es[1..], r, tried + more);
      Assoc(tried, more, Tried(t, es[1..], r));
    }
  }

  /** From its arrival on a request tries its backends in their order, each once per turn, whatever
      happens to it and to others. */
  lemma BackendsInOrder(before: seq<Step>, backends: seq<nat>, stream: bool, es: seq<Step>)
    ensures var s := Run(Initial(), before);
            var r := |s.requests|;
            var a := Apply(s, Arrive(backends, stream));
            var t := Run(a, es);
            && r < |t.requests| && Tried(a, es, r) <= backends
            && (t.requests[r].phase != Ended ==> |Tried(a, es, r)| == Turns(t.requests[r]))
  {
    RunKeeps(Initial(), before);
    var s := Run(Initial(), before);
    StepKeeps(s, Arrive(backends, stream));
    TriesInOrder(Apply(s, Arrive(backends, stream)), es, |s.requests|, []);
    assert [] + Tried(Apply(s, Arrive(backends, stream)), es, |s.requests|) ==
           Tried(Apply(s, Arrive(backends, stream)), es, |s.requests|);
  }

  /** One turn: the slot is taken, and given back when the turn fails, is answered or is cancelled; a
      stream keeps it until its task finishes; and a request without backends left gives up. */
  lemma TurnByTurn(s: State, r: nat)
    requires r < |s.requests| && s.requests[r].phase == Trying && s.requests[r].guards == []
    ensures var x := s.requests[r];
            if x.next < |x.backends| then
              var a := Apply(s, Acquire(r));
              var b := x.backends[x.next];
              && a.requests[r] == x.(guards := [b]) && Count(a, b) == Count(s, b) + 1
              && Apply(a, Retry(r)).requests[r] == x.(next := x.next + 1)
              && Apply(a, Answer(r)).requests[r] == x.(phase := Ended)
              && Apply(a, Cancel(r)).requests[r] == x.(phase := Ended)
              && SameCounts(Apply(a, Retry(r)), s) && SameCounts(Apply(a, Answer(r)), s)
              && SameCounts(Apply(a, Cancel(r)), s)
            else Apply(s, Exhaust(r)).requests[r] == x.(phase := Ended) && SameCounts(Apply(s, Exhaust(r)), s)
  {
  }

  lemma StreamTurn(s: State, r: nat)
    requires r < |s.requests| && s.requests[r].phase == Trying && s.requests[r].guards == []
    requires s.requests[r].stream && s.requests[r].next < |s.requests[r].backends|
    ensures var x := s.requests[r];
            var b := x.backends[x.next];
            var a := Apply(Apply(s, Acquire(r)), Spawn(r));
            && a.requests[r] == x.(phase := Streaming, guards := [b]) && Count(a, b) == Count(s, b) + 1
            && Apply(a, Finish(r)).requests[r] == x.(phase := Ended) && SameCounts(Apply(a, Finish(r)), s)
  {
  }

  ghost predicate SameCounts(s: State, t: State) { forall b :: Count(s, b) == Count(t, b) }

  // ---- The circuit breaker -----------------------------------------------------------------

  const OpenAfter: nat := 3

  datatype Breaker = Breaker(healthy: bool, failures: nat)

  function OnOk(k: Breaker): Breaker { Breaker(true, 0) }

  function OnErr(k: Breaker): Breaker {
    Breaker(if k.failures + 1 >= OpenAfter then false else k.healthy, k.failures + 1)
  }

  /** A backend after a history of connects, `true` for a success. */
  function History(h: seq<bool>): Breaker {
    if h == [] then Breaker(true, 0)
    else if h[|h| - 1] then OnOk(History(h[..|h| - 1])) else OnErr(History(h[..|h| - 1]))
  }

  /** The failures since the last success. */
  function Trailing(h: seq<bool>): nat {
    if h == [] || h[|h| - 1] then 0 else 1 + Trailing(h[..|h| - 1])
  }

  /** The circuit is open exactly after three failures in a row. */
  lemma {:induction false} BreakerExact(h: seq<bool>)
    ensures History(h) == Breaker(Trailing(h) < OpenAfter, Trailing(h))
    decreases |h|
  {
    if h != [] { BreakerExact(h[..|h| - 1]); }
  }

  // ---- The retry loop ---------------------------------------------------------------------------

  class BackendHandle {
    var inflight: int
    var breaker: Breaker

    constructor ()
      ensures inflight == 0 && breaker == Breaker(true, 0)
    {
      inflight, breaker := 0, Breaker(true, 0);
    }

    method Acquire()
      modifies this`inflight
      ensures inflight == old(inflight) + 1
    {
      inflight := inflight + 1;
    }

    /** The guard's drop. */
    method Release()
      modifies this`inflight
      ensures inflight == old(inflight) - 1
    {
      inflight := inflight - 1;
    }

    method OnConnectOk()
      modifies this`breaker
      ensures breaker == OnOk(old(breaker))
    {
      breaker := Breaker(true, 0);
    }

    method OnConnectErr()
      modifies this`breaker
      ensures breaker == OnErr(old(breaker))
    {
      var n := breaker.failures + 1;
      breaker := breaker.(failures := n);
      if n >= OpenAfter {
        breaker := breaker.(healthy := false);
      }
    }
  }

  /** What a backend does with one attempt: it cannot be reached, or replies with a status and a
      body that arrives whole or not. */
  datatype Outcome = Refused | Replied(code: nat, whole: bool)

  /** A connect failure or 503 is retried elsewhere; anything else is the answer. */
  predicate Retryable(o: Outcome) { o.Refused? || o.code == 503 }

  datatype Reply = Answered(at: nat) | Exhausted

  function Failed(k: Breaker, n: nat): Breaker { if n == 0 then k else OnErr(Failed(k, n - 1)) }

  /** How often a handle occurs. */
  ghost function Times(handles: seq<BackendHandle>, h: BackendHandle): nat { multiset(handles)[h] }

  lemma TimesNext(handles: seq<BackendHandle>, i: nat)
    requires i < |handles|
    ensures forall h :: Times(handles[..i + 1], h) == Times(handles[..i], h) + (if h == handles[i] then 1 else 0)
  {
    assert handles[..i + 1] == handles[..i] + [handles[i]];
  }

  /** One turn of the loop: the slot is taken and given back, the outcome recorded. */
  method Turn(h: BackendHandle, o: Outcome)
    modifies h
    ensures h.inflight == old(h.inflight)
    ensures h.breaker == if Retryable(o) then OnErr(old(h.breaker)) else OnOk(old(h.breaker))
  {
    h.Acquire();
    if Retryable(o) {
      h.OnConnectErr();
    } else {
      h.OnConnectOk();
    }
    h.Release();
  }

  /** `proxy_json` over its backends, which may repeat: the first backend that does not fail
      answers and its circuit closes, every turn before it counts as one failure of its backend,
      later ones are not asked, and every slot is given back. */
  method ProxyJson(handles: seq<BackendHandle>, outcomes: seq<Outcome>) returns (r: Reply)
    requires |outcomes| == |handles|
    modifies set h | h in handles
    ensures forall h :: h in handles ==> h.inflight == old(h.inflight)
    ensures r.Answered? ==> r.at < |handles| && outcomes[r.at].Replied? && outcomes[r.at].code != 503
                            && handles[r.at].breaker == Breaker(true, 0)
    ensures r.Answered? ==> forall i :: 0 <= i < r.at ==> outcomes[i].Refused? || outcomes[i].code == 503
    ensures r.Exhausted? <==> forall i :: 0 <= i < |handles| ==> outcomes[i].Refused? || outcomes[i].code == 503
    ensures var failed := if r.Answered? then handles[..r.at] else handles;
            forall h :: h in handles && (r.Answered? ==> h != handles[r.at]) ==>
                          h.breaker == Failed(old(h.breaker), Times(failed, h))
  {
    for i := 0 to |handles|
      invariant forall h :: h in handles ==> h.inflight == old(h.inflight)
      invariant forall j :: 0 <= j < i ==> Retryable(outcomes[j])
      invariant forall h :: h in handles ==> h.breaker == Failed(old(h.breaker), Times(handles[..i], h))
    {
      TimesNext(handles, i);
      Turn(handles[i], outcomes[i]);
      if !Retryable(outcomes[i]) {
        return Answered(i);
      }
    }
    assert handles[..|handles|] == handles;
    r := Exhausted;
  }
}
