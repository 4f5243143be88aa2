/** The circuit breaker's two atomics under concurrent callers: a report of a connect writes the
    failure count first and the health flag in a second step, and other reports come in between. */
module Circuit {
  import opened Strings
  import IF = InFlight

  /** `closing` and `opening` are the callers between their two steps. `history` lists the connects
      in the order of their first steps, `true` for a success. */
  datatype State = State(failures: nat, healthy: bool, closing: set<nat>, opening: set<nat>, history: seq<bool>)

  function Initial(): State { State(0, true, {}, {}, []) }

  datatype Step =
    | Zero(t: nat)     // on_connect_ok: the count is reset
    | Close(t: nat)    // on_connect_ok: the backend is healthy
    | Add(t: nat)      // on_connect_err: the count grows, and the caller goes on if it reached three
    | Open(t: nat)     // on_connect_err: the backend is not healthy

  predicate Idle(s: State, t: nat) { t !in s.closing && t !in s.opening }

  function Apply(s: State, e: Step): State {
    match e
    case Zero(t) =>
      if !Idle(s, t) then s else s.(failures := 0, closing := s.closing + {t}, history := s.history + [true])
    case Close(t) =>
      if t !in s.closing then s else s.(healthy := true, closing := s.closing - {t})
    case Add(t) =>
      if !Idle(s, t) then s
      else
        s.(failures := s.failures + 1, history := s.history + [false],
           opening := if s.failures + 1 >= IF.OpenAfter then s.opening + {t} else s.opening)
    case Open(t) =>
      if t !in s.opening then s else s.(healthy := false, opening := s.opening - {t})
  }

  function Run(s: State, es: seq<Step>): State
    decreases |es|
  {
    if es == [] then s else Run(Apply(s, es[0]), es[1..])
  }

  predicate AtRest(s: State) { s.closing == {} && s.opening == {} }

  /** The flag says what the documentation promises: open exactly after three failures in a row. */
  predicate Agrees(s: State) { s.healthy <==> IF.Trailing(s.history) < IF.OpenAfter }

  /** No success and no opening failure are under way together. */
  predicate Apart(s: State) { s.closing == {} || s.opening == {} }

  ghost predicate ApartThroughout(es: seq<Step>) {
    forall i :: 0 <= i <= |es| ==> Apart(Run(Initial(), es[..i]))
  }

  /** Steps that only finish calls already under way. */
  predicate Finishing(es: seq<Step>) { forall e :: e in es ==> e.Close? || e.Open? }

  // ---- The count ----------------------------------------------------------------------------

  lemma CountStep(s: State, e: Step)
    requires s.failures == IF.Trailing(s.history)
    ensures Apply(s, e).failures == IF.Trailing(Apply(s, e).history)
  {
    var h := Apply(s, e).history;
    if h != s.history {
      assert h[..|h| - 1] == s.history;
    }
  }

  /** Under every interleaving the count is the failures since the last success. */
  lemma {:induction false} CountExact(s: State, es: seq<Step>)
    requires s.failures == IF.Trailing(s.history)
    ensures Run(s, es).failures == IF.Trailing(Run(s, es).history)
    decreases |es|
  {
    if es != [] {
      CountStep(s, es[0]);
      CountExact(Apply(s, es[0]), es[1..]);
    }
  }

  /** No caller is in two calls at once. */
  lemma {:induction false} OneCallEach(s: State, es: seq<Step>)
    requires s.closing !! s.opening
    ensures Run(s, es).closing !! Run(s, es).opening
    decreases |es|
  {
    if es != [] { OneCallEach(Apply(s, es[0]), es[1..]); }
  }

  // ---- One call after the other -----------------------------------------------------------------

  /** The steps of calls that do not overlap. */
  function InTurn(h: seq<bool>): seq<Step> {
    if h == [] then []
    else InTurn(h[..|h| - 1]) + (if h[|h| - 1] then [Zero(0), Close(0)] else [Add(0), Open(0)])
  }

  lemma TwoSteps(s: State, d: Step, e: Step)
    ensures Run(s, [d, e]) == Apply(Apply(s, d), e)
  {
    assert [d, e][1..] == [e] && [e][1..] == [];
    assert Run(Apply(s, d), [e]) == Apply(Apply(s, d), e);
  }

  /** One report at a time, the two atomics are the breaker of the retry loop, so the circuit is
      open exactly after three failures since the last success. */
  lemma {:induction false} InTurnExact(h: seq<bool>)
    ensures var k := IF.History(h);
            && Run(Initial(), InTurn(h)) == State(k.failures, k.healthy, {}, {}, h)
            && k == IF.Breaker(IF.Trailing(h) < IF.OpenAfter, IF.Trailing(h))
    decreases |h|
  {
    IF.BreakerExact(h);
    if h != [] {
      var n := |h| - 1;
      InTurnExact(h[..n]);
      var s := Run(Initial(), InTurn(h[..n]));
      assert h == h[..n] + [h[n]];
      var d, e := if h[n] then Zero(0) else Add(0), if h[n] then Close(0) else Open(0);
      RunAppend(Initial(), InTurn(h[..n]), [d, e]);
      TwoSteps(s, d, e);
      assert {0} - {0} == {};
    }
  }

  // ---- Calls that do not meet ------------------------------------------------------------------

  predicate Inv(s: State) {
    && s.failures == IF.Trailing(s.history)
    && Apart(s)
    && (AtRest(s) ==> Agrees(s))
    && (s.opening != {} ==> s.failures >= IF.OpenAfter)
    && (s.closing != {} ==> s.failures < IF.OpenAfter)
  }

  lemma StepKeeps(s: State, e: Step)
    requires Inv(s) && Apart(Apply(s, e))
    ensures Inv(Apply(s, e))
  {
    CountStep(s, e);
    if (e.Zero? || e.Add?) && Idle(s, e.t) {
      assert e.t in s.closing + {e.t} && e.t in s.opening + {e.t};
    }
  }

  lemma {:induction false} RunKeeps(es: seq<Step>)
    requires ApartThroughout(es)
    ensures Inv(Run(Initial(), es))
    decreases |es|
  {
    if es != [] {
      var before, n := es[..|es| - 1], |es| - 1;
      assert es == before + [es[n]] && es[..|es|] == es;
      forall i | 0 <= i <= |before| ensures Apart(Run(Initial(), before[..i])) {
        assert before[..i] == es[..i];
      }
      RunKeeps(before);
      RunAppend(Initial(), before, [es[n]]);
      StepKeeps(Run(Initial(), before), es[n]);
    }
  }

  lemma {:induction false} RunAppend(s: State, a: seq<Step>, b: seq<Step>)
    ensures Run(s, a + b) == Run(Run(s, a), b)
    decreases |a|
  {
    if a == [] {
      assert a + b == b;
    } else {
      HeadTail(a, b);
      RunAppend(Apply(s, a[0]), a[1..], b);
    }
  }

  lemma {:induction false} FinishKeeps(s: State, es: seq<Step>)
    requires Inv(s) && Finishing(es)
    ensures Inv(Run(s, es))
    decreases |es|
  {
    if es != [] {
      assert es[0] in es;
      StepKeeps(s, es[0]);
      FinishKeeps(Apply(s, es[0]), es[1..]);
    }
  }

  // ---- Calls that meet ---------------------------------------------------------------------------

  lemma {:induction false} CloseAll(s: State) returns (es: seq<Step>)
    ensures Finishing(es)
    ensures Run(s, es) == s.(closing := {}, healthy := s.healthy || s.closing != {})
    decreases s.closing
  {
    es := [];
    if s.closing != {} {
      var t :| t in s.closing;
      var more := CloseAll(Apply(s, Close(t)));
      es := [Close(t)] + more;
      assert es[1..] == more;
    }
  }

  lemma {:induction false} OpenAll(s: State) returns (es: seq<Step>)
    ensures Finishing(es)
    ensures Run(s, es) == s.(opening := {}, healthy := s.healthy && s.opening == {})
    decreases s.opening
  {
    es := [];
    if s.opening != {} {
      var t :| t in s.opening;
      var more := OpenAll(Apply(s, Open(t)));
      es := [Open(t)] + more;
      assert es[1..] == more;
    }
  }

  /** Once a success and an opening failure are under way together, the calls can finish in an order
      that leaves the flag wrong, with no further connect. */
  lemma OverlapMisjudges(s: State) returns (es: seq<Step>)
    requires !Apart(s) && s.failures == IF.Trailing(s.history)
    ensures Finishing(es) && AtRest(Run(s, es)) && !Agrees(Run(s, es)) && Run(s, es).history == s.history
  {
    if s.failures < IF.OpenAfter {
      var a := CloseAll(s);
      var b := OpenAll(Run(s, a));
      RunAppend(s, a, b);
      es := a + b;
    } else {
      var a := OpenAll(s);
      var b := CloseAll(Run(s, a));
      RunAppend(s, a, b);
      es := a + b;
    }
  }

  /** Such an overlap is one success and three failures away from every state. */
  lemma OverlapNear(s: State, t: nat, u: nat)
    requires Idle(s, t) && Idle(s, u) && t != u
    ensures !Apart(Run(s, [Zero(t), Add(u), Add(u), Add(u)]))
  {
    var adds := [Add(u), Add(u), Add(u)];
    var z := Apply(s, Zero(t));
    var a := Apply(Apply(z, Add(u)), Add(u));
    assert [Zero(t), Add(u), Add(u), Add(u)][1..] == adds && adds[1..][1..] == [Add(u)] && [Add(u)][1..] == [];
    assert Run(a, [Add(u)]) == Apply(a, Add(u));
    assert Run(z, adds) == Run(a, [Add(u)]);
    assert t in Apply(a, Add(u)).closing && u in Apply(a, Add(u)).opening;
  }

  // ---- The exact condition -----------------------------------------------------------------------

  /** However the calls under way at any point of the run finish, the flag is right at rest. */
  ghost predicate AlwaysRight(es: seq<Step>) {
    forall i, more ::
      0 <= i <= |es| && Finishing(more) && AtRest(Run(Run(Initial(), es[..i]), more)) ==>
        Agrees(Run(Run(Initial(), es[..i]), more))
  }

  /** The circuit is open exactly after three failures in a row, at every rest a run can come to, if
      and only if no success was ever reported while a failure was opening the circuit. */
  lemma CircuitExact(es: seq<Step>)
    ensures AlwaysRight(es) <==> ApartThroughout(es)
  {
    if ApartThroughout(es) {
      forall i, more | 0 <= i <= |es| && Finishing(more) && AtRest(Run(Run(Initial(), es[..i]), more))
        ensures Agrees(Run(Run(Initial(), es[..i]), more))
      {
        forall j | 0 <= j <= i ensures Apart(Run(Initial(), es[..i][..j])) {
          assert es[..i][..j] == es[..j];
        }
        RunKeeps(es[..i]);
        FinishKeeps(Run(Initial(), es[..i]), more);
      }
    } else {
      var i :| 0 <= i <= |es| && !Apart(Run(Initial(), es[..i]));
      CountExact(Initial(), es[..i]);
      var more := OverlapMisjudges(Run(Initial(), es[..i]));
      assert !AlwaysRight(es);
    }
  }
}
