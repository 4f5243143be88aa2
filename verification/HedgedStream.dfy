/** The hedged stream task: a race between a local backend and one hedge request. */
module HedgedStream {
  import opened Strings
  import SseFrames

  /** The chunks of a stream: which of them carry data, and the keepalive, which does not. */
  datatype Framing<!C> = Framing(data: C -> bool, keepAlive: C)

  predicate Has<C>(f: Framing<C>, c: C) { f.data(c) }

  predicate Sound<C>(f: Framing<C>) { !Has(f, f.keepAlive) }

  /** Which side won the race to the first data chunk. */
  datatype Race = Undecided | Local | Hedge

  /** Who can still send into the hedge channel. */
  datatype Sender = Parent | HedgeTask | NoSender

  datatype Phase = Looping | Draining | Done

  /** The task, its channels and what has passed through them. `local` and `hedge` are the
      chunks each side has produced so far, `taken` those received from the hedge channel, `client`
      those delivered. */
  datatype State<C> = State(
    plan: bool, phase: Phase, winner: Race, hedgeStarted: bool, sender: Sender,
    local: seq<C>, localEnded: bool, hedge: seq<C>, taken: seq<C>, queue: seq<C>,
    client: seq<C>, clientOpen: bool, hedges: nat)

  function Initial<C>(plan: bool): State<C> {
    State(plan, Looping, Undecided, false, Parent, [], false, [], [], [], [], true, 0)
  }

  /** What the environment may do next; the task reacts to the first five. */
  datatype Event<C> =
    | LocalChunk(b: C)     // the local upstream yields a chunk
    | LocalEnd                 // the local upstream ends or fails
    | HedgeRecv                // a queued hedge chunk is received
    | HedgeTimer               // the hedge delay elapses
    | KeepAliveTick
    | HedgeSends(c: C)     // the hedge task forwards a chunk
    | HedgeEnds                // the hedge task ends, for any reason
    | ClientLeaves

  // ---- The arms of the loop --------------------------------------------------------

  /** `tx.send`: fails once the client is gone, and then the loop breaks. */
  function Deliver<C>(s: State<C>, b: C): State<C> {
    if s.clientOpen then s.(client := s.client + [b]) else s.(phase := Done)
  }

  function OnLocalChunk<C>(f: Framing<C>, s: State<C>, b: C): State<C> {
    var w := if s.winner.Undecided? && Has(f, b) then Local else s.winner;
    if w.Hedge? then s.(local := s.local + [b])
    else Deliver(s.(local := s.local + [b], winner := w), b)
  }

  function OnLocalEnd<C>(s: State<C>): State<C> {
    var s1 := s.(localEnded := true);
    if s1.winner.Local? || !s1.hedgeStarted then s1.(phase := Done)
    else if s1.sender == NoSender && s1.queue == [] then s1.(phase := Done)
    else s1.(phase := Draining)
  }

  function OnHedgeRecv<C>(f: Framing<C>, s: State<C>): State<C> {
    if !s.hedgeStarted || s.queue == [] then s
    else
      var b := s.queue[0];
      var w := if s.winner.Undecided? && Has(f, b) then Hedge else s.winner;
      if w.Hedge? then Deliver(s.(taken := s.taken + [b], queue := s.queue[1..], winner := w), b)
      else s.(taken := s.taken + [b], queue := s.queue[1..])
  }

  function OnHedgeTimer<C>(s: State<C>): State<C> {
    if !s.hedgeStarted && s.winner.Undecided? && s.plan then
      var s1 := s.(hedgeStarted := true);
      if s1.sender == Parent then s1.(sender := HedgeTask, hedges := s1.hedges + 1) else s1
    else s
  }

  function OnKeepAlive<C>(f: Framing<C>, s: State<C>): State<C> {
    if !s.clientOpen then s.(phase := Done)
    else if s.winner.Undecided? then Deliver(s, f.keepAlive)
    else s
  }

  /** One turn of the drain: the next hedge chunk, or the end of the channel. */
  function OnDrain<C>(s: State<C>): State<C> {
    if s.queue != [] then Deliver(s.(taken := s.taken + [s.queue[0]], queue := s.queue[1..]), s.queue[0])
    else if s.sender == NoSender then s.(phase := Done)
    else s
  }

  /** What the loop does with an event. */
  function OnLoop<C>(f: Framing<C>, s: State<C>, e: Event<C>): State<C> {
    if e.LocalChunk? then OnLocalChunk(f, s, e.b)
    else if e.LocalEnd? then OnLocalEnd(s)
    else if e.HedgeRecv? then OnHedgeRecv(f, s)
    else if e.HedgeTimer? then OnHedgeTimer(s)
    else OnKeepAlive(f, s)
  }

  predicate FromOutside<C>(e: Event<C>) { e.HedgeSends? || e.HedgeEnds? || e.ClientLeaves? }

  /** What the hedge task and the client do to the channels. A send into a task that is done
      fails and ends the hedge task. */
  function Outside<C>(s: State<C>, e: Event<C>): State<C>
    requires FromOutside(e)
  {
    if e.ClientLeaves? then s.(clientOpen := false)
    else if s.sender != HedgeTask then s
    else if e.HedgeEnds? || s.phase == Done then s.(sender := NoSender)
    else s.(hedge := s.hedge + [e.c], queue := s.queue + [e.c])
  }

  function Step<C>(f: Framing<C>, s: State<C>, e: Event<C>): State<C> {
    if FromOutside(e) then Outside(s, e)
    else if s.phase == Looping then OnLoop(f, s, e)
    else if s.phase == Draining && e.HedgeRecv? then OnDrain(s)
    else s
  }

  function Run<C>(f: Framing<C>, s: State<C>, es: seq<Event<C>>): State<C>
    decreases |es|
  {
    if es == [] then s else Run(f, Step(f, s, es[0]), es[1..])
  }

  // ---- What the client sees -----------------------------------------------------------

  /** The chunks that carry data, in order. */
  function DataOf<C>(f: Framing<C>, cs: seq<C>): seq<C> {
    if cs == [] then [] else (if Has(f, cs[0]) then [cs[0]] else []) + DataOf(f, cs[1..])
  }

  /** The stream from its first data chunk on. */
  function FromData<C>(f: Framing<C>, cs: seq<C>): seq<C> {
    if cs == [] then [] else if Has(f, cs[0]) then cs else FromData(f, cs[1..])
  }

  /** One more chunk, which starts the data if it carries some. */
  function Snoc<C>(x: seq<C>, b: C, d: bool): seq<C> { if x != [] || d then x + [b] else [] }

  lemma {:induction false} FromDataSnoc<C>(f: Framing<C>, cs: seq<C>, b: C)
    ensures FromData(f, cs + [b]) ==
            Snoc(FromData(f, cs), b, Has(f, b))
  {
    if cs == [] {
      assert [] + [b] == [b];
      assert [b][1..] == [];
    } else {
      assert (cs + [b])[0] == cs[0] && (cs + [b])[1..] == cs[1..] + [b];
      FromDataSnoc(f, cs[1..], b);
    }
  }

  /** The bookkeeping of a reachable state. */
  ghost predicate Book<C>(s: State<C>) {
    && s.hedge == s.taken + s.queue
    && (s.hedgeStarted <==> s.hedges == 1) && s.hedges <= 1
    && (s.hedgeStarted <==> s.sender != Parent)
    && (s.hedgeStarted ==> s.plan)
    && (!s.hedgeStarted ==> s.hedge == [])
    && (s.winner.Hedge? ==> s.hedgeStarted)
    && (s.phase == Draining ==> s.localEnded && s.hedgeStarted && !s.winner.Local?)
    && (s.localEnded ==> s.phase != Looping)
    && (s.phase == Done && s.clientOpen ==>
          s.localEnded && (!s.winner.Local? && s.hedgeStarted ==> s.queue == [] && s.sender == NoSender))
  }

  /** How the client's stream relates to the two sides, each taken from its first data chunk on.
      `open` says that the client stays. */
  ghost predicate Agree<C>(phase: Phase, winner: Race, started: bool, open: bool,
                           client: seq<C>, local: seq<C>, hedge: seq<C>) {
    var heard := if winner.Local? || !started then local else hedge;
    && (winner.Undecided? ==> local == [])
    && (phase == Looping && winner.Undecided? ==> hedge == [])
    && (phase == Looping && !winner.Undecided? ==> client != [])
    && client <= heard
    && (phase != Done || open ==> client == heard)
  }

  ghost predicate Inv<C>(f: Framing<C>, s: State<C>) {
    && Book(s)
    && Agree(s.phase, s.winner, s.hedgeStarted, s.clientOpen,
             FromData(f, s.client), FromData(f, s.local), FromData(f, s.taken))
  }

  // ---- Every step keeps it --------------------------------------------------------------

  lemma LocalParts<C>(f: Framing<C>, s: State<C>, b: C)
    ensures var t := OnLocalChunk(f, s, b);
            var w := if s.winner.Undecided? && Has(f, b) then Local else s.winner;
            && t == s.(phase := t.phase, winner := w, local := s.local + [b], client := t.client)
            && t.phase == (if !w.Hedge? && !s.clientOpen then Done else s.phase)
            && t.client == (if !w.Hedge? && s.clientOpen then s.client + [b] else s.client)
  {
  }

  lemma AgreeLocal<C>(winner: Race, started: bool, open: bool, x: seq<C>, l: seq<C>, h: seq<C>, b: C, d: bool)
    requires Agree(Looping, winner, started, open, x, l, h) && (winner.Hedge? ==> started)
    ensures var w := if winner.Undecided? && d then Local else winner;
            Agree(if !w.Hedge? && !open then Done else Looping, w, started, open,
                  if !w.Hedge? && open then Snoc(x, b, d) else x, Snoc(l, b, d), h)
  {
  }

  lemma KeepsLocalChunk<C>(f: Framing<C>, s: State<C>, b: C)
    requires Inv(f, s) && s.phase == Looping
    ensures Inv(f, OnLocalChunk(f, s, b))
  {
    FromDataSnoc(f, s.local, b);
    FromDataSnoc(f, s.client, b);
    LocalParts(f, s, b);
    AgreeLocal(s.winner, s.hedgeStarted, s.clientOpen,
               FromData(f, s.client), FromData(f, s.local), FromData(f, s.taken), b, Has(f, b));
  }

  lemma KeepsLocalEnd<C>(f: Framing<C>, s: State<C>)
    requires Inv(f, s) && s.phase == Looping
    ensures Inv(f, OnLocalEnd(s))
  {
  }

  lemma TakeOne<C>(hedge: seq<C>, taken: seq<C>, queue: seq<C>)
    requires hedge == taken + queue && queue != []
    ensures hedge == (taken + [queue[0]]) + queue[1..]
  {
  }

  lemma HedgeParts<C>(f: Framing<C>, s: State<C>)
    requires s.hedgeStarted && s.queue != []
    ensures var t := OnHedgeRecv(f, s);
            var w := if s.winner.Undecided? && Has(f, s.queue[0]) then Hedge else s.winner;
            && t == s.(phase := t.phase, winner := w, taken := s.taken + [s.queue[0]], queue := s.queue[1..],
                       client := t.client)
            && t.phase == (if w.Hedge? && !s.clientOpen then Done else s.phase)
            && t.client == (if w.Hedge? && s.clientOpen then s.client + [s.queue[0]] else s.client)
  {
  }

  lemma AgreeHedge<C>(winner: Race, open: bool, x: seq<C>, l: seq<C>, h: seq<C>, b: C, d: bool)
    requires Agree(Looping, winner, true, open, x, l, h)
    ensures var w := if winner.Undecided? && d then Hedge else winner;
            Agree(if w.Hedge? && !open then Done else Looping, w, true, open,
                  if w.Hedge? && open then Snoc(x, b, d) else x, l, Snoc(h, b, d))
  {
  }

  lemma KeepsHedgeRecv<C>(f: Framing<C>, s: State<C>)
    requires Inv(f, s) && s.phase == Looping
    ensures Inv(f, OnHedgeRecv(f, s))
  {
    if s.hedgeStarted && s.queue != [] {
      TakeOne(s.hedge, s.taken, s.queue);
      HedgeParts(f, s);
      FromDataSnoc(f, s.taken, s.queue[0]);
      FromDataSnoc(f, s.client, s.queue[0]);
      AgreeHedge(s.winner, s.clientOpen, FromData(f, s.client), FromData(f, s.local), FromData(f, s.taken),
                 s.queue[0], Has(f, s.queue[0]));
    }
  }

  lemma KeepsHedgeTimer<C>(f: Framing<C>, s: State<C>)
    requires Inv(f, s) && s.phase == Looping
    ensures Inv(f, OnHedgeTimer(s))
  {
  }

  lemma KeepsKeepAlive<C>(f: Framing<C>, s: State<C>)
    requires Sound(f) && Inv(f, s) && s.phase == Looping
    ensures Inv(f, OnKeepAlive(f, s))
  {
    FromDataSnoc(f, s.client, f.keepAlive);
  }

  lemma KeepsDrain<C>(f: Framing<C>, s: State<C>)
    requires Inv(f, s) && s.phase == Draining
    ensures Inv(f, OnDrain(s))
  {
    if s.queue != [] {
      TakeOne(s.hedge, s.taken, s.queue);
      FromDataSnoc(f, s.taken, s.queue[0]);
      FromDataSnoc(f, s.client, s.queue[0]);
    }
  }

  lemma KeepsHedgeSends<C>(f: Framing<C>, s: State<C>, c: C)
    requires Inv(f, s)
    ensures Inv(f, Step(f, s, HedgeSends(c)))
  {
    if s.sender == HedgeTask && s.phase != Done {
      Assoc(s.taken, s.queue, [c]);
      Sent(f, s, c);
    }
  }

  lemma Sent<C>(f: Framing<C>, s: State<C>, c: C)
    requires Inv(f, s) && s.sender == HedgeTask && s.phase != Done
    requires s.hedge + [c] == s.taken + (s.queue + [c])
    ensures Inv(f, s.(hedge := s.hedge + [c], queue := s.queue + [c]))
  {
  }

  lemma LoopKeeps<C>(f: Framing<C>, s: State<C>, e: Event<C>)
    requires Sound(f) && Inv(f, s) && s.phase == Looping && !FromOutside(e)
    ensures Inv(f, OnLoop(f, s, e))
  {
    if e.LocalChunk? {
      KeepsLocalChunk(f, s, e.b);
    } else if e.LocalEnd? {
      KeepsLocalEnd(f, s);
    } else if e.HedgeRecv? {
      KeepsHedgeRecv(f, s);
    } else if e.HedgeTimer? {
      KeepsHedgeTimer(f, s);
    } else {
      KeepsKeepAlive(f, s);
    }
  }

  lemma StepKeeps<C>(f: Framing<C>, s: State<C>, e: Event<C>)
    requires Sound(f) && Inv(f, s)
    ensures Inv(f, Step(f, s, e))
  {
    if e.HedgeSends? {
      KeepsHedgeSends(f, s, e.c);
    } else if !e.HedgeEnds? && !e.ClientLeaves? {
      if s.phase == Draining {
        KeepsDrain(f, s);
      } else if s.phase == Looping {
        LoopKeeps(f, s, e);
      }
    }
  }

  lemma {:induction false} RunKeeps<C>(f: Framing<C>, s: State<C>, es: seq<Event<C>>)
    requires Sound(f) && Inv(f, s)
    ensures Inv(f, Run(f, s, es))
    decreases |es|
  {
    if es != [] {
      StepKeeps(f, s, es[0]);
      RunKeeps(f, Step(f, s, es[0]), es[1..]);
    }
  }

  lemma Reachable<C>(f: Framing<C>, plan: bool, es: seq<Event<C>>)
    requires Sound(f)
    ensures Inv(f, Run(f, Initial(plan), es))
  {
    RunKeeps(f, Initial(plan), es);
  }

  // ---- Never a mix -------------------------------------------------------------------------

  lemma {:induction false} FromDataPrefix<C>(f: Framing<C>, a: seq<C>, b: seq<C>)
    requires a <= b
    ensures FromData(f, a) <= FromData(f, b)
  {
    if a != [] {
      FromDataPrefix(f, a[1..], b[1..]);
    }
  }

  lemma {:induction false} DataPrefix<C>(f: Framing<C>, a: seq<C>, b: seq<C>)
    requires a <= b
    ensures DataOf(f, a) <= DataOf(f, b)
  {
    if a != [] {
      DataPrefix(f, a[1..], b[1..]);
    }
  }

  lemma {:induction false} DataFromData<C>(f: Framing<C>, cs: seq<C>)
    ensures DataOf(f, FromData(f, cs)) == DataOf(f, cs)
  {
    if cs != [] { DataFromData(f, cs[1..]); }
  }

  /** In every run the client's stream, from its first data chunk on, is a prefix of one side's
      stream from its first data chunk on: nothing is lost, repeated, reordered or inserted. */
  lemma NeverAMix<C>(f: Framing<C>, plan: bool, es: seq<Event<C>>)
    requires Sound(f)
    ensures var s := Run(f, Initial(plan), es);
            var side := if s.winner.Local? || !s.hedgeStarted then s.local else s.hedge;
            FromData(f, s.client) <= FromData(f, side) && DataOf(f, s.client) <= DataOf(f, side)
  {
    Reachable(f, plan, es);
    var s := Run(f, Initial(plan), es);
    var side := if s.winner.Local? || !s.hedgeStarted then s.local else s.hedge;
    FromDataPrefix(f, s.taken, s.hedge);
    DataFromData(f, s.client);
    DataFromData(f, side);
    DataPrefix(f, FromData(f, s.client), FromData(f, side));
  }

  // ---- At most one hedge, and only before an answer ------------------------------------------

  /** The step that issues a hedge issues the first, with a plan, and before any local data. */
  lemma HedgeOnlyBeforeData<C>(f: Framing<C>, plan: bool, es: seq<Event<C>>, e: Event<C>)
    requires Sound(f)
    ensures var s := Run(f, Initial(plan), es);
            && s.hedges <= 1
            && (Step(f, s, e).hedges != s.hedges ==>
                  && plan && s.hedges == 0 && Step(f, s, e).hedges == 1
                  && DataOf(f, s.local) == [] && DataOf(f, s.client) == [])
  {
    Reachable(f, plan, es);
    PlanStays(f, Initial(plan), es);
    var s := Run(f, Initial(plan), es);
    if Step(f, s, e).hedges != s.hedges { HedgeStep(f, s, e); }
    DataFromData(f, s.local);
    DataFromData(f, s.client);
  }

  lemma HedgeStep<C>(f: Framing<C>, s: State<C>, e: Event<C>)
    requires Step(f, s, e).hedges != s.hedges
    ensures s.phase == Looping && s.winner.Undecided? && !s.hedgeStarted && s.plan
    ensures Step(f, s, e).hedges == s.hedges + 1
  {
  }

  lemma StepStays<C>(f: Framing<C>, s: State<C>, e: Event<C>)
    ensures var t := Step(f, s, e);
            t.plan == s.plan && (!s.winner.Undecided? ==> t.winner == s.winner)
  {
    if !FromOutside(e) && s.phase == Looping { LoopStays(f, s, e); }
  }

  lemma LoopStays<C>(f: Framing<C>, s: State<C>, e: Event<C>)
    ensures var t := OnLoop(f, s, e);
            t.plan == s.plan && (!s.winner.Undecided? ==> t.winner == s.winner)
  {
    if e.LocalChunk? { LocalParts(f, s, e.b); }
    if e.HedgeRecv? && s.hedgeStarted && s.queue != [] { HedgeParts(f, s); }
  }

  lemma {:induction false} PlanStays<C>(f: Framing<C>, s: State<C>, es: seq<Event<C>>)
    ensures Run(f, s, es).plan == s.plan
    decreases |es|
  {
    if es != [] {
      StepStays(f, s, es[0]);
      PlanStays(f, Step(f, s, es[0]), es[1..]);
    }
  }

  /** The race is decided once. */
  lemma {:induction false} WinnerStays<C>(f: Framing<C>, s: State<C>, es: seq<Event<C>>)
    requires !s.winner.Undecided?
    ensures Run(f, s, es).winner == s.winner
    decreases |es|
  {
    if es != [] {
      StepStays(f, s, es[0]);
      WinnerStays(f, Step(f, s, es[0]), es[1..]);
    }
  }

  // ---- The task ends ------------------------------------------------------------------------

  /** How often a hedge chunk, or the end of its channel, is waited for. */
  function Receives<C>(es: seq<Event<C>>): nat {
    if es == [] then 0 else (if es[0].HedgeRecv? then 1 else 0) + Receives(es[1..])
  }

  /** A channel that is closed stays closed, and one with the hedge task as its only sender closes
      when that ends. */
  lemma {:induction false} ChannelCloses<C>(f: Framing<C>, s: State<C>, es: seq<Event<C>>)
    requires s.hedgeStarted && s.sender != Parent
    ensures s.sender == NoSender || HedgeEnds in es ==> Run(f, s, es).sender == NoSender
    decreases |es|
  {
    if es != [] {
      SenderStep(f, s, es[0]);
      ChannelCloses(f, Step(f, s, es[0]), es[1..]);
      assert HedgeEnds in es <==> es[0] == HedgeEnds || HedgeEnds in es[1..];
    }
  }

  lemma SenderStep<C>(f: Framing<C>, s: State<C>, e: Event<C>)
    requires s.hedgeStarted && s.sender != Parent
    ensures var t := Step(f, s, e);
            && t.hedgeStarted && t.sender != Parent
            && (s.sender == NoSender || e.HedgeEnds? ==> t.sender == NoSender)
  {
  }

  /** In every run, once a started hedge's task has ended nobody can send into its channel: the task
      has kept no sender of its own, so the drain sees the end. */
  lemma NoOwnSender<C>(f: Framing<C>, plan: bool, es: seq<Event<C>>, more: seq<Event<C>>)
    requires Sound(f)
    ensures var s := Run(f, Initial(plan), es);
            s.hedgeStarted && HedgeEnds in more ==> Run(f, s, more).sender == NoSender
  {
    Reachable(f, plan, es);
    var s := Run(f, Initial(plan), es);
    if s.hedgeStarted { ChannelCloses(f, s, more); }
  }

  /** What a drain without senders, or a finished task, keeps while anything happens. */
  lemma OverStep<C>(f: Framing<C>, s: State<C>, e: Event<C>)
    requires s.phase == Done || (s.phase == Draining && s.sender == NoSender)
    requires s.sender != HedgeTask
    ensures var t := Step(f, s, e);
            && t.sender == s.sender && t.local == s.local && t.hedge == s.hedge
            && t.winner == s.winner && t.hedgeStarted == s.hedgeStarted && (t.clientOpen ==> s.clientOpen)
            && (t.phase == Done || (t.phase == s.phase && |t.queue| == |s.queue| - (if e.HedgeRecv? then 1 else 0)))
  {
  }

  /** Once the hedge task is over the drain ends within the queue's length and one more turn,
      whatever else happens in between. */
  lemma {:induction false} DrainEnds<C>(f: Framing<C>, s: State<C>, es: seq<Event<C>>)
    requires s.phase == Done || (s.phase == Draining && s.sender == NoSender)
    requires s.sender != HedgeTask && (s.phase == Draining ==> Receives(es) > |s.queue|)
    ensures var t := Run(f, s, es);
            && t.phase == Done && t.local == s.local && t.hedge == s.hedge && t.winner == s.winner
            && t.hedgeStarted == s.hedgeStarted && (t.clientOpen ==> s.clientOpen)
    decreases |es|
  {
    if es != [] {
      OverStep(f, s, es[0]);
      DrainEnds(f, Step(f, s, es[0]), es[1..]);
    }
  }

  /** In every run in which both sides have ended, in any order and with any queue, the task ends
      within the queue's length and one more turn, whatever else happens in between, and a client
      that stayed has the whole answer of the side it listened to. */
  lemma TurnCompletes<C>(f: Framing<C>, plan: bool, es: seq<Event<C>>, more: seq<Event<C>>)
    requires Sound(f)
    requires var s := Run(f, Initial(plan), es);
             s.localEnded && s.sender != HedgeTask && Receives(more) > |s.queue|
    ensures var s := Run(f, Initial(plan), es);
            var t := Run(f, s, more);
            var side := if s.winner.Local? || !s.hedgeStarted then s.local else s.hedge;
            && t.phase == Done
            && (t.clientOpen ==> FromData(f, t.client) == FromData(f, side) && DataOf(f, t.client) == DataOf(f, side))
  {
    var s := Run(f, Initial(plan), es);
    Reachable(f, plan, es);
    DrainEnds(f, s, more);
    RunKeeps(f, s, more);
    if Run(f, s, more).clientOpen { WholeAnswer(f, Run(f, s, more)); }
  }

  /** A finished task whose client stayed has delivered the whole side. */
  lemma WholeAnswer<C>(f: Framing<C>, t: State<C>)
    requires Inv(f, t) && t.phase == Done && t.clientOpen
    ensures var side := if t.winner.Local? || !t.hedgeStarted then t.local else t.hedge;
            FromData(f, t.client) == FromData(f, side) && DataOf(f, t.client) == DataOf(f, side)
  {
    DataFromData(f, t.client);
    DataFromData(f, t.local);
    DataFromData(f, t.hedge);
    assert t.queue == [] ==> t.taken + t.queue == t.taken;
  }

  // ---- A client that leaves --------------------------------------------------------------------

  lemma {:induction false} LeaverStaysAway<C>(f: Framing<C>, s: State<C>, es: seq<Event<C>>)
    requires !s.clientOpen
    ensures !Run(f, s, es).clientOpen
    decreases |es|
  {
    if es != [] {
      OneStepAway(f, s, es[0]);
      LeaverStaysAway(f, Step(f, s, es[0]), es[1..]);
    }
  }

  lemma OneStepAway<C>(f: Framing<C>, s: State<C>, e: Event<C>)
    requires !s.clientOpen
    ensures !Step(f, s, e).clientOpen
  {
  }

  lemma {:induction false} RunSnoc<C>(f: Framing<C>, s: State<C>, es: seq<Event<C>>, e: Event<C>)
    ensures Run(f, s, es + [e]) == Step(f, Run(f, s, es), e)
    decreases |es|
  {
    if es == [] {
      assert [] + [e] == [e] && [e][1..] == [];
      assert Run(f, Step(f, s, e), []) == Step(f, s, e);
    } else {
      HeadTail(es, [e]);
      RunSnoc(f, Step(f, s, es[0]), es[1..], e);
    }
  }

  /** In every run, after the client has left, a keepalive tick finds the task over, or ends it, if
      and only if the task is not draining. */
  lemma TickNotices<C>(f: Framing<C>, s: State<C>, more: seq<Event<C>>, k: nat)
    requires !s.clientOpen && k < |more| && more[k].KeepAliveTick?
    ensures Run(f, s, more[..k + 1]).phase == Done <==> Run(f, s, more[..k]).phase != Draining
  {
    LeaverStaysAway(f, s, more[..k]);
    RunSnoc(f, s, more[..k], more[k]);
    assert more[..k + 1] == more[..k] + [more[k]];
  }

  /** There is something to receive: a chunk or the end of the channel. */
  predicate Ready<C>(s: State<C>) { s.queue != [] || s.sender != HedgeTask }

  /** A receive comes after there is something to receive. */
  predicate Received<C>(ready: bool, es: seq<Event<C>>)
    decreases |es|
  {
    && es != []
    && ((ready && es[0].HedgeRecv?) || Received(ready || es[0].HedgeSends? || es[0].HedgeEnds?, es[1..]))
  }

  lemma {:induction false} DoneStays<C>(f: Framing<C>, s: State<C>, es: seq<Event<C>>)
    requires s.phase == Done
    ensures Run(f, s, es).phase == Done
    decreases |es|
  {
    if es != [] { DoneStays(f, Step(f, s, es[0]), es[1..]); }
  }

  /** One event of a drain whose client has left. */
  lemma LeftStep<C>(f: Framing<C>, s: State<C>, e: Event<C>)
    requires s.phase == Draining && !s.clientOpen && s.sender != Parent
    ensures var t := Step(f, s, e);
            && t.phase == (if Ready(s) && e.HedgeRecv? then Done else Draining)
            && !t.clientOpen && t.sender != Parent
            && (t.phase == Draining ==> (Ready(t) <==> Ready(s) || e.HedgeSends? || e.HedgeEnds?))
  {
  }

  lemma {:induction false} LeftRun<C>(f: Framing<C>, s: State<C>, es: seq<Event<C>>)
    requires s.phase == Draining && !s.clientOpen && s.sender != Parent
    ensures Run(f, s, es).phase == if Received(Ready(s), es) then Done else Draining
    decreases |es|
  {
    if es != [] {
      var t := Step(f, s, es[0]);
      LeftStep(f, s, es[0]);
      if t.phase == Done {
        DoneStays(f, t, es[1..]);
      } else {
        LeftRun(f, t, es[1..]);
      }
    }
  }

  /** In every run that drains after its client has left, whatever happens next, the task ends if
      and only if a hedge chunk or the hedge's end is received: ticks do not help. */
  lemma DrainLeaver<C>(f: Framing<C>, plan: bool, es: seq<Event<C>>, more: seq<Event<C>>)
    requires Sound(f)
    requires var s := Run(f, Initial(plan), es); s.phase == Draining && !s.clientOpen
    ensures var s := Run(f, Initial(plan), es); Run(f, s, more).phase == Done <==> Received(Ready(s), more)
  {
    Reachable(f, plan, es);
    LeftRun(f, Run(f, Initial(plan), es), more);
  }

  lemma {:induction false} SilenceIsNotReceived<C>(es: seq<Event<C>>)
    requires forall e :: e in es ==> !e.HedgeSends? && !e.HedgeEnds?
    ensures !Received(false, es)
  {
    if es != [] {
      assert es[0] in es;
      SilenceIsNotReceived(es[1..]);
    }
  }

  /** So a task whose local side has ended holds its in-flight slot, although its client is gone, for
      as long as the hedge is silent. */
  lemma SilentHedgeHoldsSlot<C>(f: Framing<C>, more: seq<Event<C>>)
    requires forall e :: e in more ==> !e.HedgeSends? && !e.HedgeEnds?
    ensures Run(f, Run(f, Initial(true), [HedgeTimer, LocalEnd, ClientLeaves]), more).phase == Draining
  {
    var s1 := Step(f, Initial(true), HedgeTimer);
    var s2 := Step(f, s1, LocalEnd);
    var s3 := Step(f, s2, ClientLeaves);
    var es: seq<Event<C>> := [HedgeTimer, LocalEnd, ClientLeaves];
    assert es[1..] == [LocalEnd, ClientLeaves] && es[1..][1..] == [ClientLeaves] && es[1..][1..][1..] == [];
    assert Run(f, s2, [ClientLeaves]) == s3;
    assert Run(f, s1, es[1..]) == s3;
    SilenceIsNotReceived(more);
    LeftRun(f, s3, more);
  }

  // ---- What stands in front of the answer ----------------------------------------------------

  datatype Origin = ByLocal | ByHedge | ByTask

  /** What a run leaves behind: the chunks delivered before the first data chunk, with their
      origin, and the local chunks that arrived while the race was open. */
  datatype Past<C> = Past(lead: seq<(Origin, C)>, early: seq<C>)

  function OriginOf<C>(e: Event<C>): Origin {
    if e.LocalChunk? then ByLocal else if e.HedgeRecv? then ByHedge else ByTask
  }

  function Remember<C>(f: Framing<C>, s: State<C>, h: Past<C>, e: Event<C>): Past<C> {
    var t := Step(f, s, e);
    Past(if |t.client| > |s.client| && FromData(f, t.client) == []
         then h.lead + [(OriginOf(e), t.client[|t.client| - 1])] else h.lead,
         if e.LocalChunk? && s.phase == Looping && t.winner.Undecided? then h.early + [e.b] else h.early)
  }

  function PastOf<C>(f: Framing<C>, s: State<C>, h: Past<C>, es: seq<Event<C>>): Past<C>
    decreases |es|
  {
    if es == [] then h else PastOf(f, Step(f, s, es[0]), Remember(f, s, h, es[0]), es[1..])
  }

  function Chunks<C>(lead: seq<(Origin, C)>): seq<C> { seq(|lead|, i requires 0 <= i < |lead| => lead[i].1) }

  /** The chunks of one origin, in order. */
  function Part<C>(lead: seq<(Origin, C)>, o: Origin): seq<C> {
    if lead == [] then []
    else Part(lead[..|lead| - 1], o) + (if lead[|lead| - 1].0 == o then [lead[|lead| - 1].1] else [])
  }

  lemma PartSnoc<C>(lead: seq<(Origin, C)>, x: (Origin, C), o: Origin)
    ensures Part(lead + [x], o) == Part(lead, o) + (if x.0 == o then [x.1] else [])
    ensures Chunks(lead + [x]) == Chunks(lead) + [x.1]
  {
    assert (lead + [x])[..|lead|] == lead;
  }

  /** The lead holds no data, and from the task only keepalives. */
  ghost predicate Quiet<C>(f: Framing<C>, lead: seq<(Origin, C)>) {
    forall i :: 0 <= i < |lead| ==> !Has(f, lead[i].1) && (lead[i].0 == ByTask ==> lead[i].1 == f.keepAlive)
  }

  /** The client has its lead and then the answer; the local part of the lead is what arrived while
      the race was open, and hedge chunks stand in it only when an open race is drained. */
  ghost predicate Recalls<C>(f: Framing<C>, s: State<C>, h: Past<C>) {
    && Leads(f, s.client, h.lead)
    && EarlyLocal(s.winner, FromData(f, s.local), s.local, h.early)
    && Shares(s.phase, s.winner, s.hedgeStarted, s.localEnded, s.clientOpen, FromData(f, s.client) != [],
              h.lead, h.early)
  }

  /** The client's stream is the lead and the answer. */
  ghost predicate Leads<C>(f: Framing<C>, client: seq<C>, lead: seq<(Origin, C)>) {
    client == Chunks(lead) + FromData(f, client) && Quiet(f, lead)
  }

  /** Whose chunks stand in the lead. */
  ghost predicate Shares<C>(phase: Phase, winner: Race, started: bool, ended: bool, open: bool, answered: bool,
                            lead: seq<(Origin, C)>, early: seq<C>) {
    && (!winner.Undecided? && phase != Done ==> answered)
    && Part(lead, ByLocal) <= early
    && (phase != Done || open || answered ==> Part(lead, ByLocal) == early)
    && (Part(lead, ByHedge) != [] ==> ended && started && winner.Undecided?)
  }

  /** The local chunks of an open race: all of them while it is open, those before the first data
      chunk if the local side wins. */
  ghost predicate EarlyLocal<C>(winner: Race, answer: seq<C>, local: seq<C>, early: seq<C>) {
    && early <= local
    && (winner.Undecided? ==> early == local)
    && (winner.Local? ==> local == early + answer)
  }

  /** One delivered chunk. */
  lemma LeadGrows<C>(f: Framing<C>, client: seq<C>, lead: seq<(Origin, C)>, b: C, o: Origin)
    requires Leads(f, client, lead) && (o == ByTask ==> b == f.keepAlive)
    ensures Leads(f, client + [b], if FromData(f, client + [b]) == [] then lead + [(o, b)] else lead)
  {
    FromDataSnoc(f, client, b);
    PartSnoc(lead, (o, b), o);
    Assoc(Chunks(lead), FromData(f, client), [b]);
    assert FromData(f, client) == [] ==> Chunks(lead) + FromData(f, client) == Chunks(lead);
  }

  lemma RecallsKeepAlive<C>(f: Framing<C>, s: State<C>, h: Past<C>)
    requires Sound(f) && Inv(f, s) && Recalls(f, s, h) && s.phase == Looping
    ensures Recalls(f, OnKeepAlive(f, s), Remember(f, s, h, KeepAliveTick))
  {
    if s.clientOpen && s.winner.Undecided? {
      Beat(f, s, h);
      RecallsBeat(f, s, h);
    } else {
      NoBeat(f, s, h);
    }
  }

  /** A tick that sends nothing: the race is decided, or the client is gone. */
  lemma NoBeat<C>(f: Framing<C>, s: State<C>, h: Past<C>)
    requires Recalls(f, s, h) && s.phase == Looping && !(s.clientOpen && s.winner.Undecided?)
    ensures Recalls(f, OnKeepAlive(f, s), Remember(f, s, h, KeepAliveTick))
  {
    RecallsNothing(f, s, OnKeepAlive(f, s), h);
  }

  lemma RecallsBeat<C>(f: Framing<C>, s: State<C>, h: Past<C>)
    requires Recalls(f, s, h) && s.phase == Looping && s.winner.Undecided?
    requires FromData(f, s.client) == [] && FromData(f, s.client + [f.keepAlive]) == []
    ensures Recalls(f, s.(client := s.client + [f.keepAlive]), Past(h.lead + [(ByTask, f.keepAlive)], h.early))
  {
    LeadGrows(f, s.client, h.lead, f.keepAlive, ByTask);
    PartSnoc(h.lead, (ByTask, f.keepAlive), ByLocal);
    PartSnoc(h.lead, (ByTask, f.keepAlive), ByHedge);
  }

  /** A keepalive that is sent. */
  lemma Beat<C>(f: Framing<C>, s: State<C>, h: Past<C>)
    requires Sound(f) && Inv(f, s) && s.phase == Looping && s.clientOpen && s.winner.Undecided?
    ensures OnKeepAlive(f, s) == s.(client := s.client + [f.keepAlive])
    ensures FromData(f, s.client) == [] && FromData(f, s.client + [f.keepAlive]) == []
    ensures Remember(f, s, h, KeepAliveTick) == Past(h.lead + [(ByTask, f.keepAlive)], h.early)
  {
    FromDataSnoc(f, s.client, f.keepAlive);
  }

  lemma RecallsNothing<C>(f: Framing<C>, s: State<C>, t: State<C>, h: Past<C>)
    requires Recalls(f, s, h) && t.client == s.client && t.local == s.local && t.winner == s.winner
    requires (s.localEnded ==> t.localEnded) && (s.hedgeStarted ==> t.hedgeStarted)
    requires (s.phase == Done ==> t.phase == Done) && (t.clientOpen ==> s.clientOpen)
    ensures Recalls(f, t, h)
  {
  }

  lemma EarlyGrows<C>(f: Framing<C>, winner: Race, local: seq<C>, early: seq<C>, b: C)
    requires EarlyLocal(winner, FromData(f, local), local, early)
    requires (winner.Undecided? ==> FromData(f, local) == []) && (winner.Local? ==> FromData(f, local) != [])
    ensures var w := if winner.Undecided? && Has(f, b) then Local else winner;
            EarlyLocal(w, FromData(f, local + [b]), local + [b], if w.Undecided? then early + [b] else early)
  {
    FromDataSnoc(f, local, b);
    Assoc(early, FromData(f, local), [b]);
  }

  /** What is remembered of a local chunk. */
  lemma RememberLocal<C>(f: Framing<C>, s: State<C>, h: Past<C>, b: C)
    requires s.phase == Looping
    ensures var w := if s.winner.Undecided? && Has(f, b) then Local else s.winner;
            Remember(f, s, h, LocalChunk(b)) ==
            Past(if !w.Hedge? && s.clientOpen && FromData(f, s.client + [b]) == []
                 then h.lead + [(ByLocal, b)] else h.lead,
                 if w.Undecided? then h.early + [b] else h.early)
  {
    LocalParts(f, s, b);
  }

  /** A local chunk that is not delivered: the hedge has won, or the client is gone. */
  lemma RecallsLocalLost<C>(f: Framing<C>, s: State<C>, h: Past<C>, b: C)
    requires Inv(f, s) && Recalls(f, s, h) && s.phase == Looping && (s.winner.Hedge? || !s.clientOpen)
    ensures Recalls(f, OnLocalChunk(f, s, b), Remember(f, s, h, LocalChunk(b)))
  {
    LocalParts(f, s, b);
    RememberLocal(f, s, h, b);
    EarlyGrows(f, s.winner, s.local, h.early, b);
  }

  lemma RecallsLocalSent<C>(f: Framing<C>, s: State<C>, h: Past<C>, b: C)
    requires Inv(f, s) && Recalls(f, s, h) && s.phase == Looping && !s.winner.Hedge? && s.clientOpen
    ensures Recalls(f, OnLocalChunk(f, s, b), Remember(f, s, h, LocalChunk(b)))
  {
    LocalParts(f, s, b);
    RememberLocal(f, s, h, b);
    EarlyGrows(f, s.winner, s.local, h.early, b);
    FromDataSnoc(f, s.client, b);
    LeadGrows(f, s.client, h.lead, b, ByLocal);
    PartSnoc(h.lead, (ByLocal, b), ByLocal);
    PartSnoc(h.lead, (ByLocal, b), ByHedge);
  }

  /** A hedge chunk that decides the race or follows the decision. */
  lemma RecallsHedgeSent<C>(f: Framing<C>, s: State<C>, t: State<C>, h: Past<C>, b: C)
    requires Recalls(f, s, h) && s.phase == Looping && !s.localEnded
    requires t.winner.Hedge? && t.hedgeStarted && t.local == s.local
    requires (s.winner.Undecided? && Has(f, b)) || s.winner.Hedge?
    requires t.client == (if s.clientOpen then s.client + [b] else s.client) && t.clientOpen == s.clientOpen
    requires t.phase == (if s.clientOpen then Looping else Done)
    ensures Recalls(f, t, h) && (s.clientOpen ==> FromData(f, t.client) != [])
  {
    FromDataSnoc(f, s.client, b);
    LeadGrows(f, s.client, h.lead, b, ByHedge);
  }

  lemma RecallsHedgeRecv<C>(f: Framing<C>, s: State<C>, h: Past<C>)
    requires Inv(f, s) && Recalls(f, s, h) && s.phase == Looping
    ensures Recalls(f, OnHedgeRecv(f, s), Remember(f, s, h, HedgeRecv))
  {
    var t := OnHedgeRecv(f, s);
    if s.hedgeStarted && s.queue != [] {
      HedgeParts(f, s);
    }
    if s.hedgeStarted && s.queue != [] && t.winner.Hedge? {
      RecallsHedgeSent(f, s, t, h, s.queue[0]);
    } else {
      RecallsNothing(f, s, t, h);
    }
  }

  lemma RecallsDrain<C>(f: Framing<C>, s: State<C>, h: Past<C>)
    requires Inv(f, s) && Recalls(f, s, h) && s.phase == Draining
    ensures Recalls(f, OnDrain(s), Remember(f, s, h, HedgeRecv))
  {
    if s.queue != [] && s.clientOpen {
      DrainSent(f, s, h, s.queue[0]);
      RecallsDrained(f, s, OnDrain(s), h, s.queue[0]);
    } else {
      RecallsNothing(f, s, OnDrain(s), h);
    }
  }

  /** What is remembered of a drained chunk. */
  lemma DrainSent<C>(f: Framing<C>, s: State<C>, h: Past<C>, b: C)
    requires s.phase == Draining && s.queue != [] && s.clientOpen && b == s.queue[0]
    ensures OnDrain(s).client == s.client + [b]
    ensures Remember(f, s, h, HedgeRecv) ==
            Past(if FromData(f, s.client + [b]) == [] then h.lead + [(ByHedge, b)] else h.lead, h.early)
  {
  }

  lemma RecallsDrained<C>(f: Framing<C>, s: State<C>, t: State<C>, h: Past<C>, b: C)
    requires Recalls(f, s, h) && s.phase == Draining && s.localEnded && s.hedgeStarted && !s.winner.Local?
    requires t.client == s.client + [b] && t.local == s.local && t.winner == s.winner && t.phase == Draining
    requires t.localEnded && t.hedgeStarted
    ensures Recalls(f, t, Past(if FromData(f, s.client + [b]) == [] then h.lead + [(ByHedge, b)] else h.lead, h.early))
  {
    FromDataSnoc(f, s.client, b);
    LeadGrows(f, s.client, h.lead, b, ByHedge);
    PartSnoc(h.lead, (ByHedge, b), ByLocal);
    PartSnoc(h.lead, (ByHedge, b), ByHedge);
  }

  /** Events that deliver nothing and bring no local chunk change nothing remembered. */
  lemma RememberNothing<C>(f: Framing<C>, s: State<C>, h: Past<C>, e: Event<C>)
    requires s.phase == Looping ==> FromOutside(e) || e.LocalEnd? || e.HedgeTimer?
    requires s.phase == Draining ==> !e.HedgeRecv?
    ensures var t := Step(f, s, e);
            && Remember(f, s, h, e) == h && t.client == s.client && t.local == s.local && t.winner == s.winner
            && (s.localEnded ==> t.localEnded) && (s.hedgeStarted ==> t.hedgeStarted)
            && (s.phase == Done ==> t.phase == Done) && (t.clientOpen ==> s.clientOpen)
  {
  }

  /** The events that concern the client's stream. */
  lemma RecallsLoop<C>(f: Framing<C>, s: State<C>, h: Past<C>, e: Event<C>)
    requires Sound(f) && Inv(f, s) && Recalls(f, s, h) && s.phase == Looping
    requires e.LocalChunk? || e.HedgeRecv? || e.KeepAliveTick?
    ensures Recalls(f, OnLoop(f, s, e), Remember(f, s, h, e))
  {
    if e.HedgeRecv? {
      RecallsHedgeRecv(f, s, h);
    } else if e.KeepAliveTick? {
      RecallsKeepAlive(f, s, h);
    } else if s.winner.Hedge? || !s.clientOpen {
      RecallsLocalLost(f, s, h, e.b);
    } else {
      RecallsLocalSent(f, s, h, e.b);
    }
  }

  lemma RecallsStep<C>(f: Framing<C>, s: State<C>, h: Past<C>, e: Event<C>)
    requires Sound(f) && Inv(f, s) && Recalls(f, s, h)
    ensures Recalls(f, Step(f, s, e), Remember(f, s, h, e))
  {
    if s.phase == Looping && (e.LocalChunk? || e.HedgeRecv? || e.KeepAliveTick?) {
      RecallsLoop(f, s, h, e);
    } else if s.phase == Draining && e.HedgeRecv? {
      RecallsDrain(f, s, h);
    } else {
      RecallsOther(f, s, h, e);
    }
  }

  lemma RecallsOther<C>(f: Framing<C>, s: State<C>, h: Past<C>, e: Event<C>)
    requires Recalls(f, s, h)
    requires s.phase == Looping ==> FromOutside(e) || e.LocalEnd? || e.HedgeTimer?
    requires s.phase == Draining ==> !e.HedgeRecv?
    ensures Recalls(f, Step(f, s, e), Remember(f, s, h, e))
  {
    RememberNothing(f, s, h, e);
    RecallsNothing(f, s, Step(f, s, e), h);
  }

  lemma {:induction false} RecallsRun<C>(f: Framing<C>, s: State<C>, h: Past<C>, es: seq<Event<C>>)
    requires Sound(f) && Inv(f, s) && Recalls(f, s, h)
    ensures Recalls(f, Run(f, s, es), PastOf(f, s, h, es))
    decreases |es|
  {
    if es != [] {
      StepKeeps(f, s, es[0]);
      RecallsStep(f, s, h, es[0]);
      RecallsRun(f, Step(f, s, es[0]), Remember(f, s, h, es[0]), es[1..]);
    }
  }

  /** In every run the client's stream is a lead without data and then a prefix of one side's answer.
      The lead holds only keepalives, local chunks that arrived while the race was open, and, if an
      open race was drained, hedge chunks without data. Once there is an answer the local part of
      the lead is exactly the local chunks of the open race, so a hedge's answer has local chunks in
      front of it if and only if the local side yielded one before the race was decided. */
  lemma BeforeTheAnswer<C>(f: Framing<C>, plan: bool, es: seq<Event<C>>)
    requires Sound(f)
    ensures var s := Run(f, Initial(plan), es);
            var h := PastOf(f, Initial(plan), Past([], []), es);
            && s.client == Chunks(h.lead) + FromData(f, s.client) && Quiet(f, h.lead)
            && Part(h.lead, ByLocal) <= h.early <= s.local
            && (FromData(f, s.client) != [] ==> Part(h.lead, ByLocal) == h.early)
            && (Part(h.lead, ByHedge) != [] ==> s.localEnded && s.hedgeStarted && s.winner.Undecided?)
            && (s.winner.Undecided? ==> h.early == s.local)
  {
    Reachable(f, plan, es);
    RecallsRun(f, Initial(plan), Past([], []), es);
  }

  // ---- The task object --------------------------------------------------------------------------

  /** The variables of the stream task and the channels it owns. */
  class StreamTask<C> {
    const framing: Framing<C>
    const plan: bool
    var phase: Phase
    var winner: Race
    var hedgeStarted: bool
    var sender: Sender
    var queue: seq<C>
    var client: seq<C>
    var clientOpen: bool
    var localEnded: bool
    var hedges: nat
    ghost var local: seq<C>
    ghost var hedge: seq<C>
    ghost var taken: seq<C>

    ghost function View(): State<C>
      reads this
    {
      State(plan, phase, winner, hedgeStarted, sender, local, localEnded, hedge, taken, queue,
            client, clientOpen, hedges)
    }

    constructor (f: Framing<C>, p: bool)
      ensures framing == f && View() == Initial(p)
    {
      framing, plan := f, p;
      phase, winner, hedgeStarted, sender := Looping, Undecided, false, Parent;
      queue, client, clientOpen, localEnded, hedges := [], [], true, false, 0;
      local, hedge, taken := [], [], [];
    }

    method Send(b: C)
      modifies this
      ensures View() == Deliver(old(View()), b)
    {
      if clientOpen {
        client := client + [b];
      } else {
        phase := Done;
      }
    }

    method LocalArm(b: C)
      modifies this
      ensures View() == OnLocalChunk(framing, old(View()), b)
    {
      local := local + [b];
      if winner.Undecided? && Has(framing, b) {
        winner := Local;
      }
      if !winner.Hedge? {
        Send(b);
      }
    }

    method LocalEndArm()
      modifies this
      ensures View() == OnLocalEnd(old(View()))
    {
      localEnded := true;
      if winner.Local? || !hedgeStarted {
        phase := Done;
      } else if sender == NoSender && queue == [] {
        phase := Done;
      } else {
        phase := Draining;
      }
    }

    method HedgeArm()
      modifies this
      ensures View() == OnHedgeRecv(framing, old(View()))
    {
      if hedgeStarted && queue != [] {
        var b := queue[0];
        taken, queue := taken + [b], queue[1..];
        if winner.Undecided? && Has(framing, b) {
          winner := Hedge;
        }
        if winner.Hedge? {
          Send(b);
        }
      }
    }

    method TimerArm()
      modifies this
      ensures View() == OnHedgeTimer(old(View()))
    {
      if !hedgeStarted && winner.Undecided? && plan {
        hedgeStarted := true;
        if sender == Parent {
          sender := HedgeTask;
          hedges := hedges + 1;
        }
      }
    }

    method KeepAliveArm()
      modifies this
      ensures View() == OnKeepAlive(framing, old(View()))
    {
      if !clientOpen {
        phase := Done;
      } else if winner.Undecided? {
        Send(framing.keepAlive);
      }
    }

    method DrainTurn()
      modifies this
      ensures View() == OnDrain(old(View()))
    {
      if queue != [] {
        var b := queue[0];
        taken, queue := taken + [b], queue[1..];
        Send(b);
      } else if sender == NoSender {
        phase := Done;
      }
    }

    method OutsideStep(e: Event<C>)
      requires FromOutside(e)
      modifies this
      ensures View() == Step(framing, old(View()), e)
    {
      if e.HedgeSends? {
        if sender == HedgeTask && phase == Done {
          sender := NoSender;
        } else if sender == HedgeTask {
          hedge, queue := hedge + [e.c], queue + [e.c];
        }
      } else if e.HedgeEnds? {
        if sender == HedgeTask {
          sender := NoSender;
        }
      } else {
        clientOpen := false;
      }
    }

    method React(e: Event<C>)
      modifies this
      ensures View() == Step(framing, old(View()), e)
    {
      if FromOutside(e) {
        OutsideStep(e);
      } else if phase == Draining {
        if e.HedgeRecv? {
          DrainTurn();
        }
      } else if phase == Looping {
        if e.LocalChunk? {
          LocalArm(e.b);
        } else if e.LocalEnd? {
          LocalEndArm();
        } else if e.HedgeRecv? {
          HedgeArm();
        } else if e.HedgeTimer? {
          TimerArm();
        } else {
          KeepAliveArm();
        }
      }
    }

    /** The loop, driven by any sequence of events. */
    method Drive(es: seq<Event<C>>)
      modifies this
      ensures View() == Run(framing, old(View()), es)
    {
      for i := 0 to |es|
        invariant Run(framing, View(), es[i..]) == Run(framing, old(View()), es)
      {
        assert es[i..][0] == es[i] && es[i..][1..] == es[i + 1..];
        React(es[i]);
      }
    }
  }

  // ---- Event streams ----------------------------------------------------------------------------

  const Sse: Framing<SseFrames.Chunk> := Framing((c: SseFrames.Chunk) => SseFrames.HasDataFrame(c), SseFrames.KeepAlive)

  lemma SseIsSound()
    ensures Sound(Sse)
  {
    SseFrames.KeepAliveHasNoData();
  }

  lemma FourSteps<C>(f: Framing<C>, s: State<C>, a: Event<C>, b: Event<C>, c: Event<C>, d: Event<C>)
    ensures Run(f, s, [a, b, c, d]) == Step(f, Step(f, Step(f, Step(f, s, a), b), c), d)
  {
    assert [a, b, c, d][1..] == [b, c, d] && [b, c, d][1..] == [c, d] && [c, d][1..] == [d] && [d][1..] == [];
    var s1 := Step(f, s, a);
    var s2 := Step(f, s1, b);
    var s3 := Step(f, s2, c);
    assert Run(f, s3, [d]) == Step(f, s3, d);
    assert Run(f, s2, [c, d]) == Run(f, s3, [d]);
    assert Run(f, s1, [b, c, d]) == Run(f, s2, [c, d]);
  }

  /** Any local chunk without data reaches the client although the hedge then wins. */
  lemma BothReachClient<C>(f: Framing<C>, a: C, b: C)
    requires !Has(f, a) && Has(f, b)
    ensures Run(f, Initial(true), [LocalChunk(a), HedgeTimer, HedgeSends(b), HedgeRecv]).client == [a, b]
  {
    FourSteps(f, Initial(true), LocalChunk(a), HedgeTimer, HedgeSends(b), HedgeRecv);
    var s1 := Step(f, Initial(true), LocalChunk(a));
    assert s1.client == [a] && s1.clientOpen && s1.winner.Undecided?;
    var s2 := Step(f, s1, HedgeTimer);
    assert s2.hedgeStarted && s2.sender == HedgeTask;
    var s3 := Step(f, s2, HedgeSends(b));
    assert s3.queue == [b] && s3.client == [a];
  }

  /** The guarantee is one of chunks: a local frame cut anywhere inside its field name leaves its
      first piece in the client's stream in front of the hedge's answer. */
  lemma SplitFrameReachesClient(r: nat, b: SseFrames.Chunk)
    requires 1 <= r <= 4 && Has(Sse, b)
    ensures var piece := SseFrames.Utf8("data:"[..r]);
            Run(Sse, Initial(true), [LocalChunk(piece), HedgeTimer, HedgeSends(b), HedgeRecv]).client == [piece, b]
  {
    SseFrames.PartOfNameIsNoData(r);
    BothReachClient(Sse, SseFrames.Utf8("data:"[..r]), b);
  }

  /** The guarantees for the program's own framing. */
  lemma SseGuarantees(plan: bool, es: seq<Event<SseFrames.Chunk>>, more: seq<Event<SseFrames.Chunk>>)
    ensures var s := Run(Sse, Initial(plan), es);
            var t := Run(Sse, s, more);
            var side := if s.winner.Local? || !s.hedgeStarted then s.local else s.hedge;
            && DataOf(Sse, s.client) <= DataOf(Sse, side) && s.hedges <= 1 && (s.hedges == 1 ==> plan)
            && (s.localEnded && s.sender != HedgeTask && Receives(more) > |s.queue| ==>
                  t.phase == Done && (t.clientOpen ==> DataOf(Sse, t.client) == DataOf(Sse, side)))
  {
    SseIsSound();
    NeverAMix(Sse, plan, es);
    Reachable(Sse, plan, es);
    PlanStays(Sse, Initial(plan), es);
    var s := Run(Sse, Initial(plan), es);
    if s.localEnded && s.sender != HedgeTask && Receives(more) > |s.queue| { TurnCompletes(Sse, plan, es, more); }
  }
}
