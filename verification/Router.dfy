/** Which requests reach OpenRouter, and with which model id. */
module Router {
  import opened Strings
  import opened Options
  import opened BackendPool
  import opened BackendOrder
  import opened InFlight
  import HS = HedgedStream
  import SseFrames

  // ---- Configuration ----------------------------------------------------------------------

  /** The configured map from local ids to OpenRouter ids, from its `local=remote;...` text. */
  function ModelMap(entries: seq<string>): map<string, string> {
    if entries == [] then map[]
    else
      var m := ModelMap(entries[..|entries| - 1]);
      match SplitOnce(Trim(entries[|entries| - 1]), '=')
      case None => m
      case Some(p) =>
        if Trim(p.0) == "" || Trim(p.1) == "" then m else m[Trim(p.0) := Trim(p.1)]
  }

  function ParseModelMap(text: string): map<string, string> { ModelMap(SplitOn(text, ';')) }

  datatype Config = Config(
    models: map<string, string>, url: string, maxConcurrency: nat, hedgeAfter: nat, shortTokens: nat)

  /** What parsing guarantees of the map. */
  predicate Clean(models: map<string, string>) {
    forall k :: k in models ==> k != "" && models[k] != "" && Trimmed(k) && Trimmed(models[k])
  }

  lemma {:induction false} TrimEndKeepsStart(s: string)
    requires s == "" || !IsSpace(s[0])
    ensures TrimEnd(s) == "" || !IsSpace(TrimEnd(s)[0])
  {
    if s != "" && IsSpace(s[|s| - 1]) { TrimEndKeepsStart(s[..|s| - 1]); }
  }

  lemma TrimTrims(s: string)
    ensures Trimmed(Trim(s))
  {
    TrimEndKeepsStart(TrimStart(s));
  }

  lemma {:induction false} MapIsClean(entries: seq<string>)
    ensures Clean(ModelMap(entries))
    decreases |entries|
  {
    if entries != [] {
      MapIsClean(entries[..|entries| - 1]);
      var x := SplitOnce(Trim(entries[|entries| - 1]), '=');
      if x.Some? {
        TrimTrims(x.value.0);
        TrimTrims(x.value.1);
      }
    }
  }

  // ---- Requests ------------------------------------------------------------------------------

  /** The `model` member of a request body. */
  datatype ModelField = Absent | NotAString | Text(s: string)

  function ModelOf(f: ModelField): Option<string> {
    if f.Text? && Trim(f.s) != "" then Some(Trim(f.s)) else None
  }

  predicate IsClaude(model: string) { StartsWith(Lower(model), "claude-") }

  predicate OpenRouterServes(c: Config, model: string) { c.url != "" && model in c.models }

  predicate CanOverflow(c: Config, model: Option<string>) { model.Some? && OpenRouterServes(c, model.value) }

  predicate MayUseMetered(role: string) { role == "admin" || role == "super_admin" || role == "local" }

  /** Hedging looks the field up as sent, untrimmed. */
  predicate ModelIsMapped(c: Config, f: ModelField) { f.Text? && f.s in c.models }

  function Rewrite(c: Config, f: ModelField): ModelField {
    var m := ModelOf(f);
    if m.Some? && m.value in c.models then Text(c.models[m.value]) else f
  }

  /** All backends are full, or all are down. */
  predicate Overflows(c: Config, vs: seq<View>) {
    || (c.maxConcurrency > 0 && forall i :: 0 <= i < |vs| ==> AtRoof(vs[i]))
    || (forall i :: 0 <= i < |vs| ==> !vs[i].healthy)
  }

  datatype Resolution = Refuse | OpenRouter | Local

  /** `resolve`, for a request whose candidate backends look like `vs`. */
  function Resolve(c: Config, model: Option<string>, role: string, vs: seq<View>): Resolution {
    if model.Some? && IsClaude(model.value) then Refuse
    else if vs != [] then
      if Overflows(c, vs) && CanOverflow(c, model) then OpenRouter else Local
    else if model.Some? && OpenRouterServes(c, model.value) then
      if MayUseMetered(role) then OpenRouter else Refuse
    else Refuse
  }

  // ---- What is sent upstream -------------------------------------------------------------------

  /** A request: its `model` member, its serialised length and its caller's role. */
  datatype Request = Request(model: ModelField, bytes: nat, role: string)

  predicate IsShort(c: Config, r: Request) { c.shortTokens != 0 && r.bytes / 4 < c.shortTokens }

  /** Four bytes count as one token. */
  lemma ShortExact(c: Config, r: Request)
    ensures IsShort(c, r) <==> r.bytes < 4 * c.shortTokens
  {
  }

  /** The backends of a request in the order they are tried, as they look to it. */
  function Views(c: Config, p: Pool, load: nat -> View, r: Request): seq<View> {
    var hs := BackendsFor(p, load, ModelOf(r.model), IsShort(c, r));
    seq(|hs|, i requires 0 <= i < |hs| => load(hs[i]))
  }

  datatype Route = Direct | Spill | Hedge

  /** A completion sent to OpenRouter with this `model` member. */
  datatype Send = Send(route: Route, model: ModelField)

  /** The first outcome that is not retried. */
  function FirstAnswer(os: seq<Outcome>): Option<Outcome> {
    if os == [] then None else if Retryable(os[0]) then FirstAnswer(os[1..]) else Some(os[0])
  }

  lemma {:induction false} NoAnswer(os: seq<Outcome>)
    ensures FirstAnswer(os).None? <==> forall i :: 0 <= i < |os| ==> Retryable(os[i])
  {
    if os != [] {
      NoAnswer(os[1..]);
      assert forall i :: 1 <= i < |os| ==> os[i] == os[1..][i - 1];
      assert forall i :: 0 <= i < |os| - 1 ==> os[1..][i] == os[i + 1];
    }
  }

  /** The JSON dispatcher; `os` are the outcomes of the local attempts. */
  function DispatchJson(c: Config, r: Request, vs: seq<View>, os: seq<Outcome>): seq<Send> {
    var m := ModelOf(r.model);
    match Resolve(c, m, r.role, vs)
    case Refuse => []
    case OpenRouter => [Send(Direct, Rewrite(c, r.model))]
    case Local =>
      if FirstAnswer(os).None? && m.Some? && OpenRouterServes(c, m.value)
      then [Send(Spill, Rewrite(c, r.model))]
      else []
  }

  /** When the stream task is given a hedge to send. */
  predicate HedgePlan(c: Config, f: ModelField) { c.hedgeAfter > 0 && c.url != "" && ModelIsMapped(c, f) }

  type StreamEvents = seq<HS.Event<SseFrames.Chunk>>

  /** The stream dispatcher; `es` is what happens to the stream task once a backend has connected.
      Every hedge the task issues is a send. */
  function DispatchStream(c: Config, r: Request, vs: seq<View>, os: seq<Outcome>, es: StreamEvents): seq<Send> {
    var m := ModelOf(r.model);
    match Resolve(c, m, r.role, vs)
    case Refuse => []
    case OpenRouter => [Send(Direct, Rewrite(c, r.model))]
    case Local =>
      match FirstAnswer(os)
      case None =>
        if OpenRouterServes(c, if m.Some? then m.value else "") then [Send(Spill, Rewrite(c, r.model))] else []
      case Some(o) =>
        if o.Replied? && o.code >= 400 then []
        else seq(HS.Run(HS.Sse, HS.Initial(HedgePlan(c, r.model)), es).hedges, _ => Send(Hedge, Rewrite(c, r.model)))
  }

  /** The model has a backend of its own, or the deployment has no roster and the primary serves
      every name. */
  predicate HasLocalBackend(p: Pool, model: string) {
    (model in p.byModel && p.byModel[model] != []) || (p.byModel == map[] && p.primary.Some?)
  }

  /** What must hold of anything sent upstream. */
  predicate Allowed(c: Config, p: Pool, r: Request, x: Send) {
    var m := ModelOf(r.model);
    && m.Some? && m.value in c.models && x.model == Text(c.models[m.value]) && c.url != ""
    && !IsClaude(m.value) && (MayUseMetered(r.role) || HasLocalBackend(p, m.value))
  }

  lemma MappedFieldIsTrimmed(c: Config, f: ModelField)
    requires Clean(c.models) && ModelIsMapped(c, f)
    ensures ModelOf(f) == Some(f.s)
  {
    TrimIdle(f.s);
  }

  /** A request sees a backend exactly when its model has one. */
  lemma ViewsExact(c: Config, p: Pool, load: nat -> View, r: Request)
    requires ModelOf(r.model).Some?
    ensures Views(c, p, load, r) != [] <==> HasLocalBackend(p, ModelOf(r.model).value)
  {
    BackendsExact(p, load, ModelOf(r.model), IsShort(c, r), 0);
  }

  /** The stream task of a request hedges at most once, and only with a plan. */
  lemma HedgesByPlan(c: Config, f: ModelField, es: StreamEvents)
    ensures var n := HS.Run(HS.Sse, HS.Initial(HedgePlan(c, f)), es).hedges;
            n <= 1 && (n == 1 ==> HedgePlan(c, f))
  {
    HS.SseGuarantees(HedgePlan(c, f), es, []);
  }

  /** In every deployment, whatever the load, the outcomes of the local attempts and the events of
      the stream: on every path at most one completion reaches OpenRouter, and only for a configured
      model that is not a Claude id, under that model's mapped id, and for a caller without a
      privileged role only if the model has a local backend. */
  lemma OpenRouterReachability(text: string, c: Config, p: Pool, load: nat -> View, r: Request,
                               os: seq<Outcome>, es: StreamEvents, x: Send)
    requires c.models == ParseModelMap(text)
    ensures var vs := Views(c, p, load, r);
            && |DispatchJson(c, r, vs, os)| <= 1 && |DispatchStream(c, r, vs, os, es)| <= 1
            && (x in DispatchJson(c, r, vs, os) || x in DispatchStream(c, r, vs, os, es) ==> Allowed(c, p, r, x))
  {
    MapIsClean(SplitOn(text, ';'));
    if ModelOf(r.model).Some? { ViewsExact(c, p, load, r); }
    JsonAllowed(c, p, r, Views(c, p, load, r), os, x);
    StreamAllowed(c, p, r, Views(c, p, load, r), os, es, x);
  }

  /** The views show a backend exactly when the model has one. */
  predicate Shows(p: Pool, f: ModelField, vs: seq<View>) {
    ModelOf(f).Some? ==> (vs != [] <==> HasLocalBackend(p, ModelOf(f).value))
  }

  lemma JsonAllowed(c: Config, p: Pool, r: Request, vs: seq<View>, os: seq<Outcome>, x: Send)
    requires Shows(p, r.model, vs)
    ensures |DispatchJson(c, r, vs, os)| <= 1 && (x in DispatchJson(c, r, vs, os) ==> Allowed(c, p, r, x))
  {
  }

  lemma StreamAllowed(c: Config, p: Pool, r: Request, vs: seq<View>, os: seq<Outcome>, es: StreamEvents, x: Send)
    requires Shows(p, r.model, vs) && Clean(c.models)
    ensures |DispatchStream(c, r, vs, os, es)| <= 1 && (x in DispatchStream(c, r, vs, os, es) ==> Allowed(c, p, r, x))
  {
    HedgesByPlan(c, r.model, es);
    if ModelIsMapped(c, r.model) { MappedFieldIsTrimmed(c, r.model); }
  }

  /** Every backend of the request is full, where roofs are configured, or every one is down. */
  predicate NoRoom(c: Config, vs: seq<View>) {
    (c.maxConcurrency > 0 && forall v :: v in vs ==> AtRoof(v)) || forall v :: v in vs ==> !v.healthy
  }

  /** Every attempt could not connect or was answered 503. */
  predicate AllFailed(os: seq<Outcome>) { forall i :: 0 <= i < |os| ==> os[i].Refused? || os[i].code == 503 }

  /** The id starts with `claude-`, in any case. */
  predicate ClaudeId(m: string) { |m| >= 7 && Lower(m[..7]) == "claude-" }

  lemma ClaudeExact(m: string)
    ensures IsClaude(m) <==> ClaudeId(m)
  {
    LowerAt(m);
    if |m| >= 7 { LowerPrefix(m, 7); }
  }

  /** And the JSON path does reach it: exactly for such a model when no backend is local and the
      caller is privileged, when all of them are full or down, or when every attempt failed. */
  lemma JsonReachesExactly(c: Config, p: Pool, load: nat -> View, r: Request, os: seq<Outcome>)
    requires |os| == |Views(c, p, load, r)|
    ensures var m, vs := ModelOf(r.model), Views(c, p, load, r);
            DispatchJson(c, r, vs, os) != [] <==>
              && m.Some? && m.value in c.models && c.url != "" && !ClaudeId(m.value)
              && (if HasLocalBackend(p, m.value) then NoRoom(c, vs) || AllFailed(os)
                  else r.role in {"admin", "super_admin", "local"})
  {
    NoAnswer(os);
    if ModelOf(r.model).Some? { ClaudeExact(ModelOf(r.model).value); }
    if ModelOf(r.model).Some? { ViewsExact(c, p, load, r); }
  }

  /** A request with a healthy backend that has room, and an answer, stays local. */
  lemma RoomStaysLocal(c: Config, p: Pool, load: nat -> View, r: Request, os: seq<Outcome>, v: View)
    requires ModelOf(r.model).Some? && HasLocalBackend(p, ModelOf(r.model).value)
    requires |os| == |Views(c, p, load, r)| && v in Views(c, p, load, r)
    requires v.healthy && HasRoom(v) && v.conf.max < 0x8000_0000 && v.conf.queueRoof < 0x8000_0000
    requires os[0].Replied? && os[0].code != 503
    ensures DispatchJson(c, r, Views(c, p, load, r), os) == []
  {
    AtRoofExact(v);
    JsonReachesExactly(c, p, load, r, os);
    assert !AllFailed(os);
  }

  /** A backend connected and its stream task was hedged. */
  predicate Hedged(c: Config, r: Request, os: seq<Outcome>, es: StreamEvents) {
    var o := FirstAnswer(os);
    var plan := c.hedgeAfter > 0 && c.url != "" && r.model.Text? && r.model.s in c.models;
    && o.Some? && o.value.Replied? && o.value.code < 400
    && HS.Run(HS.Sse, HS.Initial(plan), es).hedges == 1
  }

  /** The stream path reaches it exactly then, or when a backend that connected is hedged. */
  lemma StreamReachesExactly(text: string, c: Config, p: Pool, load: nat -> View, r: Request,
                             os: seq<Outcome>, es: StreamEvents)
    requires c.models == ParseModelMap(text) && |os| == |Views(c, p, load, r)|
    ensures var m, vs := ModelOf(r.model), Views(c, p, load, r);
            DispatchStream(c, r, vs, os, es) != [] <==>
              && m.Some? && m.value in c.models && c.url != "" && !ClaudeId(m.value)
              && (if HasLocalBackend(p, m.value) then NoRoom(c, vs) || AllFailed(os) || Hedged(c, r, os, es)
                  else r.role in {"admin", "super_admin", "local"})
  {
    NoAnswer(os);
    if ModelOf(r.model).Some? { ClaudeExact(ModelOf(r.model).value); }
    MapIsClean(SplitOn(text, ';'));
    if ModelOf(r.model).Some? { ViewsExact(c, p, load, r); }
    StreamSends(c, r, Views(c, p, load, r), os, es);
  }

  lemma StreamSends(c: Config, r: Request, vs: seq<View>, os: seq<Outcome>, es: StreamEvents)
    requires Clean(c.models)
    ensures var m := ModelOf(r.model);
            DispatchStream(c, r, vs, os, es) != [] <==>
              && m.Some? && m.value in c.models && c.url != "" && !IsClaude(m.value)
              && (if vs != [] then Overflows(c, vs) || FirstAnswer(os).None? || Hedged(c, r, os, es)
                  else MayUseMetered(r.role))
  {
    AnswerReplied(os);
    HedgesByPlan(c, r.model, es);
    if ModelIsMapped(c, r.model) { MappedFieldIsTrimmed(c, r.model); }
  }

  lemma {:induction false} AnswerReplied(os: seq<Outcome>)
    ensures FirstAnswer(os).Some? ==> FirstAnswer(os).value.Replied?
  {
    if os != [] { AnswerReplied(os[1..]); }
  }

  /** A request that could overflow and stays local is tried first on a healthy backend, and on a
      full one only if every backend below its roof is down. */
  lemma StayingLocalIsUsable(c: Config, model: Option<string>, role: string, vs: seq<View>, short: bool)
    requires Resolve(c, model, role, vs) == Local && CanOverflow(c, model)
    ensures Order(vs, short) != []
    ensures var h := vs[Order(vs, short)[0]]; h.healthy
    ensures var h := vs[Order(vs, short)[0]]; AtRoof(h) ==> forall v :: v in vs && !AtRoof(v) ==> !v.healthy
  {
    HeadProperties(vs, short, 0);
    var h := Order(vs, short)[0];
    forall j | 0 <= j < |vs| ensures (!vs[h].healthy ==> !vs[j].healthy)
      && (vs[h].healthy && AtRoof(vs[h]) ==> vs[j].healthy ==> AtRoof(vs[j]))
    {
      HeadProperties(vs, short, j);
    }
  }

  /** The trimming of the configured keys is needed: with any untrimmed key whose trimmed form is not
      configured, a hedged request for that key sends the local id upstream as it is. */
  lemma UntrimmedKeyLeaks(c: Config, k: string, r: Request, vs: seq<View>, os: seq<Outcome>, es: StreamEvents)
    requires k in c.models && Trim(k) !in c.models && r.model == Text(k)
    requires Resolve(c, ModelOf(r.model), r.role, vs) == Local && Hedged(c, r, os, es)
    ensures DispatchStream(c, r, vs, os, es) == [Send(Hedge, Text(k))]
  {
    assert Rewrite(c, r.model) == Text(k);
  }

  /** And it can happen for every such key: with one connected backend, a hedge delay and a URL. */
  lemma UntrimmedKeyHedges(k: string, id: string, url: string)
    requires Trim(k) != k && !IsClaude(Trim(k)) && url != ""
    ensures var c, r := Config(map[k := id], url, 1, 1, 0), Request.Request(Text(k), 0, "");
            && Hedged(c, r, [Replied(200, true)], [HS.HedgeTimer])
            && forall vs :: vs != [] ==> Resolve(c, ModelOf(r.model), r.role, vs) == Local
  {
    var c, r := Config(map[k := id], url, 1, 1, 0), Request.Request(Text(k), 0, "");
    var s := HS.Initial<SseFrames.Chunk>(true);
    var e: HS.Event<SseFrames.Chunk> := HS.HedgeTimer;
    assert [e][1..] == [];
    assert HS.Run(HS.Sse, s, [e]) == HS.Step(HS.Sse, s, e);
    assert HedgePlan(c, r.model);
    assert FirstAnswer([Replied(200, true)]) == Some(Replied(200, true));
  }
}
