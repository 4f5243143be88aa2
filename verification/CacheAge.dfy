/** How old a served body can be, across any number of replicas and restarts sharing one Redis.
    Times are in milliseconds on one clock. */
module CacheAge {
  import opened Strings
  import opened Options
  import opened CacheBodies

  datatype Config = Config(hash: Digest, ttl: string -> nat)

  /** The expiry given to Redis: the whole seconds of the time-to-live, at least one. */
  function RedisLife(ttl: nat): nat { (if ttl / 1000 >= 1 then ttl / 1000 else 1) * 1000 }

  /** `born` is when the body was computed, `at` when it was put here, and `held` how long reads had
      it in their hands on the way, between finding or computing it and storing it. */
  datatype Entry = Entry(body: CachedBody, born: nat, at: nat, held: nat)

  datatype Payload = Payload(raw: string, born: nat, at: nat, held: nat)

  /** A read holding a body since `since`: computed (`computed`) or found in Redis. */
  datatype Hold = Hold(replica: nat, key: string, body: CachedBody, born: nat, since: nat, held: nat, computed: bool)

  datatype Served = Served(key: string, body: CachedBody, born: nat, at: nat, held: nat)

  datatype State = State(
    now: nat, l1: map<(nat, string), Entry>, l2: map<string, Payload>, holds: map<nat, Hold>, served: seq<Served>)

  function Initial(): State { State(0, map[], map[], map[], []) }

  datatype Step =
    | Tick(ms: nat)
    | Compute(r: nat, replica: nat, key: string, bytes: string)
    | StoreL2(r: nat)
    | GetL2(r: nat, replica: nat, key: string)
    | FillL1(r: nat)
    | ServeHeld(r: nat)
    | ServeL1(replica: nat, key: string)
    | Restart(replica: nat)
    | EvictL1(replica: nat, key: string)
    | EvictL2(key: string)

  /** The time a body has been held once its holder passes it on. */
  function HeldBy(s: State, h: Hold): nat { h.held + if s.now >= h.since then s.now - h.since else 0 }

  function OnGetL2(cfg: Config, s: State, r: nat, replica: nat, key: string): State {
    if key in s.l2 && s.now < s.l2[key].at + RedisLife(cfg.ttl(key)) then
      match DecodeL2(s.l2[key].raw)
      case None => s
      case Some(b) => s.(holds := s.holds[r := Hold(replica, key, b, s.l2[key].born, s.now, s.l2[key].held, false)])
    else s
  }

  function OnHold(s: State, e: Step): State
    requires e.StoreL2? || e.FillL1? || e.ServeHeld?
  {
    if e.r !in s.holds then s
    else
      var h := s.holds[e.r];
      if e.StoreL2? then
        if h.computed then s.(l2 := s.l2[h.key := Payload(EncodeL2(h.body), h.born, s.now, HeldBy(s, h))]) else s
      else if e.FillL1? then s.(l1 := s.l1[(h.replica, h.key) := Entry(h.body, h.born, s.now, HeldBy(s, h))])
      else s.(served := s.served + [Served(h.key, h.body, h.born, s.now, HeldBy(s, h))])
  }

  function OnServeL1(cfg: Config, s: State, replica: nat, key: string): State {
    if (replica, key) in s.l1 && s.now < s.l1[(replica, key)].at + cfg.ttl(key) then
      var x := s.l1[(replica, key)];
      s.(served := s.served + [Served(key, x.body, x.born, s.now, x.held)])
    else s
  }

  function Apply(cfg: Config, s: State, e: Step): State {
    if e.Tick? then s.(now := s.now + e.ms)
    else if e.Compute? then
      s.(holds := s.holds[e.r := Hold(e.replica, e.key, NewBody(cfg.hash, e.bytes), s.now, s.now, 0, true)])
    else if e.GetL2? then OnGetL2(cfg, s, e.r, e.replica, e.key)
    else if e.StoreL2? || e.FillL1? || e.ServeHeld? then OnHold(s, e)
    else if e.ServeL1? then OnServeL1(cfg, s, e.replica, e.key)
    else if e.Restart? then s.(l1 := map k | k in s.l1 && k.0 != e.replica :: s.l1[k])
    else if e.EvictL1? then s.(l1 := s.l1 - {(e.replica, e.key)})
    else s.(l2 := s.l2 - {e.key})
  }

  function Run(cfg: Config, s: State, es: seq<Step>): State
    decreases |es|
  {
    if es == [] then s else Run(cfg, Apply(cfg, s, es[0]), es[1..])
  }

  // ---- The invariant ------------------------------------------------------------------

  predicate GoodPayload(cfg: Config, now: nat, p: Payload) {
    && p.at == p.born + p.held <= now
    && DecodeL2(p.raw).Some? && Tagged(cfg.hash, DecodeL2(p.raw).value)
  }

  predicate GoodHold(cfg: Config, now: nat, h: Hold) {
    && h.born <= h.since <= now && Tagged(cfg.hash, h.body)
    && (if h.computed then h.since == h.born && h.held == 0 else h.since < h.born + RedisLife(cfg.ttl(h.key)) + h.held)
  }

  predicate GoodEntry(cfg: Config, now: nat, key: string, x: Entry) {
    && x.born <= x.at <= now && Tagged(cfg.hash, x.body)
    && x.at < x.born + RedisLife(cfg.ttl(key)) + x.held
  }

  /** Younger than time-to-live plus Redis expiry plus the time it was held; and tagged. */
  predicate GoodServed(cfg: Config, v: Served) {
    && v.born <= v.at < v.born + cfg.ttl(v.key) + RedisLife(cfg.ttl(v.key)) + v.held
    && Tagged(cfg.hash, v.body)
  }

  ghost predicate Inv(cfg: Config, s: State) {
    && (forall k :: k in s.l1 ==> GoodEntry(cfg, s.now, k.1, s.l1[k]))
    && (forall k :: k in s.l2 ==> GoodPayload(cfg, s.now, s.l2[k]))
    && (forall r :: r in s.holds ==> GoodHold(cfg, s.now, s.holds[r]))
    && (forall i :: 0 <= i < |s.served| ==> GoodServed(cfg, s.served[i]))
  }

  lemma HoldKeeps(cfg: Config, s: State, e: Step)
    requires HexDigest(cfg.hash) && Inv(cfg, s) && (e.StoreL2? || e.FillL1? || e.ServeHeld?)
    ensures Inv(cfg, OnHold(s, e))
  {
    if e.r in s.holds {
      TaggedRoundTrip(cfg.hash, s.holds[e.r].body);
    }
  }

  lemma GetKeeps(cfg: Config, s: State, r: nat, replica: nat, key: string)
    requires Inv(cfg, s)
    ensures Inv(cfg, OnGetL2(cfg, s, r, replica, key))
  {
  }

  lemma StepKeeps(cfg: Config, s: State, e: Step)
    requires HexDigest(cfg.hash) && Inv(cfg, s)
    ensures Inv(cfg, Apply(cfg, s, e))
  {
    if e.StoreL2? || e.FillL1? || e.ServeHeld? {
      HoldKeeps(cfg, s, e);
    } else if e.GetL2? {
      GetKeeps(cfg, s, e.r, e.replica, e.key);
    }
  }

  lemma {:induction false} RunKeeps(cfg: Config, s: State, es: seq<Step>)
    requires HexDigest(cfg.hash) && Inv(cfg, s)
    ensures Inv(cfg, Run(cfg, s, es))
    decreases |es|
  {
    if es != [] {
      StepKeeps(cfg, s, es[0]);
      RunKeeps(cfg, Apply(cfg, s, es[0]), es[1..]);
    }
  }

  /** Every body ever served, by any replica and across restarts, carries the digest of its own
      bytes and is younger than its time-to-live plus the Redis expiry plus the time reads held it
      between one place and the next. Nothing bounds how long a read takes. */
  lemma BoundedAge(cfg: Config, es: seq<Step>, i: nat)
    requires HexDigest(cfg.hash) && i < |Run(cfg, Initial(), es).served|
    ensures var v := Run(cfg, Initial(), es).served[i];
            && v.at - v.born < cfg.ttl(v.key) + RedisLife(cfg.ttl(v.key)) + v.held
            && v.body.etag == Tag(cfg.hash, v.body.bytes)
  {
    RunKeeps(cfg, Initial(), es);
    assert GoodServed(cfg, Run(cfg, Initial(), es).served[i]);
  }

  /** So a visible list of tags gets a 304 for a served body exactly when it names the digest of the
      body's bytes. */
  lemma NotModifiedIsCurrent(cfg: Config, es: seq<Step>, i: nat, tags: seq<string>, pads: seq<(string, string)>)
    requires HexDigest(cfg.hash) && i < |Run(cfg, Initial(), es).served| && Listed(tags, pads)
    ensures var b := Run(cfg, Initial(), es).served[i].body;
            var header := JoinOn(Padded(tags, pads), ',');
            Respond(b, Some(header)).NotModified? <==> Visible(header) && Tag(cfg.hash, b.bytes) in tags
  {
    BoundedAge(cfg, es, i);
    ConditionalExact(cfg.hash, Run(cfg, Initial(), es).served[i].body, tags, pads);
  }

  // ---- The bound is met --------------------------------------------------------------------

  /** A read that finds the body in Redis just before it expires there restarts the clock: with
      no holding time at all a body can be served at two milliseconds under the bound, so well
      past its time-to-live. */
  lemma BoundIsTight(cfg: Config, key: string, bytes: string) returns (es: seq<Step>)
    requires HexDigest(cfg.hash) && cfg.ttl(key) >= 1
    ensures var v := Run(cfg, Initial(), es).served;
            && |v| == 1 && v[0].key == key && v[0].held == 0
            && v[0].at - v[0].born == cfg.ttl(key) + RedisLife(cfg.ttl(key)) - 2
  {
    var life, ttl := RedisLife(cfg.ttl(key)), cfg.ttl(key);
    var body := NewBody(cfg.hash, bytes);
    TaggedRoundTrip(cfg.hash, body);
    Stored(cfg, key, bytes, life - 1);
    var s := Run(cfg, Initial(), [Compute(0, 0, key, bytes), StoreL2(0), Tick(life - 1)]);
    Promoted(cfg, s, key, body, ttl - 1);
    var more := [GetL2(1, 1, key), FillL1(1), Tick(ttl - 1), ServeL1(1, key)];
    es := [Compute(0, 0, key, bytes), StoreL2(0), Tick(life - 1)] + more;
    RunAppend(cfg, Initial(), [Compute(0, 0, key, bytes), StoreL2(0), Tick(life - 1)], more);
  }

  lemma {:induction false} RunAppend(cfg: Config, s: State, a: seq<Step>, b: seq<Step>)
    ensures Run(cfg, s, a + b) == Run(cfg, Run(cfg, s, a), b)
    decreases |a|
  {
    if a == [] {
      assert a + b == b;
    } else {
      HeadTail(a, b);
      RunAppend(cfg, Apply(cfg, s, a[0]), a[1..], b);
    }
  }

  /** Computing a body, storing it in Redis and waiting. */
  lemma Stored(cfg: Config, key: string, bytes: string, ms: nat)
    ensures Run(cfg, Initial(), [Compute(0, 0, key, bytes), StoreL2(0), Tick(ms)]) ==
            var body := NewBody(cfg.hash, bytes);
            State(ms, map[], map[key := Payload(EncodeL2(body), 0, 0, 0)],
                  map[0 := Hold(0, key, body, 0, 0, 0, true)], [])
  {
    var s1 := Apply(cfg, Initial(), Compute(0, 0, key, bytes));
    var s2 := Apply(cfg, s1, StoreL2(0));
    var es := [Compute(0, 0, key, bytes), StoreL2(0), Tick(ms)];
    assert es[1..][1..] == [Tick(ms)] && [Tick(ms)][1..] == [];
    assert Run(cfg, s2, [Tick(ms)]) == Apply(cfg, s2, Tick(ms));
    assert Run(cfg, s1, es[1..]) == Run(cfg, s2, [Tick(ms)]);
  }

  /** Finding a live body in Redis, caching it, waiting and serving it. */
  lemma Promoted(cfg: Config, s: State, key: string, body: CachedBody, ms: nat)
    requires key in s.l2 && s.l2[key] == Payload(EncodeL2(body), 0, 0, 0) && DecodeL2(EncodeL2(body)) == Some(body)
    requires s.now < RedisLife(cfg.ttl(key)) && ms < cfg.ttl(key) && s.served == []
    ensures Run(cfg, s, [GetL2(1, 1, key), FillL1(1), Tick(ms), ServeL1(1, key)]).served ==
            [Served(key, body, 0, s.now + ms, 0)]
  {
    FourSteps(cfg, s, GetL2(1, 1, key), FillL1(1), Tick(ms), ServeL1(1, key));
    Found(cfg, s, key, body);
    HeldIsServed(cfg, Apply(cfg, s, GetL2(1, 1, key)), key, body, ms);
  }

  lemma Found(cfg: Config, s: State, key: string, body: CachedBody)
    requires key in s.l2 && s.l2[key] == Payload(EncodeL2(body), 0, 0, 0) && DecodeL2(EncodeL2(body)) == Some(body)
    requires s.now < RedisLife(cfg.ttl(key))
    ensures var t := Apply(cfg, s, GetL2(1, 1, key));
            && 1 in t.holds && t.holds[1] == Hold(1, key, body, 0, s.now, 0, false)
            && t.now == s.now && t.served == s.served
  {
  }

  lemma HeldIsServed(cfg: Config, s: State, key: string, body: CachedBody, ms: nat)
    requires 1 in s.holds && s.holds[1] == Hold(1, key, body, 0, s.now, 0, false) && ms < cfg.ttl(key) && s.served == []
    ensures Apply(cfg, Apply(cfg, Apply(cfg, s, FillL1(1)), Tick(ms)), ServeL1(1, key)).served ==
            [Served(key, body, 0, s.now + ms, 0)]
  {
    var s2 := Apply(cfg, s, FillL1(1));
    assert s2.l1[(1, key)] == Entry(body, 0, s.now, 0) && s2.served == [];
  }

  lemma FourSteps(cfg: Config, s: State, a: Step, b: Step, c: Step, d: Step)
    ensures Run(cfg, s, [a, b, c, d]) == Apply(cfg, Apply(cfg, Apply(cfg, Apply(cfg, s, a), b), c), d)
  {
    var s1 := Apply(cfg, s, a);
    var s2 := Apply(cfg, s1, b);
    var s3 := Apply(cfg, s2, c);
    assert [a, b, c, d][1..] == [b, c, d] && [b, c, d][1..] == [c, d] && [c, d][1..] == [d] && [d][1..] == [];
    assert Run(cfg, s3, [d]) == Apply(cfg, s3, d);
    assert Run(cfg, s2, [c, d]) == Run(cfg, s3, [d]);
    assert Run(cfg, s1, [b, c, d]) == Run(cfg, s2, [c, d]);
  }
}
