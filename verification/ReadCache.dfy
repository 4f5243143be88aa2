/** The response cache of one process under every interleaving of writers and readers. The
    database is a version number: commit number `c` makes version `c`. A cached body is
    represented by the version it was computed from. */
module ReadCache {
  import opened Strings
  import opened Options
  import opened CacheBodies

  /** `reverse` maps a table to the endpoints that read it; `hash` digests the parameters. */
  datatype Config = Config(reverse: map<string, set<string>>, hash: Digest)

  function Readers(cfg: Config, table: string): set<string> {
    if table in cfg.reverse then cfg.reverse[table] else {}
  }

  datatype Key = Key(id: string, gen: nat, canon: string)

  function RedisKey(cfg: Config, k: Key): string {
    "rc:v1:" + k.id + ":" + Dec(k.gen) + ":" + cfg.hash(k.canon)
  }

  /** A read: its key, the writes whose invalidation had returned when it took its generation,
      the version its compute saw and the version it answers with. */
  datatype Reader = Reader(key: Key, seen: set<(nat, string)>, snap: Option<nat>, result: Option<nat>)

  /** A committed write whose invalidation has not bumped all endpoints yet. */
  datatype Writer = Writer(commit: nat, table: string, pending: set<string>)

  /** `since` records at which version each generation began; nothing reads it. */
  datatype State = State(
    db: nat, gens: map<string, nat>, l1: map<Key, nat>, l2: map<string, nat>,
    readers: map<nat, Reader>, writers: map<nat, Writer>, done: set<(nat, string)>,
    since: map<(string, nat), nat>)

  /** A process that starts at database version `db` and finds `left` in Redis. */
  function Start(db: nat, left: map<string, nat>): State {
    State(db, map[], map[], left, map[], map[], {}, map[])
  }

  function Initial(): State { Start(0, map[]) }

  datatype Step =
    | Commit(w: nat, table: string)
    | Bump(w: nat, id: string)
    | Return(w: nat)
    | Echo(id: string)
    | Take(r: nat, id: string, canon: string)
    | HitL1(r: nat)
    | Join(r: nat, other: nat)
    | HitL2(r: nat)
    | Snapshot(r: nat)
    | StoreL2(r: nat)
    | FillL1(r: nat)
    | EvictL1(k: Key)
    | EvictL2(rk: string)

  /** `generation`: 0 until the first invalidation. */
  function Gen(s: State, id: string): nat { if id in s.gens then s.gens[id] else 0 }

  function Since(s: State, id: string, gen: nat): nat {
    if (id, gen) in s.since then s.since[(id, gen)] else 0
  }

  function BumpGen(s: State, id: string): State {
    var g := Gen(s, id) + 1;
    s.(gens := s.gens[id := g], since := s.since[(id, g) := s.db])
  }

  function Answer(s: State, r: nat, v: nat): State
    requires r in s.readers
  {
    s.(readers := s.readers[r := s.readers[r].(result := Some(v))])
  }

  /** A writer whose commit made the current version. */
  function Enter(cfg: Config, s: State, w: nat, table: string): State {
    s.(writers := s.writers[w := Writer(s.db, table, Readers(cfg, table))])
  }

  function OnCommit(cfg: Config, s: State, w: nat, table: string): State {
    if w in s.writers then s else Enter(cfg, s.(db := s.db + 1), w, table)
  }

  function OnBump(s: State, w: nat, id: string): State {
    if w !in s.writers || id !in s.writers[w].pending then s
    else BumpGen(s, id).(writers := s.writers[w := s.writers[w].(pending := s.writers[w].pending - {id})])
  }

  function OnReturn(s: State, w: nat): State {
    if w !in s.writers || s.writers[w].pending != {} then s
    else s.(done := s.done + {(s.writers[w].commit, s.writers[w].table)}, writers := s.writers - {w})
  }

  function WriterStep(cfg: Config, s: State, e: Step): State
    requires ByWriter(e)
  {
    if e.Commit? then OnCommit(cfg, s, e.w, e.table)
    else if e.Bump? then OnBump(s, e.w, e.id)
    else if e.Return? then OnReturn(s, e.w)
    else BumpGen(s, e.id)
  }

  /** A read that has not answered yet. */
  predicate Waiting(s: State, r: nat) { r in s.readers && s.readers[r].result.None? }

  function ReaderStep(cfg: Config, s: State, e: Step): State {
    if e.Take? then s.(readers := s.readers[e.r := Reader(Key(e.id, Gen(s, e.id), e.canon), s.done, None, None)])
    else if e.EvictL1? then s.(l1 := s.l1 - {e.k})
    else if e.EvictL2? then s.(l2 := s.l2 - {e.rk})
    else if e.Commit? || e.Bump? || e.Return? || e.Echo? || !Waiting(s, e.r) then s
    else FetchStep(cfg, s, e)
  }

  /** A step of a waiting reader. */
  function FetchStep(cfg: Config, s: State, e: Step): State
    requires (e.HitL1? || e.Join? || e.HitL2? || e.Snapshot? || e.StoreL2? || e.FillL1?) && Waiting(s, e.r)
  {
    var me := s.readers[e.r];
    var rk := RedisKey(cfg, me.key);
    if e.HitL1? then (if me.key in s.l1 then Answer(s, e.r, s.l1[me.key]) else s)
    else if e.Join? then
      if e.other in s.readers && s.readers[e.other].key == me.key && s.readers[e.other].result.Some?
      then Answer(s, e.r, s.readers[e.other].result.value) else s
    else if e.HitL2? then
      if rk in s.l2 then Answer(s, e.r, s.l2[rk]).(l1 := s.l1[me.key := s.l2[rk]]) else s
    else if e.Snapshot? then s.(readers := s.readers[e.r := me.(snap := Some(s.db))])
    else if me.snap.None? then s
    else if e.StoreL2? then s.(l2 := s.l2[rk := me.snap.value])
    else Answer(s, e.r, me.snap.value).(l1 := s.l1[me.key := me.snap.value])
  }

  predicate ByWriter(e: Step) { e.Commit? || e.Bump? || e.Return? || e.Echo? }

  function Apply(cfg: Config, s: State, e: Step): State {
    if ByWriter(e) then WriterStep(cfg, s, e) else ReaderStep(cfg, s, e)
  }

  function Run(cfg: Config, s: State, es: seq<Step>): State
    decreases |es|
  {
    if es == [] then s else Run(cfg, Apply(cfg, s, es[0]), es[1..])
  }

  // ---- Redis keys ------------------------------------------------------------------

  lemma LastColon(x: string, a: string, y: string, b: string)
    requires x + ":" + a == y + ":" + b && Free(a, ':') && Free(b, ':')
    ensures x == y && a == b
  {
    var s, t := x + ":" + a, y + ":" + b;
    assert s[|x|] == ':' && t[|y|] == ':';
    assert forall i :: |x| < i < |s| ==> s[i] == a[i - |x| - 1];
    assert forall i :: |y| < i < |t| ==> t[i] == b[i - |y| - 1];
    assert s[..|x|] == x && t[..|y|] == y && s[|x| + 1..] == a && t[|y| + 1..] == b;
  }

  lemma DecHasNoColon(n: nat)
    ensures Free(Dec(n), ':')
  {
    DecRoundTrip(n);
  }

  lemma DigestHasNoColon(h: Digest, s: string)
    requires HexDigest(h)
    ensures Free(h(s), ':')
  {
    assert forall i :: 0 <= i < |h(s)| ==> IsHex(h(s)[i]);
  }

  /** Two keys share a Redis entry exactly when they have the same endpoint and generation and their
      canonical strings the same digest, even if endpoint ids contain colons. */
  lemma RedisKeyExact(cfg: Config, k: Key, j: Key)
    requires HexDigest(cfg.hash)
    ensures RedisKey(cfg, k) == RedisKey(cfg, j) <==>
            k.id == j.id && k.gen == j.gen && cfg.hash(k.canon) == cfg.hash(j.canon)
  {
    if RedisKey(cfg, k) == RedisKey(cfg, j) { RedisKeyBack(cfg, k, j); }
  }

  lemma RedisKeyBack(cfg: Config, k: Key, j: Key)
    requires HexDigest(cfg.hash) && RedisKey(cfg, k) == RedisKey(cfg, j)
    ensures k.id == j.id && k.gen == j.gen && cfg.hash(k.canon) == cfg.hash(j.canon)
  {
    DecHasNoColon(k.gen);
    DecHasNoColon(j.gen);
    DigestHasNoColon(cfg.hash, k.canon);
    DigestHasNoColon(cfg.hash, j.canon);
    LastColon("rc:v1:" + k.id + ":" + Dec(k.gen), cfg.hash(k.canon),
              "rc:v1:" + j.id + ":" + Dec(j.gen), cfg.hash(j.canon));
    LastColon("rc:v1:" + k.id, Dec(k.gen), "rc:v1:" + j.id, Dec(j.gen));
    assert ("rc:v1:" + k.id)[6..] == k.id && ("rc:v1:" + j.id)[6..] == j.id;
    DecRoundTrip(k.gen);
    DecRoundTrip(j.gen);
  }

  // ---- The invariant -----------------------------------------------------------------

  /** Some write invalidates this endpoint. */
  ghost predicate Invalidated(cfg: Config, id: string) { exists table :: id in Readers(cfg, table) }

  /** A body under the key of such an endpoint may be as old as the start of the key's generation,
      not older. */
  ghost predicate Good(cfg: Config, s: State, k: Key, v: nat) {
    Invalidated(cfg, k.id) ==> k.gen <= Gen(s, k.id) && Since(s, k.id, k.gen) <= v <= s.db
  }

  ghost predicate GoodReader(cfg: Config, s: State, r: Reader) {
    && r.key.gen <= Gen(s, r.key.id)
    && (r.snap.Some? ==> Good(cfg, s, r.key, r.snap.value))
    && (r.result.Some? ==> Good(cfg, s, r.key, r.result.value))
    && forall d :: d in r.seen && r.key.id in Readers(cfg, d.1) ==> d.0 <= Since(s, r.key.id, r.key.gen)
  }

  /** The current generation of an endpoint began at or after the commit. */
  predicate Covers(s: State, id: string, commit: nat) { commit <= Since(s, id, Gen(s, id)) }

  predicate GoodWriter(cfg: Config, s: State, w: Writer) {
    && w.commit <= s.db
    && forall id :: id in Readers(cfg, w.table) && id !in w.pending ==> Covers(s, id, w.commit)
  }

  predicate GoodDone(cfg: Config, s: State) {
    forall d, id :: d in s.done && id in Readers(cfg, d.1) ==> Covers(s, id, d.0)
  }

  ghost predicate GoodL2(cfg: Config, s: State) {
    forall k :: RedisKey(cfg, k) in s.l2 ==> Good(cfg, s, k, s.l2[RedisKey(cfg, k)])
  }

  ghost predicate Inv(cfg: Config, s: State) {
    && (forall k :: k in s.l1 ==> Good(cfg, s, k, s.l1[k]))
    && GoodL2(cfg, s)
    && (forall r :: r in s.readers ==> GoodReader(cfg, s, s.readers[r]))
    && (forall w :: w in s.writers ==> GoodWriter(cfg, s, s.writers[w]))
    && GoodDone(cfg, s)
    && (forall p :: p in s.since ==> s.since[p] <= s.db)
  }

  /** What later states keep: versions and generations grow, and a begun generation keeps its start. */
  ghost predicate Later(s: State, t: State) {
    && s.db <= t.db
    && (forall id :: Gen(s, id) <= Gen(t, id) && Since(s, id, Gen(s, id)) <= Since(t, id, Gen(t, id)))
    && (forall id, g: nat :: g <= Gen(s, id) ==> Since(t, id, g) == Since(s, id, g))
  }

  // ---- Every step keeps it ----------------------------------------------------------------

  lemma ReaderLater(cfg: Config, s: State, t: State, r: Reader)
    requires Later(s, t) && GoodReader(cfg, s, r)
    ensures GoodReader(cfg, t, r)
  {
    var id, g := r.key.id, r.key.gen;
    assert Gen(s, id) <= Gen(t, id);
    assert Since(t, id, g) == Since(s, id, g);
  }

  lemma GoodLater(cfg: Config, s: State, t: State, k: Key, v: nat)
    requires Later(s, t) && Good(cfg, s, k, v)
    ensures Good(cfg, t, k, v)
  {
    if Invalidated(cfg, k.id) {
      assert Gen(s, k.id) <= Gen(t, k.id);
      assert Since(t, k.id, k.gen) == Since(s, k.id, k.gen);
    }
  }

  lemma CoversLater(s: State, t: State, id: string, commit: nat)
    requires Later(s, t) && Covers(s, id, commit)
    ensures Covers(t, id, commit)
  {
    assert Gen(s, id) <= Gen(t, id);
  }

  lemma WriterLater(cfg: Config, s: State, t: State, w: Writer)
    requires Later(s, t) && GoodWriter(cfg, s, w)
    ensures GoodWriter(cfg, t, w)
  {
    forall id | id in Readers(cfg, w.table) && id !in w.pending
      ensures Covers(t, id, w.commit)
    {
      CoversLater(s, t, id, w.commit);
    }
  }

  /** Time passing alone keeps the invariant. */
  lemma InvLater(cfg: Config, s: State, t: State)
    requires Inv(cfg, s) && Later(s, t) && (forall p :: p in t.since ==> t.since[p] <= t.db)
    requires t.l1 == s.l1 && t.l2 == s.l2 && t.readers == s.readers && t.writers == s.writers && t.done == s.done
    ensures Inv(cfg, t)
  {
    forall k | k in t.l1 ensures Good(cfg, t, k, t.l1[k]) { GoodLater(cfg, s, t, k, t.l1[k]); }
    forall k | RedisKey(cfg, k) in t.l2 ensures Good(cfg, t, k, t.l2[RedisKey(cfg, k)]) {
      GoodLater(cfg, s, t, k, t.l2[RedisKey(cfg, k)]);
    }
    forall r | r in t.readers ensures GoodReader(cfg, t, t.readers[r]) { ReaderLater(cfg, s, t, t.readers[r]); }
    forall w | w in t.writers ensures GoodWriter(cfg, t, t.writers[w]) { WriterLater(cfg, s, t, t.writers[w]); }
    forall d, id | d in t.done && id in Readers(cfg, d.1) ensures Covers(t, id, d.0) { CoversLater(s, t, id, d.0); }
  }

  lemma BumpLater(s: State, id: string)
    requires forall p :: p in s.since ==> s.since[p] <= s.db
    ensures Later(s, BumpGen(s, id)) && Covers(BumpGen(s, id), id, s.db)
    ensures forall p :: p in BumpGen(s, id).since ==> BumpGen(s, id).since[p] <= s.db
  {
    var t := BumpGen(s, id);
    forall x: string
      ensures Gen(s, x) <= Gen(t, x) && Since(s, x, Gen(s, x)) <= Since(t, x, Gen(t, x))
    {
      assert x != id ==> Gen(t, x) == Gen(s, x);
    }
  }

  lemma BumpKeeps(cfg: Config, s: State, id: string)
    requires Inv(cfg, s)
    ensures Inv(cfg, BumpGen(s, id))
  {
    BumpLater(s, id);
    InvLater(cfg, s, BumpGen(s, id));
  }

  /** Replacing one writer by a good one. */
  lemma SetWriter(cfg: Config, s: State, w: nat, x: Writer)
    requires Inv(cfg, s) && GoodWriter(cfg, s, x)
    ensures Inv(cfg, s.(writers := s.writers[w := x]))
  {
    var t := s.(writers := s.writers[w := x]);
    SameClock(cfg, s, t);
  }

  /** States with the same clock judge entries alike. */
  lemma SameClock(cfg: Config, s: State, t: State)
    requires t.db == s.db && t.gens == s.gens && t.since == s.since
    ensures forall k, v :: Good(cfg, s, k, v) == Good(cfg, t, k, v)
    ensures forall r :: GoodReader(cfg, s, r) == GoodReader(cfg, t, r)
    ensures forall w :: GoodWriter(cfg, s, w) == GoodWriter(cfg, t, w)
    ensures forall id, c :: Covers(s, id, c) == Covers(t, id, c)
  {
    forall id ensures Gen(s, id) == Gen(t, id) {}
    forall id, g: nat ensures Since(s, id, g) == Since(t, id, g) {}
    forall k, v ensures Good(cfg, s, k, v) == Good(cfg, t, k, v) {}
    forall r ensures GoodReader(cfg, s, r) == GoodReader(cfg, t, r) {}
    forall w ensures GoodWriter(cfg, s, w) == GoodWriter(cfg, t, w) {}
  }

  lemma CommitKeeps(cfg: Config, s: State, w: nat, table: string)
    requires Inv(cfg, s)
    ensures Inv(cfg, OnCommit(cfg, s, w, table))
  {
    if w !in s.writers {
      NextVersion(cfg, s);
      NewWriter(cfg, s.(db := s.db + 1), w, table);
      SameState(cfg, Enter(cfg, s.(db := s.db + 1), w, table), OnCommit(cfg, s, w, table));
    }
  }

  lemma SameState(cfg: Config, s: State, t: State)
    requires Inv(cfg, s) && s == t
    ensures Inv(cfg, t)
  {
  }

  lemma NewWriter(cfg: Config, s: State, w: nat, table: string)
    requires Inv(cfg, s)
    ensures Inv(cfg, Enter(cfg, s, w, table))
  {
    SetWriter(cfg, s, w, Writer(s.db, table, Readers(cfg, table)));
  }

  lemma NextVersion(cfg: Config, s: State)
    requires Inv(cfg, s)
    ensures Inv(cfg, s.(db := s.db + 1))
  {
    assert Later(s, s.(db := s.db + 1));
    InvLater(cfg, s, s.(db := s.db + 1));
  }

  lemma BumpOwnKeeps(cfg: Config, s: State, w: nat, id: string)
    requires Inv(cfg, s)
    ensures Inv(cfg, OnBump(s, w, id))
  {
    if w !in s.writers { return; }
    var t := BumpGen(s, id);
    var x := s.writers[w];
    BumpLater(s, id);
    BumpKeeps(cfg, s, id);
    forall i | i in Readers(cfg, x.table) && i !in x.pending - {id} ensures Covers(t, i, x.commit) {
      if i != id { CoversLater(s, t, i, x.commit); }
    }
    SetWriter(cfg, t, w, x.(pending := x.pending - {id}));
  }

  lemma ReturnKeeps(cfg: Config, s: State, w: nat)
    requires Inv(cfg, s)
    ensures Inv(cfg, OnReturn(s, w))
  {
    var t := OnReturn(s, w);
    SameClock(cfg, s, t);
  }

  lemma WriterStepKeeps(cfg: Config, s: State, e: Step)
    requires Inv(cfg, s) && ByWriter(e)
    ensures Inv(cfg, WriterStep(cfg, s, e))
  {
    if e.Commit? {
      CommitKeeps(cfg, s, e.w, e.table);
    } else if e.Bump? {
      BumpOwnKeeps(cfg, s, e.w, e.id);
    } else if e.Return? {
      ReturnKeeps(cfg, s, e.w);
    } else {
      BumpKeeps(cfg, s, e.id);
    }
  }

  lemma SetReader(cfg: Config, s: State, r: nat, x: Reader)
    requires Inv(cfg, s) && GoodReader(cfg, s, x)
    ensures Inv(cfg, s.(readers := s.readers[r := x]))
  {
    SameClock(cfg, s, s.(readers := s.readers[r := x]));
  }

  lemma SetL1(cfg: Config, s: State, k: Key, v: nat)
    requires Inv(cfg, s) && Good(cfg, s, k, v)
    ensures Inv(cfg, s.(l1 := s.l1[k := v]))
  {
    SameClock(cfg, s, s.(l1 := s.l1[k := v]));
  }

  lemma SetL2(cfg: Config, s: State, k: Key, v: nat)
    requires HexDigest(cfg.hash) && Inv(cfg, s) && Good(cfg, s, k, v)
    ensures Inv(cfg, s.(l2 := s.l2[RedisKey(cfg, k) := v]))
  {
    var t := s.(l2 := s.l2[RedisKey(cfg, k) := v]);
    SameClock(cfg, s, t);
    forall j | RedisKey(cfg, j) in t.l2 ensures Good(cfg, t, j, t.l2[RedisKey(cfg, j)]) {
      if RedisKey(cfg, j) == RedisKey(cfg, k) {
        RedisKeyExact(cfg, k, j);
      } else {
        assert RedisKey(cfg, j) in s.l2;
      }
    }
  }

  lemma AnswerKeeps(cfg: Config, s: State, r: nat, v: nat)
    requires Inv(cfg, s) && r in s.readers && Good(cfg, s, s.readers[r].key, v)
    ensures Inv(cfg, Answer(s, r, v))
  {
    SetReader(cfg, s, r, s.readers[r].(result := Some(v)));
  }

  /** Answering and filling L1 with the same version. */
  lemma PromoteKeeps(cfg: Config, s: State, r: nat, v: nat)
    requires Inv(cfg, s) && r in s.readers && Good(cfg, s, s.readers[r].key, v)
    ensures Inv(cfg, Answer(s, r, v).(l1 := s.l1[s.readers[r].key := v]))
  {
    AnswerKeeps(cfg, s, r, v);
    var t := Answer(s, r, v);
    SameClock(cfg, s, t);
    SetL1(cfg, t, s.readers[r].key, v);
  }

  lemma SnapshotKeeps(cfg: Config, s: State, r: nat)
    requires Inv(cfg, s) && r in s.readers
    ensures Inv(cfg, s.(readers := s.readers[r := s.readers[r].(snap := Some(s.db))]))
  {
    var x := s.readers[r];
    assert (x.key.id, x.key.gen) in s.since ==> s.since[(x.key.id, x.key.gen)] <= s.db;
    SetReader(cfg, s, r, x.(snap := Some(s.db)));
  }

  lemma FetchKeeps(cfg: Config, s: State, e: Step)
    requires HexDigest(cfg.hash) && Inv(cfg, s)
    requires !ByWriter(e) && !e.Take? && !e.EvictL1? && !e.EvictL2? && Waiting(s, e.r)
    ensures Inv(cfg, FetchStep(cfg, s, e))
  {
    var me := s.readers[e.r];
    var rk := RedisKey(cfg, me.key);
    if e.HitL1? {
      if me.key in s.l1 { AnswerKeeps(cfg, s, e.r, s.l1[me.key]); }
    } else if e.Join? {
      if e.other in s.readers && s.readers[e.other].key == me.key && s.readers[e.other].result.Some? {
        AnswerKeeps(cfg, s, e.r, s.readers[e.other].result.value);
      }
    } else if e.HitL2? {
      if rk in s.l2 { PromoteKeeps(cfg, s, e.r, s.l2[rk]); }
    } else if e.Snapshot? {
      SnapshotKeeps(cfg, s, e.r);
    } else if me.snap.Some? {
      if e.StoreL2? {
        SetL2(cfg, s, me.key, me.snap.value);
      } else {
        PromoteKeeps(cfg, s, e.r, me.snap.value);
      }
    }
  }

  lemma TakeKeeps(cfg: Config, s: State, r: nat, id: string, canon: string)
    requires Inv(cfg, s)
    ensures Inv(cfg, s.(readers := s.readers[r := Reader(Key(id, Gen(s, id), canon), s.done, None, None)]))
  {
    var x := Reader(Key(id, Gen(s, id), canon), s.done, None, None);
    forall d | d in x.seen && id in Readers(cfg, d.1) ensures d.0 <= Since(s, id, Gen(s, id)) {
      assert Covers(s, id, d.0);
    }
    SetReader(cfg, s, r, x);
  }

  lemma EvictKeeps(cfg: Config, s: State, k: Key, rk: string)
    requires Inv(cfg, s)
    ensures Inv(cfg, s.(l1 := s.l1 - {k})) && Inv(cfg, s.(l2 := s.l2 - {rk}))
  {
    SameClock(cfg, s, s.(l1 := s.l1 - {k}));
    SameClock(cfg, s, s.(l2 := s.l2 - {rk}));
  }

  lemma StepKeeps(cfg: Config, s: State, e: Step)
    requires HexDigest(cfg.hash) && Inv(cfg, s)
    ensures Inv(cfg, Apply(cfg, s, e))
  {
    if ByWriter(e) {
      WriterStepKeeps(cfg, s, e);
    } else if e.Take? {
      TakeKeeps(cfg, s, e.r, e.id, e.canon);
    } else if e.EvictL1? {
      EvictKeeps(cfg, s, e.k, "");
    } else if e.EvictL2? {
      EvictKeeps(cfg, s, Key("", 0, ""), e.rk);
    } else if Waiting(s, e.r) {
      FetchKeeps(cfg, s, e);
    }
  }

  lemma {:induction false} RunKeeps(cfg: Config, s: State, es: seq<Step>)
    requires HexDigest(cfg.hash) && Inv(cfg, s)
    ensures Inv(cfg, Run(cfg, s, es))
    decreases |es|
  {
    if es != [] {
      StepKeeps(cfg, s, es[0]);
      RunKeeps(cfg, Apply(cfg, s, es[0]), es[1..]);
    }
  }

  // ---- Freshness ------------------------------------------------------------------------

  /** What a process may find in Redis: for endpoints that are invalidated, no entry of a later
      generation than its own first one. An empty Redis, or none, satisfies it. */
  ghost predicate CleanStart(cfg: Config, left: map<string, nat>) {
    forall k :: RedisKey(cfg, k) in left && Invalidated(cfg, k.id) ==> k.gen == 0
  }

  /** What was stored earlier was computed earlier. */
  predicate FromThePast(db: nat, left: map<string, nat>) { forall rk :: rk in left ==> left[rk] <= db }

  lemma StartGood(cfg: Config, db: nat, left: map<string, nat>)
    requires CleanStart(cfg, left) && FromThePast(db, left)
    ensures Inv(cfg, Start(db, left))
  {
  }

  /** An answered read that saw the invalidation of a write to a table of its endpoint return. */
  predicate Saw(cfg: Config, s: State, r: nat, commit: nat, table: string) {
    && r in s.readers && s.readers[r].result.Some?
    && (commit, table) in s.readers[r].seen && s.readers[r].key.id in Readers(cfg, table)
  }

  /** In every interleaving, an answered read includes every write to a table its endpoint reads
      whose invalidation had returned when the read took its generation. */
  lemma Freshness(cfg: Config, db: nat, left: map<string, nat>, es: seq<Step>, r: nat, commit: nat, table: string)
    requires HexDigest(cfg.hash) && CleanStart(cfg, left) && FromThePast(db, left)
    requires Saw(cfg, Run(cfg, Start(db, left), es), r, commit, table)
    ensures Run(cfg, Start(db, left), es).readers[r].result.value >= commit
  {
    StartGood(cfg, db, left);
    RunKeeps(cfg, Start(db, left), es);
    var x := Run(cfg, Start(db, left), es).readers[r];
    assert GoodReader(cfg, Run(cfg, Start(db, left), es), x);
    var d := (commit, table);
    assert d in x.seen && x.key.id in Readers(cfg, d.1);
  }

  lemma {:induction false} RunAppend(cfg: Config, s: State, a: seq<Step>, b: seq<Step>)
    ensures Run(cfg, s, a + b) == Run(cfg, Run(cfg, s, a), b)
    decreases |a|
  {
    if a == [] {
      assert a + b == b;
    } else {
      HeadTail(a, b);
      RunAppend(cfg, Apply(cfg, s, a[0]), a[1..], b);
    }
  }

  lemma RunOne(cfg: Config, s: State, a: seq<Step>, e: Step)
    ensures Run(cfg, s, a + [e]) == Apply(cfg, Run(cfg, s, a), e)
  {
    RunAppend(cfg, s, a, [e]);
    assert [e][1..] == [];
  }

  ghost predicate KeepsReader(s: State, t: State, r: nat) {
    r in s.readers ==>
      r in t.readers && t.readers[r].seen == s.readers[r].seen && t.readers[r].key == s.readers[r].key
  }

  lemma FetchHistory(cfg: Config, s: State, e: Step, r: nat)
    requires (e.HitL1? || e.Join? || e.HitL2? || e.Snapshot? || e.StoreL2? || e.FillL1?) && Waiting(s, e.r)
    ensures var t := FetchStep(cfg, s, e); t.done == s.done && KeepsReader(s, t, r)
  {
    var t := FetchStep(cfg, s, e);
    FetchReaders(cfg, s, e);
    assert e.r == r || r !in s.readers || t.readers[r] == s.readers[r];
  }

  /** A waiting reader's step touches its own entry only, and there neither key nor sight. */
  lemma FetchReaders(cfg: Config, s: State, e: Step)
    requires (e.HitL1? || e.Join? || e.HitL2? || e.Snapshot? || e.StoreL2? || e.FillL1?) && Waiting(s, e.r)
    ensures var t, me := FetchStep(cfg, s, e), s.readers[e.r];
            && t.done == s.done && e.r in t.readers
            && t.readers == s.readers[e.r := t.readers[e.r]]
            && t.readers[e.r].key == me.key && t.readers[e.r].seen == me.seen
  {
    assert s.readers == s.readers[e.r := s.readers[e.r]];
  }

  lemma WriterHistory(cfg: Config, s: State, e: Step)
    requires ByWriter(e)
    ensures var t := WriterStep(cfg, s, e); s.done <= t.done && t.readers == s.readers
  {
  }

  /** Returned writes stay returned, and a read keeps its key and what it saw until it restarts. */
  lemma StepHistory(cfg: Config, s: State, e: Step, r: nat)
    ensures s.done <= Apply(cfg, s, e).done
    ensures !(e.Take? && e.r == r) ==> KeepsReader(s, Apply(cfg, s, e), r)
  {
    if ByWriter(e) {
      WriterHistory(cfg, s, e);
    } else if !e.Take? && !e.EvictL1? && !e.EvictL2? && Waiting(s, e.r) {
      FetchHistory(cfg, s, e, r);
    }
  }

  lemma {:induction false} RunHistory(cfg: Config, s: State, es: seq<Step>, r: nat)
    ensures s.done <= Run(cfg, s, es).done
    ensures (forall e :: e in es ==> !(e.Take? && e.r == r)) ==> KeepsReader(s, Run(cfg, s, es), r)
    decreases |es|
  {
    if es != [] {
      StepHistory(cfg, s, es[0], r);
      RunHistory(cfg, Apply(cfg, s, es[0]), es[1..], r);
      assert forall e :: e in es[1..] ==> e in es;
    }
  }

  /** Read-your-writes: the invalidation of a write returns, later a read of an endpoint over the
      written table takes its generation; whatever else happens before, between and after, slow
      computes of older generations included, its answer includes the write. */
  lemma ReadYourWrites(cfg: Config, before: seq<Step>, w: nat, mid: seq<Step>,
                       r: nat, id: string, canon: string, after: seq<Step>)
    requires HexDigest(cfg.hash) && (forall e :: e in after ==> !(e.Take? && e.r == r))
    requires var s := Run(cfg, Initial(), before);
             w in s.writers && s.writers[w].pending == {} && id in Readers(cfg, s.writers[w].table)
    ensures var s := Run(cfg, Initial(), before);
            var t := Run(cfg, Initial(), before + [Return(w)] + mid + [Take(r, id, canon)] + after);
            r in t.readers && (t.readers[r].result.Some? ==> t.readers[r].result.value >= s.writers[w].commit)
  {
    var s := Run(cfg, Initial(), before);
    var d := (s.writers[w].commit, s.writers[w].table);
    var s1, s2 := Apply(cfg, s, Return(w)), Run(cfg, Apply(cfg, s, Return(w)), mid);
    var s3 := Apply(cfg, s2, Take(r, id, canon));
    RunOne(cfg, Initial(), before, Return(w));
    RunAppend(cfg, Initial(), before + [Return(w)], mid);
    RunOne(cfg, Initial(), before + [Return(w)] + mid, Take(r, id, canon));
    RunAppend(cfg, Initial(), before + [Return(w)] + mid + [Take(r, id, canon)], after);
    assert d in s1.done;
    RunHistory(cfg, s1, mid, r);
    assert d in s3.readers[r].seen && s3.readers[r].key.id == id;
    RunHistory(cfg, s3, after, r);
    if Run(cfg, s3, after).readers[r].result.Some? {
      Freshness(cfg, 0, map[], before + [Return(w)] + mid + [Take(r, id, canon)] + after, r, d.0, d.1);
    }
  }

  // ---- Restarting over an old Redis -----------------------------------------------------------

  function Echoes(id: string, n: nat): seq<Step> { seq(n, _ => Echo(id)) }

  lemma {:induction false} EchoesBump(cfg: Config, s: State, id: string, n: nat)
    ensures var t := Run(cfg, s, Echoes(id, n));
            && Gen(t, id) == Gen(s, id) + n && t.l2 == s.l2 && t.db == s.db && t.writers == s.writers
    decreases n
  {
    if n > 0 {
      assert Echoes(id, n)[0] == Echo(id) && Echoes(id, n)[1..] == Echoes(id, n - 1);
      EchoesBump(cfg, Apply(cfg, s, Echo(id)), id, n - 1);
    }
  }

  /** Bumping every pending endpoint of a writer bumps `id` once if it is pending. */
  lemma {:induction false} BumpAll(cfg: Config, s: State, w: nat, id: string) returns (es: seq<Step>)
    requires w in s.writers
    ensures var t := Run(cfg, s, es);
            && w in t.writers && t.writers[w] == s.writers[w].(pending := {}) && t.l2 == s.l2 && t.db == s.db
            && Gen(t, id) == Gen(s, id) + (if id in s.writers[w].pending then 1 else 0)
    decreases |s.writers[w].pending|
  {
    if s.writers[w].pending == {} {
      es := [];
    } else {
      var x :| x in s.writers[w].pending;
      var s1 := Apply(cfg, s, Bump(w, x));
      assert s1.writers[w].pending == s.writers[w].pending - {x};
      var more := BumpAll(cfg, s1, w, id);
      es := [Bump(w, x)] + more;
      Cons(Bump(w, x), more);
    }
  }

  /** An old entry of a later generation, for an endpoint over some table, can be served to a
      read that began after a newer write's invalidation had returned. */
  lemma OldRedisIsStale(cfg: Config, db: nat, left: map<string, nat>, k: Key, table: string) returns (es: seq<Step>)
    requires RedisKey(cfg, k) in left && k.gen >= 1 && left[RedisKey(cfg, k)] <= db && k.id in Readers(cfg, table)
    ensures var t := Run(cfg, Start(db, left), es);
            && 0 in t.readers && t.readers[0].key == k && (db + 1, table) in t.readers[0].seen
            && t.readers[0].result == Some(left[RedisKey(cfg, k)]) && left[RedisKey(cfg, k)] < db + 1
  {
    var s0 := Start(db, left);
    var pre := ReachGeneration(cfg, s0, k.id, k.gen, table);
    es := pre + [Return(0)] + [Take(0, k.id, k.canon)] + [HitL2(0)];
    RunOne(cfg, s0, pre, Return(0));
    RunOne(cfg, s0, pre + [Return(0)], Take(0, k.id, k.canon));
    RunOne(cfg, s0, pre + [Return(0)] + [Take(0, k.id, k.canon)], HitL2(0));
    ServeOld(cfg, Run(cfg, s0, pre), k);
  }

  /** A run whose only write has bumped everything and left `id` at generation `gen`. */
  lemma ReachGeneration(cfg: Config, s0: State, id: string, gen: nat, table: string) returns (es: seq<Step>)
    requires gen >= 1 && id in Readers(cfg, table) && Gen(s0, id) == 0 && s0.writers == map[]
    ensures var t := Run(cfg, s0, es);
            && 0 in t.writers && t.writers[0] == Writer(s0.db + 1, table, {}) && t.l2 == s0.l2 && Gen(t, id) == gen
  {
    var e1 := Echoes(id, gen - 1);
    EchoesBump(cfg, s0, id, gen - 1);
    var s1 := Run(cfg, s0, e1);
    var s2 := Apply(cfg, s1, Commit(0, table));
    RunOne(cfg, s0, e1, Commit(0, table));
    assert Gen(s2, id) == Gen(s1, id);
    var e3 := BumpAll(cfg, s2, 0, id);
    RunAppend(cfg, s0, e1 + [Commit(0, table)], e3);
    es := e1 + [Commit(0, table)] + e3;
  }

  lemma ServeOld(cfg: Config, s: State, k: Key)
    requires 0 in s.writers && s.writers[0].pending == {} && Gen(s, k.id) == k.gen && RedisKey(cfg, k) in s.l2
    ensures var t := Apply(cfg, Apply(cfg, Apply(cfg, s, Return(0)), Take(0, k.id, k.canon)), HitL2(0));
            && 0 in t.readers && t.readers[0].key == k && (s.writers[0].commit, s.writers[0].table) in t.readers[0].seen
            && t.readers[0].result == Some(s.l2[RedisKey(cfg, k)])
  {
    var s4 := Apply(cfg, s, Return(0));
    assert Gen(s4, k.id) == k.gen && s4.l2 == s.l2;
    var s5 := Apply(cfg, s4, Take(0, k.id, k.canon));
    assert s5.readers[0].key == k && s5.l2 == s.l2;
  }

  predicate FreshRead(cfg: Config, s: State, r: nat, commit: nat, table: string) {
    Saw(cfg, s, r, commit, table) ==> s.readers[r].result.value >= commit
  }

  ghost predicate AlwaysFresh(cfg: Config, db: nat, left: map<string, nat>) {
    forall es, r: nat, commit: nat, table :: FreshRead(cfg, Run(cfg, Start(db, left), es), r, commit, table)
  }

  /** The condition is exact: a process is fresh in every interleaving if and only if it starts
      over a Redis without later-generation entries of endpoints that are invalidated. */
  lemma FreshExactly(cfg: Config, db: nat, left: map<string, nat>)
    requires HexDigest(cfg.hash) && FromThePast(db, left)
    ensures AlwaysFresh(cfg, db, left) <==> CleanStart(cfg, left)
  {
    if CleanStart(cfg, left) {
      forall es, r: nat, commit: nat, table
        ensures FreshRead(cfg, Run(cfg, Start(db, left), es), r, commit, table)
      {
        if Saw(cfg, Run(cfg, Start(db, left), es), r, commit, table) {
          Freshness(cfg, db, left, es, r, commit, table);
        }
      }
    } else {
      var k :| RedisKey(cfg, k) in left && Invalidated(cfg, k.id) && k.gen != 0;
      var table :| k.id in Readers(cfg, table);
      var es := OldRedisIsStale(cfg, db, left, k, table);
      assert !FreshRead(cfg, Run(cfg, Start(db, left), es), 0, db + 1, table);
    }
  }
}
