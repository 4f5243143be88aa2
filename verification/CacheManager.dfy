/** The cache manager's own calls, one at a time. Expiry and eviction between calls are other
    writers of `l1` and `l2`. */
module Caching {
  import opened Strings
  import opened Options
  import opened CacheBodies
  import RC = ReadCache

  /** The generation of an endpoint in a generation table. */
  function GenIn(gens: map<string, nat>, id: string): nat { if id in gens then gens[id] else 0 }

  /** What happens to a manager: reads, invalidations, and entries that expire or are evicted. */
  datatype Op =
    | Ask(id: string, canon: string, cached: bool, computed: Option<string>)
    | Invalidate(table: string)
    | DropL1(key: RC.Key)
    | DropL2(entry: string)

  /** How often the first `i` operations invalidated an endpoint. */
  function Bumps(cfg: RC.Config, ops: seq<Op>, i: nat, id: string): nat
    requires i <= |ops|
  {
    if i == 0 then 0
    else
      var op := ops[i - 1];
      Bumps(cfg, ops, i - 1, id)
      + (if op.Invalidate? && op.table in cfg.reverse && id in cfg.reverse[op.table] then 1 else 0)
  }

  /** The digest tells the canonical strings of the run apart. */
  ghost predicate Apart(cfg: RC.Config, ops: seq<Op>) {
    forall i, j :: 0 <= i < |ops| && 0 <= j < |ops| && ops[i].Ask? && ops[j].Ask? ==>
                     cfg.hash(ops[i].canon) == cfg.hash(ops[j].canon) ==> ops[i].canon == ops[j].canon
  }

  /** Operation `j` read this endpoint and canonical string and computed these bytes. */
  predicate Computed(ops: seq<Op>, j: nat, id: string, canon: string, bytes: string)
    requires j < |ops|
  {
    ops[j].Ask? && ops[j].id == id && ops[j].canon == canon && ops[j].computed == Some(bytes)
  }

  /** One of the first `i` operations computed these bytes for the key, in the key's generation. */
  ghost predicate Made(cfg: RC.Config, ops: seq<Op>, i: nat, k: RC.Key, bytes: string)
    requires i <= |ops|
  {
    exists j :: 0 <= j < i && Computed(ops, j, k.id, k.canon, bytes) && Bumps(cfg, ops, j, k.id) == k.gen
  }

  /** The bytes answer read `i`: it or an earlier read of the same endpoint and canonical string
      computed them, with no invalidation of the endpoint in between. */
  ghost predicate Answers(cfg: RC.Config, ops: seq<Op>, i: nat, bytes: string)
    requires i < |ops| && ops[i].Ask?
  {
    exists j :: 0 <= j <= i && Computed(ops, j, ops[i].id, ops[i].canon, bytes)
                && Bumps(cfg, ops, j, ops[i].id) == Bumps(cfg, ops, i, ops[i].id)
  }

  /** A read is answered, with bytes of its own, unless it computed none and found none. */
  ghost predicate Answered(cfg: RC.Config, ops: seq<Op>, i: nat, r: Option<CachedBody>)
    requires i < |ops|
  {
    && (r.Some? ==> ops[i].Ask? && Answers(cfg, ops, i, r.value.bytes))
    && (ops[i].Ask? && ops[i].computed.Some? ==> r.Some?)
  }

  lemma MadeStays(cfg: RC.Config, ops: seq<Op>, i: nat)
    requires i < |ops|
    ensures forall k, bytes :: Made(cfg, ops, i, k, bytes) ==> Made(cfg, ops, i + 1, k, bytes)
    ensures forall id :: Bumps(cfg, ops, i + 1, id) ==
                         Bumps(cfg, ops, i, id)
                         + (if ops[i].Invalidate? && id in RC.Readers(cfg, ops[i].table) then 1 else 0)
  {
  }

  /** The stored bodies belong to their keys. */
  ghost predicate Keeps(cfg: RC.Config, ops: seq<Op>, i: nat, l1: map<RC.Key, CachedBody>, l2: map<string, string>)
    requires i <= |ops|
  {
    && (forall k :: k in l1 ==> Made(cfg, ops, i, k, l1[k].bytes))
    && (forall rk :: rk in l2 ==> Payload(cfg, ops, i, rk, l2[rk]))
  }

  /** A Redis entry is the payload of a body made for a key of that entry. */
  ghost predicate Payload(cfg: RC.Config, ops: seq<Op>, i: nat, rk: string, raw: string)
    requires i <= |ops|
  {
    exists k, b :: rk == RC.RedisKey(cfg, k) && Tagged(cfg.hash, b) && raw == EncodeL2(b)
                   && Made(cfg, ops, i, k, b.bytes)
  }

  lemma PayloadStays(cfg: RC.Config, ops: seq<Op>, i: nat, rk: string, raw: string)
    requires i < |ops| && Payload(cfg, ops, i, rk, raw)
    ensures Payload(cfg, ops, i + 1, rk, raw)
  {
    var k, b :| rk == RC.RedisKey(cfg, k) && Tagged(cfg.hash, b) && raw == EncodeL2(b)
                && Made(cfg, ops, i, k, b.bytes);
    MadeStays(cfg, ops, i);
  }

  /** Another operation, which may drop entries. */
  lemma KeepsStays(cfg: RC.Config, ops: seq<Op>, i: nat, l1: map<RC.Key, CachedBody>, l2: map<string, string>,
                   left1: map<RC.Key, CachedBody>, left2: map<string, string>)
    requires i < |ops| && Keeps(cfg, ops, i, l1, l2)
    requires left1.Keys <= l1.Keys && forall k :: k in left1 ==> left1[k] == l1[k]
    requires left2.Keys <= l2.Keys && forall k :: k in left2 ==> left2[k] == l2[k]
    ensures Keeps(cfg, ops, i + 1, left1, left2)
  {
    MadeStays(cfg, ops, i);
    forall rk | rk in left2 ensures Payload(cfg, ops, i + 1, rk, left2[rk]) { PayloadStays(cfg, ops, i, rk, l2[rk]); }
  }

  /** A body made for a key may be stored under it. */
  lemma KeepsStored(cfg: RC.Config, ops: seq<Op>, i: nat, l1: map<RC.Key, CachedBody>, l2: map<string, string>,
                    key: RC.Key, b: CachedBody)
    requires i <= |ops| && Keeps(cfg, ops, i, l1, l2) && Made(cfg, ops, i, key, b.bytes) && Tagged(cfg.hash, b)
    ensures Keeps(cfg, ops, i, l1[key := b], l2)
    ensures Keeps(cfg, ops, i, l1, l2[RC.RedisKey(cfg, key) := EncodeL2(b)])
    ensures Keeps(cfg, ops, i, l1[key := b], l2[RC.RedisKey(cfg, key) := EncodeL2(b)])
  {
    assert Payload(cfg, ops, i, RC.RedisKey(cfg, key), EncodeL2(b));
  }

  /** After a read that answered, whether its body was stored or not. */
  lemma Stored(cfg: RC.Config, ops: seq<Op>, i: nat, l1: map<RC.Key, CachedBody>, l2: map<string, string>,
               key: RC.Key, b: CachedBody)
    requires i < |ops| && Keeps(cfg, ops, i, l1, l2) && Made(cfg, ops, i + 1, key, b.bytes) && Tagged(cfg.hash, b)
    ensures Keeps(cfg, ops, i + 1, l1, l2)
    ensures Keeps(cfg, ops, i + 1, l1[key := b], l2)
    ensures Keeps(cfg, ops, i + 1, l1, l2[RC.RedisKey(cfg, key) := EncodeL2(b)])
    ensures Keeps(cfg, ops, i + 1, l1[key := b], l2[RC.RedisKey(cfg, key) := EncodeL2(b)])
  {
    KeepsStays(cfg, ops, i, l1, l2, l1, l2);
    KeepsStored(cfg, ops, i + 1, l1, l2, key, b);
  }

  /** A body found under the key of a read is the read's own. */
  lemma FoundIsOwn(cfg: RC.Config, ops: seq<Op>, i: nat, j: RC.Key, k: RC.Key, b: CachedBody, c: CachedBody)
    requires i < |ops| && ops[i].Ask? && Apart(cfg, ops) && HexDigest(cfg.hash) && j.canon == ops[i].canon
    requires RC.RedisKey(cfg, j) == RC.RedisKey(cfg, k) && Made(cfg, ops, i, k, b.bytes)
    requires Tagged(cfg.hash, b) && Tagged(cfg.hash, c) && EncodeL2(b) == EncodeL2(c)
    ensures Made(cfg, ops, i, j, c.bytes)
  {
    RC.RedisKeyExact(cfg, j, k);
    TaggedRoundTrip(cfg.hash, b);
    TaggedRoundTrip(cfg.hash, c);
    assert j == k;
  }

  /** The answer of a read is its own, and so may be stored under its key. */
  lemma Own(cfg: RC.Config, ops: seq<Op>, i: nat, l2: map<string, string>, l1: map<RC.Key, CachedBody>,
            hasRedis: bool, r: CachedBody)
    requires i < |ops| && ops[i].Ask? && Apart(cfg, ops) && HexDigest(cfg.hash) && Tagged(cfg.hash, r)
    requires Keeps(cfg, ops, i, l1, l2)
    requires var key := RC.Key(ops[i].id, Bumps(cfg, ops, i, ops[i].id), ops[i].canon);
             var rk := RC.RedisKey(cfg, key);
             || (ops[i].computed.Some? && r.bytes == ops[i].computed.value)
             || (ops[i].cached && key in l1 && r == l1[key])
             || (ops[i].cached && hasRedis && rk in l2 && l2[rk] == EncodeL2(r))
    ensures Made(cfg, ops, i + 1, RC.Key(ops[i].id, Bumps(cfg, ops, i, ops[i].id), ops[i].canon), r.bytes)
    ensures Answers(cfg, ops, i, r.bytes)
  {
    var key := RC.Key(ops[i].id, Bumps(cfg, ops, i, ops[i].id), ops[i].canon);
    var rk := RC.RedisKey(cfg, key);
    if ops[i].computed.Some? && r.bytes == ops[i].computed.value {
      assert Computed(ops, i, ops[i].id, ops[i].canon, r.bytes);
    } else if !(key in l1 && r == l1[key]) {
      var k, b :| rk == RC.RedisKey(cfg, k) && Tagged(cfg.hash, b) && l2[rk] == EncodeL2(b)
                  && Made(cfg, ops, i, k, b.bytes);
      FoundIsOwn(cfg, ops, i, key, k, b, r);
    }
  }

  class CacheManager {
    const cfg: RC.Config
    const hasRedis: bool
    var l1: map<RC.Key, CachedBody>
    var l2: map<string, string>
    var generations: map<string, nat>

    /** Every stored body carries the digest of its bytes. */
    ghost predicate Valid()
      reads this
    {
      && HexDigest(cfg.hash)
      && (forall k :: k in l1 ==> Tagged(cfg.hash, l1[k]))
      && (forall k :: k in l2 ==> exists b :: Tagged(cfg.hash, b) && l2[k] == EncodeL2(b))
    }

    constructor (c: RC.Config, redis: bool)
      requires HexDigest(c.hash)
      ensures Valid() && cfg == c && hasRedis == redis && l1 == map[] && l2 == map[] && generations == map[]
    {
      cfg, hasRedis := c, redis;
      l1, l2, generations := map[], map[], map[];
    }

    /** A body found in Redis is one that was stored there. */
    method Lookup(rk: string, useL2: bool) returns (r: Option<CachedBody>)
      requires Valid()
      ensures r.Some? <==> useL2 && hasRedis && rk in l2
      ensures r.Some? ==> Tagged(cfg.hash, r.value) && l2[rk] == EncodeL2(r.value)
    {
      if !useL2 || !hasRedis || rk !in l2 {
        return None;
      }
      ghost var b :| Tagged(cfg.hash, b) && l2[rk] == EncodeL2(b);
      TaggedRoundTrip(cfg.hash, b);
      r := DecodeL2(l2[rk]);
    }

    /** `get_or_compute`, for a compute that yields `computed` or fails. Errors are not cached. */
    method GetOrCompute(key: RC.Key, useL2: bool, computed: Option<string>) returns (r: Option<CachedBody>)
      requires Valid()
      modifies this`l1, this`l2
      ensures Valid()
      ensures r.Some? ==> Tagged(cfg.hash, r.value) && l1 == old(l1)[key := r.value]
      ensures r.None? ==> l1 == old(l1) && computed.None?
      ensures key in old(l1) ==> r == Some(old(l1)[key])
      ensures var rk := RC.RedisKey(cfg, key);
              var hit := useL2 && hasRedis && rk in old(l2);
              && (key !in old(l1) && hit ==> r.Some? && old(l2)[rk] == EncodeL2(r.value))
              && (key !in old(l1) && !hit && computed.Some? ==> r.Some? && r.value.bytes == computed.value)
              && (key !in old(l1) && !hit && computed.None? ==> r.None?)
              && l2 == (if key !in old(l1) && !hit && useL2 && hasRedis && r.Some?
                        then old(l2)[rk := EncodeL2(r.value)] else old(l2))
    {
      if key in l1 {
        assert l1 == l1[key := l1[key]];
        return Some(l1[key]);
      }
      var rk := RC.RedisKey(cfg, key);
      r := Lookup(rk, useL2);
      if r.None? && computed.Some? {
        r := Some(NewBody(cfg.hash, computed.value));
        if useL2 && hasRedis {
          l2 := l2[rk := EncodeL2(r.value)];
        }
      }
      if r.Some? {
        l1 := l1[key := r.value];
      }
    }

    method Generation(id: string) returns (g: nat)
      ensures g == GenIn(generations, id)
    {
      g := if id in generations then generations[id] else 0;
    }

    /** One read of an endpoint, through the cache if its specification says so. An answer that was not
        computed now was stored under the endpoint's current generation, so a bump retires every
        older entry, and no other entry changes. */
    method Read(id: string, canon: string, cached: bool, computed: Option<string>) returns (r: Option<CachedBody>)
      requires Valid()
      modifies this`l1, this`l2
      ensures Valid()
      ensures r.Some? ==> Tagged(cfg.hash, r.value)
      ensures computed.Some? ==> r.Some?
      ensures var key := RC.Key(id, GenIn(generations, id), canon);
              var rk := RC.RedisKey(cfg, key);
              && (r.Some? ==>
                    || (computed.Some? && r.value.bytes == computed.value)
                    || (cached && key in old(l1) && r.value == old(l1)[key])
                    || (cached && hasRedis && rk in old(l2) && old(l2)[rk] == EncodeL2(r.value)))
              && (cached && key in old(l1) ==> r == Some(old(l1)[key]))
              && l1 == (if cached && r.Some? then old(l1)[key := r.value] else old(l1))
              && (l2 == old(l2) || (cached && hasRedis && rk !in old(l2) && r.Some?
                                    && l2 == old(l2)[rk := EncodeL2(r.value)]))
    {
      if cached {
        var g := Generation(id);
        r := GetOrCompute(RC.Key(id, g, canon), true, computed);
      } else {
        r := if computed.Some? then Some(NewBody(cfg.hash, computed.value)) else None;
      }
    }

    /** Bumps every endpoint over the table exactly once and no other. */
    method InvalidateTableLocal(table: string) returns (ids: set<string>)
      modifies this`generations
      ensures ids == RC.Readers(cfg, table)
      ensures forall id :: GenIn(generations, id) == old(GenIn(generations, id)) + (if id in ids then 1 else 0)
    {
      ids := RC.Readers(cfg, table);
      var todo := ids;
      while todo != {}
        invariant todo <= ids
        invariant forall id :: GenIn(generations, id) ==
                               old(GenIn(generations, id)) + (if id in ids - todo then 1 else 0)
        decreases |todo|
      {
        var id :| id in todo;
        generations := generations[id := GenIn(generations, id) + 1];
        todo := todo - {id};
      }
    }

    // ---- Whole runs --------------------------------------------------------------------------

    /** The manager after the first `i` operations. */
    ghost predicate At(ops: seq<Op>, i: nat)
      requires i <= |ops|
      reads this
    {
      Valid() && Keeps(cfg, ops, i, l1, l2) && forall id :: GenIn(generations, id) == Bumps(cfg, ops, i, id)
    }

    method PerformAsk(ghost ops: seq<Op>, ghost i: nat, op: Op) returns (r: Option<CachedBody>)
      requires i < |ops| && ops[i] == op && op.Ask? && Apart(cfg, ops) && At(ops, i)
      modifies this`l1, this`l2
      ensures At(ops, i + 1)
      ensures r.Some? ==> Answers(cfg, ops, i, r.value.bytes)
      ensures op.computed.Some? ==> r.Some?
    {
      ghost var was1, was2 := l1, l2;
      MadeStays(cfg, ops, i);
      r := Read(op.id, op.canon, op.cached, op.computed);
      if r.Some? {
        Own(cfg, ops, i, was2, was1, hasRedis, r.value);
        Stored(cfg, ops, i, was1, was2, RC.Key(op.id, GenIn(generations, op.id), op.canon), r.value);
      } else {
        KeepsStays(cfg, ops, i, was1, was2, was1, was2);
      }
    }

    method PerformInvalidate(ghost ops: seq<Op>, ghost i: nat, table: string)
      requires i < |ops| && ops[i] == Invalidate(table) && At(ops, i)
      modifies this`generations
      ensures At(ops, i + 1)
    {
      MadeStays(cfg, ops, i);
      KeepsStays(cfg, ops, i, l1, l2, l1, l2);
      var ids := InvalidateTableLocal(table);
    }

    method PerformDrop(ghost ops: seq<Op>, ghost i: nat, op: Op)
      requires i < |ops| && ops[i] == op && (op.DropL1? || op.DropL2?) && At(ops, i)
      modifies this`l1, this`l2
      ensures At(ops, i + 1)
    {
      ghost var was1, was2 := l1, l2;
      MadeStays(cfg, ops, i);
      if op.DropL1? {
        l1 := l1 - {op.key};
      } else {
        l2 := l2 - {op.entry};
      }
      KeepsStays(cfg, ops, i, was1, was2, l1, l2);
    }

    /** One operation; a read yields its answer. */
    method Perform(ghost ops: seq<Op>, ghost i: nat, op: Op) returns (r: Option<CachedBody>)
      requires i < |ops| && ops[i] == op && Apart(cfg, ops) && At(ops, i)
      modifies this
      ensures At(ops, i + 1) && Answered(cfg, ops, i, r)
    {
      r := None;
      if op.Ask? {
        r := PerformAsk(ops, i, op);
      } else if op.Invalidate? {
        PerformInvalidate(ops, i, op.table);
      } else {
        PerformDrop(ops, i, op);
      }
    }

    /** A fresh manager over any operations: every answer's bytes were computed by a read of the same
        endpoint and canonical string, and since then the endpoint was not invalidated. */
    method Serve(ops: seq<Op>) returns (answers: seq<Option<CachedBody>>)
      requires HexDigest(cfg.hash) && Apart(cfg, ops) && l1 == map[] && l2 == map[] && generations == map[]
      modifies this
      ensures |answers| == |ops| && forall i :: 0 <= i < |ops| ==> Answered(cfg, ops, i, answers[i])
    {
      answers := [];
      assert At(ops, 0);
      for i := 0 to |ops|
        invariant |answers| == i && At(ops, i)
        invariant forall j :: 0 <= j < i ==> Answered(cfg, ops, j, answers[j])
      {
        var r := Perform(ops, i, ops[i]);
        answers := answers + [r];
      }
    }
  }
}
