/** What SQL text and cache key owe to a request. */
module ResolveLaws {
  import opened Strings
  import opened Options
  import opened BindValues
  import BT = BindText
  import opened Resolve
  import opened CanonKey

  // ---- SQL text never depends on bound values ---------------------------------------------

  /** Same presence and, for an enumeration, the same choice. */
  predicate SameShape(x: Slot, y: Slot) {
    match x
    case Missing => y.Missing?
    case Chosen(c, _) => y.Chosen? && y.choice == c
    case Given(_) => y.Given?
    case Invalid => y.Invalid?
  }

  ghost predicate SameShapes(l: Library, ps: seq<Param>, a: Request, b: Request) {
    forall i :: 0 <= i < |ps| ==> SameShape(SlotOf(l, ps[i], a), SlotOf(l, ps[i], b))
  }

  /** Environments that give the same names values of the same variant. */
  ghost predicate SameKinds(x: Env, y: Env) {
    x.Keys == y.Keys && forall n :: n in x ==> SameKind(x[n], y[n])
  }

  predicate SameKind(v: BindValue, w: BindValue) {
    (v.Int? <==> w.Int?) && (v.Float? <==> w.Float?) && (v.Text? <==> w.Text?)
  }

  lemma SlotKind(l: Library, p: Param, a: Request, b: Request)
    requires SameShape(SlotOf(l, p, a), SlotOf(l, p, b))
    ensures ValueOf(SlotOf(l, p, a)).Some? <==> ValueOf(SlotOf(l, p, b)).Some?
    ensures ValueOf(SlotOf(l, p, a)).Some? ==> SameKind(ValueOf(SlotOf(l, p, a)).value, ValueOf(SlotOf(l, p, b)).value)
  {
    if Raw(p, a).Some? { CoerceVariant(l, p, Raw(p, a).value); }
    if Raw(p, b).Some? { CoerceVariant(l, p, Raw(p, b).value); }
  }

  lemma {:induction false} SameMaps(l: Library, ps: seq<Param>, a: Request, b: Request)
    requires SameShapes(l, ps, a, b)
    ensures SameKinds(ValueMap(l, ps, a), ValueMap(l, ps, b))
    ensures ChoiceMap(l, ps, a) == ChoiceMap(l, ps, b) && PresentMap(l, ps, a) == PresentMap(l, ps, b)
    decreases |ps|
  {
    if ps != [] {
      var n := |ps| - 1;
      SameMaps(l, ps[..n], a, b);
      assert SameShape(SlotOf(l, ps[n], a), SlotOf(l, ps[n], b));
      SlotKind(l, ps[n], a, b);
    }
  }

  lemma {:induction false} SamePgText(ts: seq<BT.Tok>, x: Env, y: Env, k: nat)
    requires SameKinds(x, y)
    ensures BT.PgText(ts, x, k) == BT.PgText(ts, y, k)
    decreases |ts|
  {
    if ts != [] {
      SamePgText(ts[1..], x, y, k);
      SamePgText(ts[1..], x, y, k + 1);
      if ts[0].Bind? {
        assert BT.CastOf(x, ts[0].name) == BT.CastOf(y, ts[0].name);
      }
    }
  }

  /** Two requests to one endpoint with the same choices and the same presence of parameters get
      the same SQL text, bind for bind, whatever the values are; and one resolves iff the other does. */
  lemma SqlIgnoresValues(l: Library, spec: Spec, a: Request, b: Request)
    requires SameShapes(l, spec.params, a, b)
    ensures Accepts(l, spec.params, a) <==> Accepts(l, spec.params, b)
    ensures AllBound(l, spec, a) <==> AllBound(l, spec, b)
    ensures SubstitutedSql(l, spec, a) == SubstitutedSql(l, spec, b)
    ensures var ts := BT.Tokens(false, SubstitutedSql(l, spec, a));
            BT.PgText(ts, ValueMap(l, spec.params, a), 0) == BT.PgText(ts, ValueMap(l, spec.params, b), 0)
  {
    SameMaps(l, spec.params, a, b);
    SamePgText(BT.Tokens(false, SubstitutedSql(l, spec, a)),
               ValueMap(l, spec.params, a), ValueMap(l, spec.params, b), 0);
    AcceptAlike(l, spec.params, a, b);
  }

  lemma AcceptAlike(l: Library, ps: seq<Param>, a: Request, b: Request)
    requires SameShapes(l, ps, a, b)
    ensures Accepts(l, ps, a) <==> Accepts(l, ps, b)
  {
    forall i | 0 <= i < |ps| ensures SlotOf(l, ps[i], a).Invalid? <==> SlotOf(l, ps[i], b).Invalid? {
      assert SameShape(SlotOf(l, ps[i], a), SlotOf(l, ps[i], b));
    }
  }

  // ---- The cache key determines the query ---------------------------------------------------------

  /** A name stands for one parameter. */
  ghost predicate NoConflict(ps: seq<Param>) {
    forall i, j :: 0 <= i < |ps| && 0 <= j < |ps| && ps[i].name == ps[j].name ==> ps[i] == ps[j]
  }

  function Names(ps: seq<Param>): set<string> { set i | 0 <= i < |ps| :: ps[i].name }

  /** No value contains `&`, a parameter's name that sorts after its own parameter's, and `=`. */
  ghost predicate Settled(l: Library, ps: seq<Param>, req: Request) { Readable(Parts(l, ps, req), Names(ps)) }

  /** The cache key's canonical string. */
  function Key(l: Library, ps: seq<Param>, req: Request): string { CanonText(Parts(l, ps, req)) }

  function KeyOf(l: Library, p: Param, req: Request): Option<string> { KeyText(SlotOf(l, p, req)) }

  /** How many parameters have a name. */
  function Times(ps: seq<Param>, n: string): nat {
    if ps == [] then 0 else Times(ps[..|ps| - 1], n) + (if ps[|ps| - 1].name == n then 1 else 0)
  }

  predicate PartOf(l: Library, p: Param, req: Request, x: (string, string)) {
    p.name == x.0 && KeyText(SlotOf(l, p, req)) == Some(x.1)
  }

  lemma LastPartOf(l: Library, ps: seq<Param>, req: Request, x: (string, string))
    requires ps != []
    ensures var n := |ps| - 1;
            x in Parts(l, ps, req) <==> x in Parts(l, ps[..n], req) || PartOf(l, ps[n], req, x)
  {
  }

  /** The parts are the key texts of the parameters that have one. */
  lemma {:induction false} PartsExact(l: Library, ps: seq<Param>, req: Request, x: (string, string))
    ensures x in Parts(l, ps, req) <==> exists i :: 0 <= i < |ps| && PartOf(l, ps[i], req, x)
    decreases |ps|
  {
    if ps != [] {
      var n := |ps| - 1;
      PartsExact(l, ps[..n], req, x);
      LastPartOf(l, ps, req, x);
      SomePartOf(l, ps, req, x);
    }
  }

  lemma SomePartOf(l: Library, ps: seq<Param>, req: Request, x: (string, string))
    requires ps != []
    ensures var n := |ps| - 1;
            (exists i :: 0 <= i < |ps| && PartOf(l, ps[i], req, x)) <==>
            (exists i :: 0 <= i < |ps[..n]| && PartOf(l, ps[..n][i], req, x)) || PartOf(l, ps[n], req, x)
  {
    assert forall i :: 0 <= i < |ps| - 1 ==> ps[..|ps| - 1][i] == ps[i];
  }

  /** Each name is bound to the value of its own parameter, and to nothing if that has none. */
  lemma {:induction false} ValueMapExact(l: Library, ps: seq<Param>, req: Request, i: nat)
    requires NoConflict(ps) && i < |ps|
    ensures var m, v := ValueMap(l, ps, req), ValueOf(SlotOf(l, ps[i], req));
            if v.None? then ps[i].name !in m else ps[i].name in m && m[ps[i].name] == v.value
    decreases |ps|
  {
    var n := |ps| - 1;
    if ps[n].name == ps[i].name {
      assert ps[n] == ps[i];
      NotBoundElsewhere(l, ps[..n], req, ps[i]);
    } else {
      assert ps[..n][i] == ps[i];
      ValueMapExact(l, ps[..n], req, i);
    }
  }

  lemma {:induction false} NotBoundElsewhere(l: Library, ps: seq<Param>, req: Request, p: Param)
    requires forall i :: 0 <= i < |ps| && ps[i].name == p.name ==> ps[i] == p
    ensures ValueOf(SlotOf(l, p, req)).None? ==> p.name !in ValueMap(l, ps, req)
    decreases |ps|
  {
    if ps != [] { NotBoundElsewhere(l, ps[..|ps| - 1], req, p); }
  }

  lemma PartsNamed(l: Library, ps: seq<Param>, req: Request)
    ensures Named(Parts(l, ps, req), Names(ps))
  {
    forall x | x in Parts(l, ps, req) ensures x.0 in Names(ps) {
      PartsExact(l, ps, req, x);
      var i :| 0 <= i < |ps| && PartOf(l, ps[i], req, x);
    }
  }

  /** A parameter's part occurs as often as the parameter. */
  lemma {:induction false} PartTimes(l: Library, ps: seq<Param>, req: Request, p: Param, v: string)
    requires (forall i :: 0 <= i < |ps| && ps[i].name == p.name ==> ps[i] == p) && KeyOf(l, p, req) == Some(v)
    ensures multiset(Parts(l, ps, req))[(p.name, v)] == Times(ps, p.name)
    decreases |ps|
  {
    if ps != [] {
      var n := |ps| - 1;
      PartTimes(l, ps[..n], req, p, v);
    }
  }

  lemma PartsCounted(l: Library, ps: seq<Param>, req: Request)
    requires NoConflict(ps)
    ensures Counted(Parts(l, ps, req), n => Times(ps, n))
  {
    var xs := Parts(l, ps, req);
    forall x, y | x in xs && y in xs && x.0 == y.0 ensures x == y {
      PartsExact(l, ps, req, x);
      PartsExact(l, ps, req, y);
    }
    forall x | x in xs ensures multiset(xs)[x] == Times(ps, x.0) {
      PartsExact(l, ps, req, x);
      var i :| 0 <= i < |ps| && PartOf(l, ps[i], req, x);
      PartTimes(l, ps, req, ps[i], x.1);
    }
  }

  /** A parameter's slot is determined by its key text. */
  lemma SlotFromKey(l: Library, p: Param, a: Request, b: Request)
    requires SlotOf(l, p, a) != Invalid && SlotOf(l, p, b) != Invalid
    requires KeyText(SlotOf(l, p, a)) == KeyText(SlotOf(l, p, b))
    ensures SlotOf(l, p, a) == SlotOf(l, p, b)
  {
    var x, y := SlotOf(l, p, a), SlotOf(l, p, b);
    if x.Given? && y.Given? {
      CoerceVariant(l, p, Raw(p, a).value);
      CoerceVariant(l, p, Raw(p, b).value);
      CanonInjective(p, x.v, y.v);
    }
  }

  lemma KeyFromParts(l: Library, ps: seq<Param>, a: Request, b: Request, i: nat)
    requires i < |ps| && NoConflict(ps) && KeyText(SlotOf(l, ps[i], a)).Some?
    requires multiset(Parts(l, ps, a)) == multiset(Parts(l, ps, b))
    ensures KeyText(SlotOf(l, ps[i], b)) == KeyText(SlotOf(l, ps[i], a))
  {
    var x := (ps[i].name, KeyText(SlotOf(l, ps[i], a)).value);
    PartsExact(l, ps, a, x);
    assert PartOf(l, ps[i], a, x);
    assert x in multiset(Parts(l, ps, a));
    assert x in Parts(l, ps, b);
    PartsExact(l, ps, b, x);
    var j :| 0 <= j < |ps| && PartOf(l, ps[j], b, x);
    assert ps[j] == ps[i];
  }

  /** The loops of `resolve` see a request only through its slots. */
  lemma {:induction false} SlotsDecide(l: Library, ps: seq<Param>, a: Request, b: Request)
    requires forall i :: 0 <= i < |ps| ==> SlotOf(l, ps[i], a) == SlotOf(l, ps[i], b)
    ensures ValueMap(l, ps, a) == ValueMap(l, ps, b) && ChoiceMap(l, ps, a) == ChoiceMap(l, ps, b)
    ensures PresentMap(l, ps, a) == PresentMap(l, ps, b) && Parts(l, ps, a) == Parts(l, ps, b)
    decreases |ps|
  {
    if ps != [] {
      var n := |ps| - 1;
      assert SlotOf(l, ps[n], a) == SlotOf(l, ps[n], b);
      SlotsDecide(l, ps[..n], a, b);
      LastValues(l, ps, a, b);
      LastParts(l, ps, a, b);
    }
  }

  lemma LastValues(l: Library, ps: seq<Param>, a: Request, b: Request)
    requires ps != [] && SlotOf(l, ps[|ps| - 1], a) == SlotOf(l, ps[|ps| - 1], b)
    requires var n := |ps| - 1;
             ValueMap(l, ps[..n], a) == ValueMap(l, ps[..n], b) && ChoiceMap(l, ps[..n], a) == ChoiceMap(l, ps[..n], b)
    ensures ValueMap(l, ps, a) == ValueMap(l, ps, b) && ChoiceMap(l, ps, a) == ChoiceMap(l, ps, b)
  {
  }

  lemma LastParts(l: Library, ps: seq<Param>, a: Request, b: Request)
    requires ps != [] && SlotOf(l, ps[|ps| - 1], a) == SlotOf(l, ps[|ps| - 1], b)
    requires var n := |ps| - 1;
             PresentMap(l, ps[..n], a) == PresentMap(l, ps[..n], b) && Parts(l, ps[..n], a) == Parts(l, ps[..n], b)
    ensures PresentMap(l, ps, a) == PresentMap(l, ps, b) && Parts(l, ps, a) == Parts(l, ps, b)
  {
  }

  /** Two accepted requests with the same canonical string and no later mark in any value have the
      same values, fragments, SQL text and ordered binds. */
  lemma KeyDeterminesQuery(l: Library, spec: Spec, a: Request, b: Request)
    requires Accepts(l, spec.params, a) && Accepts(l, spec.params, b) && NoConflict(spec.params)
    requires PlainNames(Names(spec.params)) && Settled(l, spec.params, a) && Settled(l, spec.params, b)
    requires Key(l, spec.params, a) == Key(l, spec.params, b)
    ensures ValueMap(l, spec.params, a) == ValueMap(l, spec.params, b)
    ensures Choice(l, spec, a) == Choice(l, spec, b) && SubstitutedSql(l, spec, a) == SubstitutedSql(l, spec, b)
    ensures AllBound(l, spec, a) <==> AllBound(l, spec, b)
    ensures AllBound(l, spec, a) ==>
              var ts := BT.Tokens(false, SubstitutedSql(l, spec, a));
              && BT.PgText(ts, ValueMap(l, spec.params, a), 0) == BT.PgText(ts, ValueMap(l, spec.params, b), 0)
              && BT.Values(BT.BindNames(ts), ValueMap(l, spec.params, a)) ==
                 BT.Values(BT.BindNames(ts), ValueMap(l, spec.params, b))
  {
    var ps := spec.params;
    PartsCounted(l, ps, a);
    PartsCounted(l, ps, b);
    CanonBack(Parts(l, ps, a), Parts(l, ps, b), n => Times(ps, n), Names(ps));
    forall i | 0 <= i < |ps| ensures SlotOf(l, ps[i], a) == SlotOf(l, ps[i], b) {
      if KeyText(SlotOf(l, ps[i], a)).Some? {
        KeyFromParts(l, ps, a, b, i);
      } else if KeyText(SlotOf(l, ps[i], b)).Some? {
        KeyFromParts(l, ps, b, a, i);
      }
      SlotFromKey(l, ps[i], a, b);
    }
    SlotsDecide(l, ps, a, b);
  }

  // ---- Which fragment a parameter puts in ----------------------------------------------------------

  /** What a parameter leaves in the maps of choices and of presence. */
  lemma {:induction false} MapsExact(l: Library, ps: seq<Param>, req: Request, p: Param)
    requires (forall i :: 0 <= i < |ps| && ps[i].name == p.name ==> ps[i] == p)
    ensures var x := SlotOf(l, p, req);
            var cs, here := ChoiceMap(l, ps, req), PresentMap(l, ps, req);
            && (p in ps ==> p.name in here && here[p.name] == ValueOf(x).Some?)
            && (x.Chosen? && p in ps ==> p.name in cs && cs[p.name] == x.choice)
            && (!x.Chosen? ==> p.name !in cs)
    decreases |ps|
  {
    if ps != [] {
      var n := |ps| - 1;
      MapsExact(l, ps[..n], req, p);
      assert p in ps <==> p in ps[..n] || ps[n] == p;
    }
  }

  predicate Offers(p: Param, f: string) {
    f in p.present || f in p.absent || exists c :: c in p.select && f in p.select[c]
  }

  /** A fragment nobody behind a parameter offers is the one up to that parameter. */
  lemma {:induction false} FragmentsUpTo(ps: seq<Param>, cs: map<string, string>, here: map<string, bool>,
                                         k: nat, f: string)
    requires k <= |ps| && forall j :: k <= j < |ps| ==> !Offers(ps[j], f)
    ensures var a, b := Fragments(ps, cs, here), Fragments(ps[..k], cs, here);
            (f in a <==> f in b) && (f in a ==> a[f] == b[f])
    decreases |ps|
  {
    if k == |ps| {
      assert ps[..k] == ps;
    } else {
      assert ps[..|ps| - 1][..k] == ps[..k];
      FragmentsUpTo(ps[..|ps| - 1], cs, here, k, f);
    }
  }

  /** What the last parameter puts in. */
  lemma LastFragment(ps: seq<Param>, cs: map<string, string>, here: map<string, bool>, f: string)
    requires ps != []
    ensures var p, fs := ps[|ps| - 1], Fragments(ps, cs, here);
            && (IsEnum(p) && p.name in cs && cs[p.name] in p.select && f in p.select[cs[p.name]] ==>
                  f in fs && fs[f] == p.select[cs[p.name]][f])
            && (!IsEnum(p) && p.name in here ==>
                  && (here[p.name] && f in p.present ==> f in fs && fs[f] == p.present[f])
                  && (!here[p.name] && f in p.absent ==> f in fs && fs[f] == p.absent[f]))
  {
  }

  /** The last parameter that offers a fragment decides it. */
  lemma FragmentAt(ps: seq<Param>, cs: map<string, string>, here: map<string, bool>, i: nat, f: string)
    requires i < |ps| && forall j :: i < j < |ps| ==> !Offers(ps[j], f)
    ensures var p, fs := ps[i], Fragments(ps, cs, here);
            && (IsEnum(p) && p.name in cs && cs[p.name] in p.select && f in p.select[cs[p.name]] ==>
                  f in fs && fs[f] == p.select[cs[p.name]][f])
            && (!IsEnum(p) && p.name in here ==>
                  && (here[p.name] && f in p.present ==> f in fs && fs[f] == p.present[f])
                  && (!here[p.name] && f in p.absent ==> f in fs && fs[f] == p.absent[f]))
  {
    FragmentsUpTo(ps, cs, here, i + 1, f);
    LastFragment(ps[..i + 1], cs, here, f);
  }

  /** A choice puts in its own text for a fragment, unless a later parameter offers the fragment too. */
  lemma ChosenFragment(l: Library, spec: Spec, req: Request, i: nat, f: string, raw: string, c: string)
    requires NoConflict(spec.params) && i < |spec.params|
    requires forall j :: i < j < |spec.params| ==> !Offers(spec.params[j], f)
    requires var p := spec.params[i];
             && (p.ty == "enum" || p.select != map[]) && Supplied(p, req, raw)
             && c in p.select && IsTransformed(l, p.transform, raw, c) && f in p.select[c]
    ensures f in Choice(l, spec, req) && Choice(l, spec, req)[f] == spec.params[i].select[c][f]
  {
    var ps, p := spec.params, spec.params[i];
    MapsExact(l, ps, req, p);
    SuppliedRaw(l, p, req);
    assert SlotOf(l, p, req).Chosen? && SlotOf(l, p, req).choice == c;
    FragmentAt(ps, ChoiceMap(l, ps, req), PresentMap(l, ps, req), i, f);
  }

  /** A parameter with a value puts in its `present` text and one without its `absent` text, unless a
      later parameter offers the fragment too. */
  lemma PresenceFragment(l: Library, spec: Spec, req: Request, i: nat, f: string)
    requires NoConflict(spec.params) && i < |spec.params|
    requires forall j :: i < j < |spec.params| ==> !Offers(spec.params[j], f)
    requires spec.params[i].ty != "enum" && spec.params[i].select == map[]
    ensures var p, fs := spec.params[i], Choice(l, spec, req);
            && (f in p.present && (exists v :: Carries(l, p, req, v)) ==> f in fs && fs[f] == p.present[f])
            && (f in p.absent && !(exists v :: Carries(l, p, req, v)) ==> f in fs && fs[f] == p.absent[f])
  {
    var ps, p := spec.params, spec.params[i];
    MapsExact(l, ps, req, p);
    SuppliedRaw(l, p, req);
    FragmentAt(ps, ChoiceMap(l, ps, req), PresentMap(l, ps, req), i, f);
  }

  lemma SuppliedRaw(l: Library, p: Param, req: Request)
    ensures forall raw :: Supplied(p, req, raw) <==> Raw(p, req) == Some(raw)
    ensures (exists v :: Carries(l, p, req, v)) <==> ValueOf(SlotOf(l, p, req)).Some?
  {
    forall v ensures ValueOf(SlotOf(l, p, req)) == Some(v) <==> Carries(l, p, req, v) { SlotExact(l, p, req, v); }
    var x := ValueOf(SlotOf(l, p, req));
    if x.Some? { assert Carries(l, p, req, x.value); }
  }

  /** A fragment that nobody offers is empty. */
  lemma NoFragment(l: Library, spec: Spec, req: Request, f: string)
    requires forall j :: 0 <= j < |spec.params| ==> !Offers(spec.params[j], f)
    ensures f !in Choice(l, spec, req)
  {
    FragmentsUpTo(spec.params, ChoiceMap(l, spec.params, req), PresentMap(l, spec.params, req), 0, f);
  }

  /** Omitting a query parameter and sending its default are the same request. */
  lemma DefaultSharesKey(l: Library, spec: Spec, req: Request, k: nat)
    requires k < |spec.params| && NoConflict(spec.params)
    requires var p := spec.params[k]; !p.isPath && p.default.Some? && p.name !in req.query
    ensures var p := spec.params[k];
            var said := req.(query := req.query[p.name := p.default.value]);
            && (Accepts(l, spec.params, said) <==> Accepts(l, spec.params, req))
            && ValueMap(l, spec.params, said) == ValueMap(l, spec.params, req)
            && SubstitutedSql(l, spec, said) == SubstitutedSql(l, spec, req)
            && Key(l, spec.params, said) == Key(l, spec.params, req)
  {
    var ps, p := spec.params, spec.params[k];
    var said := req.(query := req.query[p.name := p.default.value]);
    forall i | 0 <= i < |ps| ensures SlotOf(l, ps[i], said) == SlotOf(l, ps[i], req) {
      assert ps[i].name == p.name ==> ps[i] == p;
      assert Raw(ps[i], said) == Raw(ps[i], req);
    }
    SlotsDecide(l, ps, said, req);
  }

  // ---- Values that hold a later mark ---------------------------------------------------------------------

  /** Each name stands for one parameter, listed once. */
  ghost predicate Distinct(ps: seq<Param>) { forall i, j :: 0 <= i < j < |ps| ==> ps[i].name != ps[j].name }

  lemma {:induction false} PartsDistinct(l: Library, ps: seq<Param>, req: Request)
    requires Distinct(ps)
    ensures DistinctNames(Parts(l, ps, req))
    decreases |ps|
  {
    if ps != [] {
      var n := |ps| - 1;
      PartsDistinct(l, ps[..n], req);
      forall x | x in Parts(l, ps[..n], req) ensures x.0 != ps[n].name {
        PartsExact(l, ps[..n], req, x);
        var i :| 0 <= i < n && PartOf(l, ps[..n][i], req, x);
      }
    }
  }

  /** The parts of a request in the order of its key. */
  function SortedParts(l: Library, ps: seq<Param>, req: Request): seq<Pair> { SortParts(Parts(l, ps, req)) }

  lemma SortedExact(l: Library, ps: seq<Param>, req: Request)
    requires Distinct(ps)
    ensures var o := SortedParts(l, ps, req);
            && Rising(o) && Named(o, Names(ps)) && Joined(o) == Key(l, ps, req)
            && (Settled(l, ps, req) <==> Readable(o, Names(ps)))
            && (forall z :: z in o <==> z in Parts(l, ps, req))
  {
    PartsDistinct(l, ps, req);
    PartsNamed(l, ps, req);
    SortRises(Parts(l, ps, req));
  }

  /** For every specification and any two requests, of any parameter types and values: they share
      their key exactly when their parts have the same tame reading. */
  lemma KeysExact(l: Library, ps: seq<Param>, a: Request, b: Request)
    requires Distinct(ps) && PlainNames(Names(ps))
    ensures Key(l, ps, a) == Key(l, ps, b) <==>
            Normal(SortedParts(l, ps, a), Names(ps)) == Normal(SortedParts(l, ps, b), Names(ps))
    ensures Settled(l, ps, a) <==> Normal(SortedParts(l, ps, a), Names(ps)) == SortedParts(l, ps, a)
  {
    SortedExact(l, ps, a);
    SortedExact(l, ps, b);
    JoinedExact(SortedParts(l, ps, a), SortedParts(l, ps, b), Names(ps));
  }

  /** A text parameter, optional if read from the query. */
  function Plain(name: string, isPath: bool): Param {
    Param(name, isPath, "str", false, None, None, None, None, NoTransform, map[], map[], map[])
  }

  lemma PlainSlot(l: Library, p: Param, req: Request)
    requires p == Plain(p.name, p.isPath)
    ensures SlotOf(l, p, req) ==
            match Raw(p, req) case None => (if p.isPath then Invalid else Missing) case Some(r) => Given(Text(r))
  {
    assert !IsEnum(p) by { assert "str"[0] != "enum"[0]; }
    assert "str"[1] != "key"[1] && "str" != "symbol";
  }

  /** The parameters from a name on are optional texts. */
  ghost predicate TextFrom(ps: seq<Param>, a: string) {
    forall i :: 0 <= i < |ps| && !StrLess(ps[i].name, a) ==> ps[i] == Plain(ps[i].name, false)
  }

  /** The values of a list with one part per name. */
  function AsQuery(r: seq<Pair>): map<string, string> {
    if r == [] then map[] else AsQuery(r[1..])[r[0].0 := r[0].1]
  }

  lemma {:induction false} AsQueryExact(r: seq<Pair>, n: string)
    requires Rising(r)
    ensures forall v :: (n in AsQuery(r) && AsQuery(r)[n] == v) <==> (n, v) in r
    ensures n in AsQuery(r) <==> exists v :: (n, v) in r
  {
    if r != [] {
      AsQueryExact(r[1..], n);
      forall v ensures (n, v) in r <==> (n, v) == r[0] || (n, v) in r[1..] { assert r == [r[0]] + r[1..]; }
      forall j | 1 <= j < |r| ensures r[j].0 != r[0].0 { StrOrder(r[0].0, r[j].0); }
    }
  }

  /** A request that sends `r` for the parameters from `a` on and the same as `x` for the others. */
  function Resent(ps: seq<Param>, x: Request, a: string, r: seq<Pair>): Request {
    x.(query := (map n | n in x.query && (n !in Names(ps) || StrLess(n, a)) :: x.query[n]) + AsQuery(r))
  }

  lemma ResentSlots(l: Library, ps: seq<Param>, x: Request, a: string, r: seq<Pair>, i: nat)
    requires i < |ps| && TextFrom(ps, a) && Rising(r) && (forall z :: z in r ==> !StrLess(z.0, a))
    ensures var y, p := Resent(ps, x, a, r), ps[i];
            && (StrLess(p.name, a) ==> SlotOf(l, p, y) == SlotOf(l, p, x))
            && (!StrLess(p.name, a) ==> SlotOf(l, p, y) != Invalid
                                        && forall v :: KeyOf(l, p, y) == Some(v) <==> (p.name, v) in r)
  {
    var y, p := Resent(ps, x, a, r), ps[i];
    AsQueryExact(r, p.name);
    assert p.name in Names(ps);
    if StrLess(p.name, a) {
      assert Raw(p, y) == Raw(p, x);
    } else {
      PlainSlot(l, p, y);
    }
  }

  /** The parts in front of `a` stay and those from `a` on are the ones sent. */
  lemma ResentParts(l: Library, ps: seq<Param>, x: Request, a: string, pre: seq<Pair>, r: seq<Pair>)
    requires Distinct(ps) && TextFrom(ps, a) && Rising(pre + r) && Named(r, Names(ps))
    requires forall z :: z in r ==> !StrLess(z.0, a)
    requires forall z :: z in pre <==> z in Parts(l, ps, x) && StrLess(z.0, a)
    ensures SortedParts(l, ps, Resent(ps, x, a, r)) == pre + r
  {
    var y := Resent(ps, x, a, r);
    assert Rising(r) by {
      assert forall i :: 0 <= i < |r| ==> r[i] == (pre + r)[|pre| + i];
    }
    forall z ensures z in Parts(l, ps, y) <==> z in pre + r { ResentPart(l, ps, x, a, pre, r, z); }
    PartsDistinct(l, ps, y);
    SortDistinct(Parts(l, ps, y), pre + r);
  }

  lemma ResentPart(l: Library, ps: seq<Param>, x: Request, a: string, pre: seq<Pair>, r: seq<Pair>, z: Pair)
    requires TextFrom(ps, a) && Rising(r) && Named(r, Names(ps)) && (forall z :: z in r ==> !StrLess(z.0, a))
    requires forall z :: z in pre <==> z in Parts(l, ps, x) && StrLess(z.0, a)
    ensures z in Parts(l, ps, Resent(ps, x, a, r)) <==> z in pre + r
  {
    var y := Resent(ps, x, a, r);
    PartsExact(l, ps, y, z);
    PartsExact(l, ps, x, z);
    forall i | 0 <= i < |ps| && ps[i].name == z.0
      ensures StrLess(z.0, a) ==> (PartOf(l, ps[i], y, z) <==> PartOf(l, ps[i], x, z))
      ensures !StrLess(z.0, a) ==> (PartOf(l, ps[i], y, z) <==> z in r)
    {
      ResentSlots(l, ps, x, a, r, i);
      assert z == (z.0, z.1);
    }
    if z in r { assert z.0 in Names(ps); }
  }

  /** Sending another list with the same string from the `k`-th part on keeps the key. */
  lemma ResentCollides(l: Library, ps: seq<Param>, x: Request, k: nat, r: seq<Pair>)
    requires Distinct(ps) && Accepts(l, ps, x) && k < |SortedParts(l, ps, x)|
    requires TextFrom(ps, SortedParts(l, ps, x)[k].0)
    requires var o := SortedParts(l, ps, x);
             && r != [] && Rising(r) && Named(r, Names(ps)) && r[0].0 == o[k].0 && r[0].1 != o[k].1
             && Joined(r) == Joined(o[k..])
    ensures var o := SortedParts(l, ps, x);
            var y := Resent(ps, x, o[k].0, r);
            && Accepts(l, ps, y) && Key(l, ps, y) == Key(l, ps, x) && ValueMap(l, ps, y) != ValueMap(l, ps, x)
            && SortedParts(l, ps, y) == o[..k] + r
  {
    var o := SortedParts(l, ps, x);
    var a := o[k].0;
    var y := Resent(ps, x, a, r);
    SortedExact(l, ps, x);
    SplitAt(o, k, r);
    forall z ensures z in o[..k] <==> z in Parts(l, ps, x) && StrLess(z.0, a) { InFront(o, k, z); }
    ResentParts(l, ps, x, a, o[..k], r);
    forall i | 0 <= i < |ps| ensures SlotOf(l, ps[i], y) != Invalid { ResentSlots(l, ps, x, a, r, i); }
    SortedExact(l, ps, y);
    SameTail(o[..k], o[k..], r);
    TakeDrop(o, k);
    OtherValue(l, ps, x, y, o[k], r[0]);
  }

  /** A rising list stays so when another one with the same head replaces its tail. */
  lemma SplitAt(o: seq<Pair>, k: nat, r: seq<Pair>)
    requires k < |o| && Rising(o) && Rising(r) && r != [] && r[0].0 == o[k].0
    ensures Rising(o[..k] + r) && forall z :: z in r ==> !StrLess(z.0, o[k].0)
  {
    forall j | 0 <= j < |r| ensures !StrLess(r[j].0, o[k].0) { StrOrder(r[0].0, r[j].0); }
    forall i, j | 0 <= i < k && 0 <= j < |r| ensures StrLess(o[i].0, r[j].0) {
      if j > 0 { StrChain(o[i].0, r[0].0, r[j].0); }
    }
  }

  lemma InFront(o: seq<Pair>, k: nat, z: Pair)
    requires k < |o| && Rising(o)
    ensures z in o[..k] <==> z in o && StrLess(z.0, o[k].0)
  {
    if z in o && StrLess(z.0, o[k].0) {
      var j :| 0 <= j < |o| && o[j] == z;
      StrOrder(z.0, o[k].0);
      assert o[..k][j] == z;
    }
  }

  /** Two requests that send different texts for one parameter bind different values. */
  lemma OtherValue(l: Library, ps: seq<Param>, x: Request, y: Request, v: Pair, w: Pair)
    requires Distinct(ps) && v.0 == w.0 && v.1 != w.1 && TextFrom(ps, v.0)
    requires v in Parts(l, ps, x) && w in Parts(l, ps, y)
    ensures ValueMap(l, ps, x) != ValueMap(l, ps, y)
  {
    PartsExact(l, ps, x, v);
    PartsExact(l, ps, y, w);
    var i :| 0 <= i < |ps| && PartOf(l, ps[i], x, v);
    assert PartOf(l, ps[i], y, w);
    StrOrder(v.0, v.0);
    PlainSlot(l, ps[i], x);
    PlainSlot(l, ps[i], y);
    ValueMapExact(l, ps, x, i);
    ValueMapExact(l, ps, y, i);
  }

  /** Every accepted request with the mark of a later name in a value, where the parameters from that
      value's on are optional texts, shares its key with another accepted request that binds other
      values; and that one is settled if no value in front has such a mark. */
  lemma LaterMarkCollides(l: Library, ps: seq<Param>, x: Request, k: nat) returns (y: Request)
    requires Distinct(ps) && PlainNames(Names(ps)) && Accepts(l, ps, x) && k < |SortedParts(l, ps, x)|
    requires var z := SortedParts(l, ps, x)[k]; TextFrom(ps, z.0) && !Tame(z.0, z.1, Names(ps))
    ensures Accepts(l, ps, y) && Key(l, ps, y) == Key(l, ps, x) && ValueMap(l, ps, y) != ValueMap(l, ps, x)
    ensures Readable(SortedParts(l, ps, x)[..k], Names(ps)) ==> Settled(l, ps, y)
  {
    var o, names := SortedParts(l, ps, x), Names(ps);
    SortedExact(l, ps, x);
    assert o[k] in o;
    var a, t := o[k].0, Behind(o[k].1, o[k..][1..]);
    var r := Reading(a, t, names);
    ReadingExact(a, t, names);
    ReadingCuts(a, o[k].1, o[k..][1..], names);
    JoinedCons(o[k..]);
    y := Resent(ps, x, a, r);
    ResentCollides(l, ps, x, k, r);
    SortedExact(l, ps, y);
  }

  // ---- The exact condition -------------------------------------------------------------------------------

  /** A specification of optional texts. */
  ghost predicate TextSpec(ps: seq<Param>) {
    Distinct(ps) && PlainNames(Names(ps)) && forall i :: 0 <= i < |ps| ==> ps[i] == Plain(ps[i].name, false)
  }

  lemma TextAccepts(l: Library, ps: seq<Param>, x: Request)
    requires TextSpec(ps)
    ensures Accepts(l, ps, x)
  {
    forall i | 0 <= i < |ps| ensures SlotOf(l, ps[i], x) != Invalid { PlainSlot(l, ps[i], x); }
  }

  lemma {:induction false} FirstWild(o: seq<Pair>, names: set<string>, k: nat) returns (j: nat)
    requires k < |o| && Named(o, names) && !Tame(o[k].0, o[k].1, names)
    ensures j < |o| && !Tame(o[j].0, o[j].1, names) && Readable(o[..j], names)
    decreases k
  {
    if i :| 0 <= i < k && !Tame(o[i].0, o[i].1, names) {
      j := FirstWild(o, names, i);
    } else {
      j := k;
    }
  }

  /** A request agrees with every settled request that shares its key if and only if it is settled
      itself: the settled requests are the largest set the key tells apart in this way. */
  lemma SettledExact(l: Library, ps: seq<Param>, x: Request)
    requires TextSpec(ps)
    ensures Settled(l, ps, x) <==>
            forall y :: Settled(l, ps, y) && Key(l, ps, y) == Key(l, ps, x) ==> ValueMap(l, ps, y) == ValueMap(l, ps, x)
  {
    if Settled(l, ps, x) {
      forall y | Settled(l, ps, y) && Key(l, ps, y) == Key(l, ps, x)
        ensures ValueMap(l, ps, y) == ValueMap(l, ps, x)
      {
        TextAccepts(l, ps, x);
        TextAccepts(l, ps, y);
        KeyDeterminesQuery(l, Spec(ps, ""), x, y);
      }
    } else {
      var y := SettledTwin(l, ps, x);
    }
  }

  lemma SettledTwin(l: Library, ps: seq<Param>, x: Request) returns (y: Request)
    requires TextSpec(ps) && !Settled(l, ps, x)
    ensures Settled(l, ps, y) && Key(l, ps, y) == Key(l, ps, x) && ValueMap(l, ps, y) != ValueMap(l, ps, x)
  {
    var o := SortedParts(l, ps, x);
    SortedExact(l, ps, x);
    var z :| z in o && !Tame(z.0, z.1, Names(ps));
    var i :| 0 <= i < |o| && o[i] == z;
    var k := FirstWild(o, Names(ps), i);
    TextAccepts(l, ps, x);
    y := LaterMarkCollides(l, ps, x, k);
  }

  /** A request has its key to itself if and only if it sends at most one parameter and no later mark. */
  lemma AloneExact(l: Library, ps: seq<Param>, x: Request)
    requires TextSpec(ps)
    ensures |SortedParts(l, ps, x)| <= 1 && Settled(l, ps, x) <==>
            forall y :: Key(l, ps, y) == Key(l, ps, x) ==> ValueMap(l, ps, y) == ValueMap(l, ps, x)
  {
    TextAccepts(l, ps, x);
    if !Settled(l, ps, x) {
      var y := SettledTwin(l, ps, x);
    } else if |SortedParts(l, ps, x)| <= 1 {
      forall y | Key(l, ps, y) == Key(l, ps, x) ensures ValueMap(l, ps, y) == ValueMap(l, ps, x) {
        ShortIsSettled(l, ps, x, y);
        TextAccepts(l, ps, y);
        KeyDeterminesQuery(l, Spec(ps, ""), x, y);
      }
    } else {
      var y := Merged(l, ps, x);
    }
  }

  /** Two parts and more read as one. */
  lemma Merged(l: Library, ps: seq<Param>, x: Request) returns (y: Request)
    requires TextSpec(ps) && |SortedParts(l, ps, x)| > 1
    ensures Key(l, ps, y) == Key(l, ps, x) && ValueMap(l, ps, y) != ValueMap(l, ps, x)
  {
    var o := SortedParts(l, ps, x);
    var r := [(o[0].0, Behind(o[0].1, o[1..]))];
    SortedExact(l, ps, x);
    assert o[0] in o && o[0..] == o;
    JoinedCons(o);
    JoinedCons(r);
    TextAccepts(l, ps, x);
    y := Resent(ps, x, o[0].0, r);
    ResentCollides(l, ps, x, 0, r);
  }

  /** A request with the key of a settled request of at most one part is settled. */
  lemma ShortIsSettled(l: Library, ps: seq<Param>, x: Request, y: Request)
    requires TextSpec(ps) && Settled(l, ps, x) && |SortedParts(l, ps, x)| <= 1 && Key(l, ps, y) == Key(l, ps, x)
    ensures Settled(l, ps, y)
  {
    var o, q := SortedParts(l, ps, x), SortedParts(l, ps, y);
    SortedExact(l, ps, x);
    SortedExact(l, ps, y);
    if o != [] { JoinedCons(o); }
    if q != [] {
      JoinedCons(q);
      assert o[0] in o && q[0] in q;
      HeadBack(q, o);
      if |q| > 1 {
        assert q[1] in q;
        ValuesAgree(q[0].0, q[0].1, q[1..], o[0].1, [], Names(ps));
      }
      assert q == [q[0]] + q[1..];
    }
  }

  /** A name used for a path and a query parameter: swapping the two values keeps the key and
      changes the value bound to the name. */
  lemma SharedNameCollides(l: Library, n: string, s: string, t: string)
    requires s != t
    ensures var ps := [Plain(n, true), Plain(n, false)];
            var x := Request(map[n := s], map[n := t]);
            var y := Request(map[n := t], map[n := s]);
            && CanonText(Parts(l, ps, x)) == CanonText(Parts(l, ps, y))
            && ValueMap(l, ps, x) != ValueMap(l, ps, y)
  {
    var ps := [Plain(n, true), Plain(n, false)];
    var x, y := Request(map[n := s], map[n := t]), Request(map[n := t], map[n := s]);
    PathAndQuery(l, n, s, t);
    PathAndQuery(l, n, t, s);
    assert multiset([(n, s), (n, t)]) == multiset([(n, t), (n, s)]);
    SameSorted([(n, s), (n, t)], [(n, t), (n, s)]);
    assert ValueMap(l, ps, x)[n] != ValueMap(l, ps, y)[n];
  }

  lemma PathAndQuery(l: Library, n: string, s: string, t: string)
    ensures var ps := [Plain(n, true), Plain(n, false)];
            var x := Request(map[n := s], map[n := t]);
            Parts(l, ps, x) == [(n, s), (n, t)] && n in ValueMap(l, ps, x) && ValueMap(l, ps, x)[n] == Text(t)
  {
    var ps := [Plain(n, true), Plain(n, false)];
    var x := Request(map[n := s], map[n := t]);
    PlainSlot(l, ps[0], x);
    PlainSlot(l, ps[1], x);
    assert ps[..1] == [ps[0]] && ps[..1][..0] == [];
    assert Parts(l, ps[..1], x) == [(n, s)];
  }
}
