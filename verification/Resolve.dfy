/** Resolving a request against an endpoint specification: parameter values, fragments, SQL text
    and the canonical cache-key string. */
module Resolve {
  import opened Strings
  import opened Options
  import opened BindValues
  import BT = BindText

  // ---- Specifications and requests ------------------------------------------------------------

  datatype Transform = NoTransform | Upper | Lower

  datatype Param = Param(
    name: string, isPath: bool, ty: string, required: bool, default: Option<string>,
    min: Option<real>, max: Option<real>, maxLen: Option<nat>, transform: Transform,
    select: map<string, map<string, string>>, present: map<string, string>, absent: map<string, string>)

  datatype Spec = Spec(params: seq<Param>, sql: string)

  datatype Request = Request(path: map<string, string>, query: map<string, string>)

  /** Library conversions: case mapping, and the parsers of numbers and times, which yield the
      canonical rendering of what they read. */
  datatype Library = Library(
    upper: string -> string, lower: string -> string,
    parseInt: string -> Option<int>, parseFloat: string -> Option<string>, floatLess: (string, real) -> bool,
    floatMore: (string, real) -> bool, parseDate: string -> Option<string>, parseTs: string -> Option<string>)

  predicate IsEnum(p: Param) { p.ty == "enum" || p.select != map[] }

  predicate IsPresence(p: Param) { p.present != map[] || p.absent != map[] }

  function Transformed(l: Library, s: string, t: Transform): string {
    match t case NoTransform => s case Upper => l.upper(s) case Lower => l.lower(s)
  }

  predicate InRange(p: Param, n: int) {
    (p.min.Some? ==> n as real >= p.min.value) && (p.max.Some? ==> n as real <= p.max.value)
  }

  predicate FloatInRange(l: Library, p: Param, f: string) {
    (p.min.Some? ==> !l.floatLess(f, p.min.value)) && (p.max.Some? ==> !l.floatMore(f, p.max.value))
  }

  predicate KeyChars(s: string) {
    0 < |s| <= 20 && forall c :: c in s ==> IsAlpha(c) || IsDigit(c) || c == '.' || c == '-' || c == '_'
  }

  /** A raw value as a bind value, or a 4xx. */
  function Coerce(l: Library, p: Param, raw: string): Option<BindValue> {
    if p.ty == "key" || p.ty == "symbol" then
      var s := Transformed(l, l.upper(Trim(raw)), p.transform);
      if KeyChars(s) then Some(Text(s)) else None
    else if p.ty == "str" then
      var s := Transformed(l, raw, p.transform);
      if p.maxLen.Some? && |s| > p.maxLen.value then None else Some(Text(s))
    else if p.ty == "int" then
      match l.parseInt(Trim(raw))
      case None => None
      case Some(n) => if InRange(p, n) then Some(Int(n)) else None
    else if p.ty == "float" then
      match l.parseFloat(Trim(raw))
      case None => None
      case Some(f) => if FloatInRange(l, p, f) then Some(Float(f)) else None
    else if p.ty == "date" then
      match l.parseDate(Trim(raw)) case None => None case Some(d) => Some(Date(d))
    else if p.ty == "timestamp" then
      match l.parseTs(Trim(raw)) case None => None case Some(t) => Some(Ts(t))
    else if p.ty == "bool" then
      var b := l.lower(Trim(raw));
      Some(Bool(b == "1" || b == "true" || b == "yes"))
    else if p.ty == "enum" then Some(Text(Transformed(l, raw, p.transform)))
    else None
  }

  /** The variant a parameter's values have, whatever the request says. */
  predicate HasVariant(p: Param, v: BindValue) {
    if p.ty == "int" then v.Int? else if p.ty == "float" then v.Float? else if p.ty == "date" then v.Date?
    else if p.ty == "timestamp" then v.Ts? else if p.ty == "bool" then v.Bool? else v.Text?
  }

  lemma CoerceVariant(l: Library, p: Param, raw: string)
    ensures Coerce(l, p, raw).Some? ==> HasVariant(p, Coerce(l, p, raw).value)
  {
  }

  function Canon(v: BindValue): string {
    match v
    case Text(s) => s
    case Int(i) => DecInt(i)
    case Float(f) => f
    case Date(d) => d
    case Ts(t) => t
    case Bool(b) => if b then "true" else "false"
  }

  lemma CanonInjective(p: Param, v: BindValue, w: BindValue)
    requires HasVariant(p, v) && HasVariant(p, w) && Canon(v) == Canon(w)
    ensures v == w
  {
    if p.ty == "int" { DecIntInjective(v.i, w.i); }
    assert "true"[0] == 't' && "false"[0] == 'f';
  }

  /** A truth value's canonical text is read back as that value. */
  lemma BoolCanonBack(l: Library, p: Param, b: bool)
    requires p.ty == "bool" && l.lower("true") == "true" && l.lower("false") == "false"
    ensures Coerce(l, p, Canon(Bool(b))) == Some(Bool(b))
  {
    TrimIdle("true");
    TrimIdle("false");
    OneType(p.ty);
    assert "true"[0] == 't' && "false"[0] == 'f' && "1"[0] == '1' && "yes"[0] == 'y';
  }

  // ---- One parameter --------------------------------------------------------------------------

  function Raw(p: Param, req: Request): Option<string> {
    if p.isPath then (if p.name in req.path then Some(req.path[p.name]) else None)
    else if p.name in req.query then Some(req.query[p.name])
    else p.default
  }

  /** What a parameter resolves to. */
  datatype Slot = Missing | Chosen(choice: string, bound: string) | Given(v: BindValue) | Invalid

  function BoundOf(p: Param, choice: string): string
    requires choice in p.select
  {
    if p.name in p.select[choice] then p.select[choice][p.name] else choice
  }

  function SlotFor(l: Library, p: Param, raw: Option<string>): Slot {
    match raw
    case None => if p.required || p.isPath then Invalid else Missing
    case Some(r) =>
      if IsEnum(p) then
        var choice := Transformed(l, r, p.transform);
        if choice in p.select then Chosen(choice, BoundOf(p, choice)) else Invalid
      else match Coerce(l, p, r) case None => Invalid case Some(v) => Given(v)
  }

  function SlotOf(l: Library, p: Param, req: Request): Slot { SlotFor(l, p, Raw(p, req)) }

  /** The value bound to `:name`. */
  function ValueOf(x: Slot): Option<BindValue> {
    match x case Chosen(_, b) => Some(Text(b)) case Given(v) => Some(v) case _ => None
  }

  /** The text that goes into the cache key. */
  function KeyText(x: Slot): Option<string> {
    match x case Chosen(c, _) => Some(c) case Given(v) => Some(Canon(v)) case _ => None
  }

  // ---- What a parameter accepts ------------------------------------------------------------------

  predicate KeyChar(c: char) {
    'A' <= c <= 'Z' || 'a' <= c <= 'z' || '0' <= c <= '9' || c == '.' || c == '-' || c == '_'
  }

  /** The declared constraint on the values of a parameter that is no enumeration. */
  predicate Fits(l: Library, p: Param, v: BindValue) {
    && (p.ty == "key" || p.ty == "symbol" ==>
          v.Text? && 1 <= |v.s| <= 20 && forall i :: 0 <= i < |v.s| ==> KeyChar(v.s[i]))
    && (p.ty == "str" ==> v.Text? && (p.maxLen.Some? ==> |v.s| <= p.maxLen.value))
    && (p.ty == "int" ==>
          v.Int? && (p.min.Some? ==> p.min.value <= v.i as real) && (p.max.Some? ==> v.i as real <= p.max.value))
    && (p.ty == "float" ==>
          && v.Float? && (p.min.Some? ==> !l.floatLess(v.repr, p.min.value))
          && (p.max.Some? ==> !l.floatMore(v.repr, p.max.value)))
  }

  /** The text without its blanks, in the transformation the specification asks for. */
  ghost predicate IsTransformed(l: Library, t: Transform, s: string, r: string) {
    && (t == NoTransform ==> r == s) && (t == Upper ==> r == l.upper(s)) && (t == Lower ==> r == l.lower(s))
  }

  /** What a raw text says, before any constraint. */
  ghost predicate Says(l: Library, p: Param, raw: string, v: BindValue) {
    var s := Trim(raw);
    || ((p.ty == "key" || p.ty == "symbol") && v.Text? && IsTransformed(l, p.transform, l.upper(s), v.s))
    || ((p.ty == "str" || p.ty == "enum") && v.Text? && IsTransformed(l, p.transform, raw, v.s))
    || (p.ty == "int" && v.Int? && l.parseInt(s) == Some(v.i))
    || (p.ty == "float" && v.Float? && l.parseFloat(s) == Some(v.repr))
    || (p.ty == "date" && v.Date? && l.parseDate(s) == Some(v.ymd))
    || (p.ty == "timestamp" && v.Ts? && l.parseTs(s) == Some(v.rfc3339))
    || (p.ty == "bool" && v.Bool? && (v.b <==> l.lower(s) in {"1", "true", "yes"}))
  }

  /** A raw text is accepted with a value exactly if it says that value and the value fits. */
  lemma CoerceExact(l: Library, p: Param, raw: string, v: BindValue)
    ensures Coerce(l, p, raw) == Some(v) <==> Says(l, p, raw, v) && Fits(l, p, v)
  {
    OneType(p.ty);
    if p.ty == "key" || p.ty == "symbol" {
      KeyCharsExact(Transformed(l, l.upper(Trim(raw)), p.transform));
    }
  }

  lemma KeyCharsExact(s: string)
    ensures KeyChars(s) <==> 1 <= |s| <= 20 && forall i :: 0 <= i < |s| ==> KeyChar(s[i])
  {
    if KeyChars(s) {
      assert forall i :: 0 <= i < |s| ==> s[i] in s;
    }
  }

  /** The type names differ. */
  lemma OneType(ty: string)
    ensures ty == "key" ==> ty != "symbol"
    ensures ty == "key" || ty == "symbol" ==> ty !in ["str", "int", "float", "date", "timestamp", "bool", "enum"]
    ensures ty == "str" ==> ty !in ["int", "float", "date", "timestamp", "bool", "enum"]
    ensures ty == "int" ==> ty !in ["float", "date", "timestamp", "bool", "enum"]
    ensures ty == "float" ==> ty !in ["date", "timestamp", "bool", "enum"]
    ensures ty == "date" ==> ty !in ["timestamp", "bool", "enum"]
    ensures ty == "timestamp" ==> ty !in ["bool", "enum"]
    ensures ty == "bool" ==> ty != "enum"
  {
    assert "date"[0] == 'd' && "enum"[0] == 'e' && "bool"[0] == 'b';
    assert "int"[0] == 'i' && "key"[0] == 'k' && "str"[0] == 's';
  }

  // ---- All parameters, in order -----------------------------------------------------------------

  predicate Accepts(l: Library, ps: seq<Param>, req: Request) {
    forall i :: 0 <= i < |ps| ==> SlotOf(l, ps[i], req) != Invalid
  }

  function ValueMap(l: Library, ps: seq<Param>, req: Request): Env {
    if ps == [] then map[]
    else
      var m, p := ValueMap(l, ps[..|ps| - 1], req), ps[|ps| - 1];
      match ValueOf(SlotOf(l, p, req)) case None => m case Some(v) => m[p.name := v]
  }

  function ChoiceMap(l: Library, ps: seq<Param>, req: Request): map<string, string> {
    if ps == [] then map[]
    else
      var m, p := ChoiceMap(l, ps[..|ps| - 1], req), ps[|ps| - 1];
      match SlotOf(l, p, req) case Chosen(c, _) => m[p.name := c] case _ => m
  }

  function PresentMap(l: Library, ps: seq<Param>, req: Request): map<string, bool> {
    if ps == [] then map[]
    else
      var m, p := PresentMap(l, ps[..|ps| - 1], req), ps[|ps| - 1];
      m[p.name := ValueOf(SlotOf(l, p, req)).Some?]
  }

  /** The canonical parts, in parameter order. */
  function Parts(l: Library, ps: seq<Param>, req: Request): seq<(string, string)> {
    if ps == [] then []
    else
      var m, p := Parts(l, ps[..|ps| - 1], req), ps[|ps| - 1];
      match KeyText(SlotOf(l, p, req)) case None => m case Some(t) => m + [(p.name, t)]
  }

  /** The fragments, from the choices and the presence of parameters. */
  function Fragments(ps: seq<Param>, choices: map<string, string>, present: map<string, bool>): map<string, string> {
    if ps == [] then map[]
    else
      var m, p := Fragments(ps[..|ps| - 1], choices, present), ps[|ps| - 1];
      if IsEnum(p) then
        if p.name in choices && choices[p.name] in p.select then m + p.select[choices[p.name]] else m
      else if IsPresence(p) then
        m + (if p.name in present && present[p.name] then p.present else p.absent)
      else m
  }

  // ---- What a request gives each parameter ---------------------------------------------------------

  /** The raw text of a parameter: from the path, from the query, or the query's default. */
  predicate Supplied(p: Param, req: Request, raw: string) {
    || (p.isPath && p.name in req.path && raw == req.path[p.name])
    || (!p.isPath && p.name in req.query && raw == req.query[p.name])
    || (!p.isPath && p.name !in req.query && p.default == Some(raw))
  }

  /** An enumeration binds what its choice maps the parameter's own name to, else the choice. */
  ghost predicate Chooses(l: Library, p: Param, raw: string, v: BindValue) {
    exists c :: IsTransformed(l, p.transform, raw, c) && c in p.select
                && v == Text(if p.name in p.select[c] then p.select[c][p.name] else c)
  }

  /** The request gives the parameter this value. */
  ghost predicate Carries(l: Library, p: Param, req: Request, v: BindValue) {
    exists raw :: Supplied(p, req, raw) &&
                  if p.ty == "enum" || p.select != map[] then Chooses(l, p, raw, v)
                  else Says(l, p, raw, v) && Fits(l, p, v)
  }

  /** The parameter has a value, or nothing was sent and it may be missing. */
  ghost predicate Admits(l: Library, p: Param, req: Request) {
    || (exists v :: Carries(l, p, req, v))
    || (!p.required && !p.isPath && forall raw :: !Supplied(p, req, raw))
  }

  lemma SlotExact(l: Library, p: Param, req: Request, v: BindValue)
    ensures ValueOf(SlotOf(l, p, req)) == Some(v) <==> Carries(l, p, req, v)
  {
    var raw := Raw(p, req);
    assert forall r :: Supplied(p, req, r) <==> raw == Some(r);
    if raw.Some? {
      if IsEnum(p) {
        ChosenExact(l, p, raw.value, v);
      } else {
        CoerceExact(l, p, raw.value, v);
      }
    }
  }

  lemma ChosenExact(l: Library, p: Param, raw: string, v: BindValue)
    requires IsEnum(p)
    ensures ValueOf(SlotFor(l, p, Some(raw))) == Some(v) <==> Chooses(l, p, raw, v)
  {
    var c := Transformed(l, raw, p.transform);
    assert IsTransformed(l, p.transform, raw, c);
  }

  lemma AdmitsExact(l: Library, p: Param, req: Request)
    ensures SlotOf(l, p, req) != Invalid <==> Admits(l, p, req)
  {
    var x, raw := SlotOf(l, p, req), Raw(p, req);
    assert forall r :: Supplied(p, req, r) <==> raw == Some(r);
    forall v ensures ValueOf(x) == Some(v) <==> Carries(l, p, req, v) { SlotExact(l, p, req, v); }
    if ValueOf(x).Some? { assert Carries(l, p, req, ValueOf(x).value); }
  }

  /** Every resolved value is what the request gives a parameter of that name. */
  lemma {:induction false} ValuesCarried(l: Library, ps: seq<Param>, req: Request, n: string)
    ensures n in ValueMap(l, ps, req) ==>
              exists i :: 0 <= i < |ps| && ps[i].name == n && Carries(l, ps[i], req, ValueMap(l, ps, req)[n])
    decreases |ps|
  {
    if ps != [] {
      var k := |ps| - 1;
      var v := ValueOf(SlotOf(l, ps[k], req));
      ValuesCarried(l, ps[..k], req, n);
      assert forall i :: 0 <= i < k ==> ps[..k][i] == ps[i];
      if v.Some? { SlotExact(l, ps[k], req, v.value); }
    }
  }

  // ---- Fragment substitution ----------------------------------------------------------------------

  /** The position of the first `}}`, or the length. */
  function CloseAt(s: string): (n: nat)
    ensures n <= |s| && (n < |s| ==> n + 1 < |s| && s[n] == '}' && s[n + 1] == '}')
  {
    if s == "" then 0
    else if |s| > 1 && s[0] == '}' && s[1] == '}' then 0
    else
      var n := CloseAt(s[1..]);
      n + 1
  }

  predicate OpenHere(s: string) { |s| > 1 && s[0] == '{' && s[1] == '{' && CloseAt(s[2..]) < |s| - 2 }

  function Lookup(fs: map<string, string>, name: string): string { if name in fs then fs[name] else "" }

  function Substituted(s: string, fs: map<string, string>): string
    decreases |s|
  {
    if s == "" then ""
    else if OpenHere(s) then
      var n := CloseAt(s[2..]);
      Lookup(fs, Trim(s[2..2 + n])) + Substituted(s[2 + n + 2..], fs)
    else [s[0]] + Substituted(s[1..], fs)
  }

  /** Text without braces is copied. */
  lemma {:induction false} SubstituteIdle(a: string, s: string, fs: map<string, string>)
    requires Free(a, '{')
    ensures Substituted(a + s, fs) == a + Substituted(s, fs)
  {
    if a == "" {
      assert a + s == s;
    } else {
      HeadTail(a, s);
      assert a[0] in a;
      SubstituteIdle(a[1..], s, fs);
      assert a == [a[0]] + a[1..];
      Assoc([a[0]], a[1..], Substituted(s, fs));
    }
  }

  lemma {:induction false} CloseExact(name: string, s: string)
    requires Free(name, '}')
    ensures CloseAt(name + ("}}" + s)) == |name|
  {
    var t := name + ("}}" + s);
    if name == "" {
      assert t == "}}" + s && t[0] == '}' && t[1] == '}';
    } else {
      HeadTail(name, "}}" + s);
      assert name[0] in name;
      CloseExact(name[1..], s);
    }
  }

  /** A marker becomes its fragment, or nothing if there is none; the fragment itself is not
      looked into. */
  lemma SubstituteMarker(name: string, s: string, fs: map<string, string>)
    requires Free(name, '}')
    ensures Substituted("{{" + (name + ("}}" + s)), fs) == Lookup(fs, Trim(name)) + Substituted(s, fs)
  {
    var t := name + ("}}" + s);
    var u := "{{" + t;
    CloseExact(name, s);
    assert u[2..] == t && u[0] == '{' && u[1] == '{';
    assert t[..|name|] == name && t[|name| + 2..] == s;
    assert u[2..2 + |name|] == name && u[2 + |name| + 2..] == s;
  }

  /** The text that the next step appends, and how much of `s` it consumes. */
  method NextPiece(s: string, fs: map<string, string>) returns (piece: string, k: nat)
    requires s != ""
    ensures 0 < k <= |s| && Substituted(s, fs) == piece + Substituted(s[k..], fs)
  {
    if |s| > 1 && s[0] == '{' && s[1] == '{' {
      var n := CloseAt(s[2..]);
      if n < |s| - 2 {
        return Lookup(fs, Trim(s[2..2 + n])), 2 + n + 2;
      }
    }
    piece, k := [s[0]], 1;
  }

  lemma SuffixOfSuffix(sql: string, i: nat, k: nat)
    requires i + k <= |sql|
    ensures sql[i..][k..] == sql[i + k..]
  {
  }

  lemma PieceOut(sql: string, fs: map<string, string>, i: nat, k: nat, out: string, piece: string)
    requires i + k <= |sql| && out + Substituted(sql[i..], fs) == Substituted(sql, fs)
    requires Substituted(sql[i..], fs) == piece + Substituted(sql[i..][k..], fs)
    ensures (out + piece) + Substituted(sql[i + k..], fs) == Substituted(sql, fs)
  {
    SuffixOfSuffix(sql, i, k);
    Assoc(out, piece, Substituted(sql[i + k..], fs));
  }

  method SubstituteFragments(sql: string, fs: map<string, string>) returns (out: string)
    ensures out == Substituted(sql, fs)
  {
    out := "";
    var i := 0;
    var rest := sql;
    while i < |sql|
      invariant 0 <= i <= |sql| && rest == sql[i..] && out + Substituted(rest, fs) == Substituted(sql, fs)
    {
      var piece, k := NextPiece(rest, fs);
      PieceOut(sql, fs, i, k, out, piece);
      out := out + piece;
      i := i + k;
      rest := sql[i..];
    }
  }

  // ---- The canonical string --------------------------------------------------------------------------

  predicate StrLess(a: string, b: string) {
    b != "" && (a == "" || a[0] < b[0] || (a[0] == b[0] && StrLess(a[1..], b[1..])))
  }

  predicate PairLess(a: (string, string), b: (string, string)) {
    StrLess(a.0, b.0) || (a.0 == b.0 && StrLess(a.1, b.1))
  }

  function InsertPart(x: (string, string), xs: seq<(string, string)>): seq<(string, string)> {
    if xs == [] || PairLess(x, xs[0]) then [x] + xs else [xs[0]] + InsertPart(x, xs[1..])
  }

  function SortParts(xs: seq<(string, string)>): seq<(string, string)> {
    if xs == [] then [] else InsertPart(xs[|xs| - 1], SortParts(xs[..|xs| - 1]))
  }

  function PartText(x: (string, string)): string { x.0 + ("=" + x.1) }

  function PartTexts(xs: seq<(string, string)>): (r: seq<string>)
    ensures |r| == |xs|
  {
    if xs == [] then [] else [PartText(xs[0])] + PartTexts(xs[1..])
  }

  function CanonText(xs: seq<(string, string)>): string { JoinOn(PartTexts(SortParts(xs)), '&') }

  // ---- Resolving ------------------------------------------------------------------------------------

  datatype Resolution =
    | Ready(sql: string, values: seq<BindValue>, substituted: string, valueMap: Env, canon: string)
    | Rejected

  function Choice(l: Library, spec: Spec, req: Request): map<string, string> {
    Fragments(spec.params, ChoiceMap(l, spec.params, req), PresentMap(l, spec.params, req))
  }

  function SubstitutedSql(l: Library, spec: Spec, req: Request): string {
    Substituted(spec.sql, Choice(l, spec, req))
  }

  /** Every bind of the substituted text has a value. */
  predicate AllBound(l: Library, spec: Spec, req: Request) {
    BT.Resolved(BT.BindNames(BT.Tokens(false, SubstitutedSql(l, spec, req))), ValueMap(l, spec.params, req))
  }

  /** What the next parameter adds. */
  lemma OneMoreParam(l: Library, ps: seq<Param>, req: Request, i: nat)
    requires i < |ps|
    ensures var a, b, p := ps[..i + 1], ps[..i], ps[i];
            var x := SlotOf(l, p, req);
            && (Accepts(l, a, req) <==> Accepts(l, b, req) && x != Invalid)
            && ValueMap(l, a, req) ==
               (if ValueOf(x).Some? then ValueMap(l, b, req)[p.name := ValueOf(x).value] else ValueMap(l, b, req))
            && ChoiceMap(l, a, req) ==
               (if x.Chosen? then ChoiceMap(l, b, req)[p.name := x.choice] else ChoiceMap(l, b, req))
            && PresentMap(l, a, req) == PresentMap(l, b, req)[p.name := ValueOf(x).Some?]
            && Parts(l, a, req) ==
               (if KeyText(x).Some? then Parts(l, b, req) + [(p.name, KeyText(x).value)] else Parts(l, b, req))
  {
    assert ps[..i + 1][..i] == ps[..i] && ps[..i + 1][i] == ps[i];
  }

  /** The first loop of `resolve`. */
  method ResolveParams(l: Library, ps: seq<Param>, req: Request)
    returns (ok: bool, values: Env, choices: map<string, string>, present: map<string, bool>,
             parts: seq<(string, string)>)
    ensures ok <==> Accepts(l, ps, req)
    ensures ok ==> values == ValueMap(l, ps, req) && choices == ChoiceMap(l, ps, req)
                   && present == PresentMap(l, ps, req) && parts == Parts(l, ps, req)
  {
    ok, values, choices, present, parts := true, map[], map[], map[], [];
    for i := 0 to |ps|
      invariant Accepts(l, ps[..i], req)
      invariant values == ValueMap(l, ps[..i], req) && choices == ChoiceMap(l, ps[..i], req)
      invariant present == PresentMap(l, ps[..i], req) && parts == Parts(l, ps[..i], req)
    {
      var p := ps[i];
      OneMoreParam(l, ps, req, i);
      match SlotOf(l, p, req) {
        case Invalid =>
          ok := false;
          return;
        case Missing => present := present[p.name := false];
        case Chosen(c, b) =>
          choices := choices[p.name := c];
          parts := parts + [(p.name, c)];
          values := values[p.name := Text(b)];
          present := present[p.name := true];
        case Given(v) =>
          parts := parts + [(p.name, Canon(v))];
          values := values[p.name := v];
          present := present[p.name := true];
      }
    }
    assert ps[..|ps|] == ps;
  }

  /** The second loop of `resolve`. */
  method BuildFragments(ps: seq<Param>, choices: map<string, string>, present: map<string, bool>)
    returns (fs: map<string, string>)
    ensures fs == Fragments(ps, choices, present)
  {
    fs := map[];
    for i := 0 to |ps|
      invariant fs == Fragments(ps[..i], choices, present)
    {
      var p := ps[i];
      assert ps[..i + 1][..i] == ps[..i] && ps[..i + 1][i] == p;
      if IsEnum(p) {
        if p.name in choices && choices[p.name] in p.select {
          fs := fs + p.select[choices[p.name]];
        }
      } else if IsPresence(p) {
        fs := fs + (if p.name in present && present[p.name] then p.present else p.absent);
      }
    }
    assert ps[..|ps|] == ps;
  }

  /** `resolve`: rejected exactly when a parameter is, or a bind of the substituted text has no value. */
  method ResolveRequest(l: Library, spec: Spec, req: Request) returns (r: Resolution)
    ensures r.Ready? <==> Accepts(l, spec.params, req) && AllBound(l, spec, req)
    ensures Accepts(l, spec.params, req) <==> forall i :: 0 <= i < |spec.params| ==> Admits(l, spec.params[i], req)
    ensures r.Ready? ==>
              forall n :: n in r.valueMap ==>
                            exists i :: 0 <= i < |spec.params| && spec.params[i].name == n
                                        && Carries(l, spec.params[i], req, r.valueMap[n])
    ensures r.Ready? ==>
              var env := ValueMap(l, spec.params, req);
              var ts := BT.Tokens(false, SubstitutedSql(l, spec, req));
              && BT.Resolved(BT.BindNames(ts), env)
              && r.sql == BT.PgText(ts, env, 0) && r.values == BT.Values(BT.BindNames(ts), env)
              && r.substituted == SubstitutedSql(l, spec, req) && r.valueMap == env
              && r.canon == CanonText(Parts(l, spec.params, req))
  {
    forall i | 0 <= i < |spec.params|
      ensures SlotOf(l, spec.params[i], req) != Invalid <==> Admits(l, spec.params[i], req)
    {
      AdmitsExact(l, spec.params[i], req);
    }
    forall n ensures n in ValueMap(l, spec.params, req) ==>
                       exists i :: 0 <= i < |spec.params| && spec.params[i].name == n
                                   && Carries(l, spec.params[i], req, ValueMap(l, spec.params, req)[n])
    {
      ValuesCarried(l, spec.params, req, n);
    }
    var ok, values, choices, present, parts := ResolveParams(l, spec.params, req);
    if !ok {
      return Rejected;
    }
    var fs := BuildFragments(spec.params, choices, present);
    var text := SubstituteFragments(spec.sql, fs);
    var low := BT.LowerBinds(text, values);
    match low {
      case Unresolved(n) => r := Rejected;
      case Bound(sql, vs) => r := Ready(sql, vs, text, values, CanonText(parts));
    }
  }
}
