/** The names of a tool's arguments (pkg/openapi/inputschema.go, pkg/openapi/generator.go,
    pkg/openapi/validator.go): three computations of the same naming. Absent parameter
    references, which all of them skip, are not listed. */
module ArgNames {
  import opened Json

  datatype Location = Path | Query | Header | Cookie | Body

  /** `numeric` says that the schema type is integer or number. */
  datatype Param = Param(name: string, location: Location, required: bool, numeric: bool)

  /** A property of the JSON request body; `absent` if its schema reference is nil. */
  datatype BodyProperty = BodyProperty(required: bool, absent: bool)

  datatype Operation = Operation(params: seq<Param>, body: map<string, BodyProperty>)

  function LocationName(l: Location): string {
    match l
    case Path => "path"
    case Query => "query"
    case Header => "header"
    case Cookie => "cookie"
    case Body => "body"
  }

  /** Where a name occurs among the parameters, in order; cookies do not count. */
  function ParamLocations(params: seq<Param>, name: string): seq<Location> {
    if params == [] then []
    else
      var p := params[|params| - 1];
      var before := ParamLocations(params[..|params| - 1], name);
      if p.name == name && p.location != Cookie then before + [p.location] else before
  }

  function Locations(op: Operation, name: string): seq<Location> {
    var fromParams := ParamLocations(op.params, name);
    if name in op.body then fromParams + [Body] else fromParams
  }

  function ParamNames(params: seq<Param>): set<string> {
    set p | p in params && p.location != Cookie :: p.name
  }

  function Names(op: Operation): set<string> {
    ParamNames(op.params) + op.body.Keys
  }

  /** The argument name of an occurrence: the raw name if it occurs once, else the name
      with the location appended. */
  function ArgFor(op: Operation, l: Location, name: string): string {
    Suffixed(|Locations(op, name)|, l, name)
  }

  function Suffixed(count: nat, l: Location, name: string): string {
    if count == 1 then name else name + "_" + LocationName(l)
  }

  function MapKey(l: Location, name: string): string {
    LocationName(l) + ":" + name
  }

  ghost predicate Occurs(op: Operation, l: Location, name: string) {
    l in Locations(op, name)
  }

  /** The mapping has one entry for each occurrence and no other. */
  ghost predicate IsMapping(m: map<string, string>, op: Operation) {
    && (forall l, n :: Occurs(op, l, n) ==> MapKey(l, n) in m && m[MapKey(l, n)] == ArgFor(op, l, n))
    && (forall k :: k in m ==> exists l, n :: Occurs(op, l, n) && k == MapKey(l, n))
  }

  /** The argument names of an operation. */
  function Args(op: Operation): set<string> {
    set n, l | n in Names(op) && l in Locations(op, n) :: ArgFor(op, l, n)
  }

  predicate RequiredAt(op: Operation, l: Location, name: string) {
    if l == Body then name in op.body && op.body[name].required
    else exists p :: p in op.params && p.name == name && p.location == l && (p.required || l == Path)
  }

  function RequiredArgs(op: Operation): set<string> {
    set n, l | n in Names(op) && l in Locations(op, n) && RequiredAt(op, l, n) :: ArgFor(op, l, n)
  }

  /** The operation as the input schema sees it: without absent body properties. */
  function WithoutAbsent(op: Operation): Operation {
    op.(body := map n | n in op.body && !op.body[n].absent :: op.body[n])
  }

  function CookieNames(op: Operation): set<string> {
    set p | p in op.params && p.location == Cookie :: p.name
  }

  // ---------- Keys are readable ----------

  predicate Plain(s: string) {
    ':' !in s && '_' !in s
  }

  lemma LocationPlain(l: Location)
    ensures Plain(LocationName(l)) && |LocationName(l)| > 0
  {
  }

  lemma LocationNamesDiffer(l: Location, m: Location)
    requires LocationName(l) == LocationName(m)
    ensures l == m
  {
    assert |LocationName(Path)| == 4 && |LocationName(Body)| == 4 && LocationName(Path)[0] != LocationName(Body)[0];
    assert |LocationName(Query)| == 5 && |LocationName(Header)| == 6 && |LocationName(Cookie)| == 6;
    assert LocationName(Header)[0] != LocationName(Cookie)[0];
  }

  /** A text splits at its first mark in one way only. */
  lemma FirstMark(a: string, b: string, x: string, y: string, mark: char)
    requires mark !in a && mark !in b && a + [mark] + x == b + [mark] + y
    ensures a == b && x == y
  {
    var s, t := a + [mark] + x, b + [mark] + y;
    assert s[|a|] == mark && t[|b|] == mark;
    assert forall i :: 0 <= i < |a| ==> s[i] == a[i] && a[i] in a;
    assert forall i :: 0 <= i < |b| ==> t[i] == b[i] && b[i] in b;
    assert |a| == |b|;
    assert a == s[..|a|] && b == t[..|b|];
    assert x == s[|a| + 1..] && y == t[|b| + 1..];
  }

  /** And at its last. */
  lemma LastMark(a: string, b: string, x: string, y: string, mark: char)
    requires mark !in x && mark !in y && a + [mark] + x == b + [mark] + y
    ensures a == b && x == y
  {
    MarkAt(a, x, mark);
    MarkAt(b, y, mark);
    var s := a + [mark] + x;
    assert a == s[..|a|] && b == s[..|b|];
    assert x == s[|a| + 1..] && y == s[|b| + 1..];
  }

  lemma MarkAt(a: string, x: string, mark: char)
    requires mark !in x
    ensures var s := a + [mark] + x; s[|a|] == mark && forall i :: |a| < i < |s| ==> s[i] != mark
  {
    var s := a + [mark] + x;
    forall i | |a| < i < |s| ensures s[i] != mark {
      assert s[i] == x[i - |a| - 1] && x[i - |a| - 1] in x;
    }
  }

  lemma MapKeyInjective(l: Location, n: string, m: Location, o: string)
    requires MapKey(l, n) == MapKey(m, o)
    ensures l == m && n == o
  {
    LocationPlain(l);
    LocationPlain(m);
    FirstMark(LocationName(l), LocationName(m), n, o, ':');
    LocationNamesDiffer(l, m);
  }

  lemma SuffixInjective(l: Location, n: string, m: Location, o: string)
    requires n + "_" + LocationName(l) == o + "_" + LocationName(m)
    ensures l == m && n == o
  {
    LocationPlain(l);
    LocationPlain(m);
    LastMark(n, o, LocationName(l), LocationName(m), '_');
    LocationNamesDiffer(l, m);
  }

  // ---------- Occurrences ----------

  lemma {:induction false} ParamLocationsFacts(params: seq<Param>, name: string)
    ensures forall l :: l in ParamLocations(params, name) <==>
              exists p :: p in params && p.name == name && p.location == l && l != Cookie
    ensures ParamLocations(params, name) != [] <==> name in ParamNames(params)
    ensures Body !in ParamLocations(params, name) || exists p :: p in params && p.location == Body
  {
    if params != [] {
      var init, p := params[..|params| - 1], params[|params| - 1];
      ParamLocationsFacts(init, name);
      assert params == init + [p];
    }
  }

  /** No parameter claims to be in the body. */
  ghost predicate WellPlaced(op: Operation) {
    forall p :: p in op.params ==> p.location != Body
  }

  lemma LocationsFacts(op: Operation, name: string)
    ensures Locations(op, name) != [] <==> name in Names(op)
    ensures Cookie !in Locations(op, name)
    ensures WellPlaced(op) ==> (Body in Locations(op, name) <==> name in op.body)
    ensures forall l :: l != Body && l != Cookie ==>
              (l in Locations(op, name) <==> exists p :: p in op.params && p.name == name && p.location == l)
  {
    ParamLocationsFacts(op.params, name);
  }

  function At(collected: map<string, seq<Location>>, name: string): seq<Location> {
    if name in collected then collected[name] else []
  }

  /** Adds one more place to those of a name. */
  function Append(collected: map<string, seq<Location>>, name: string, l: Location): map<string, seq<Location>> {
    collected[name := At(collected, name) + [l]]
  }

  lemma AppendAt(collected: map<string, seq<Location>>, name: string, l: Location)
    ensures forall n ::
              At(Append(collected, name, l), n) == if n == name then At(collected, n) + [l] else At(collected, n)
    ensures Append(collected, name, l).Keys == collected.Keys + {name}
  {
  }

  lemma ParamStep(params: seq<Param>, i: nat)
    requires i < |params|
    ensures var p := params[i];
            && (forall n :: ParamLocations(params[..i + 1], n) ==
                  if p.name == n && p.location != Cookie then ParamLocations(params[..i], n) + [p.location]
                  else ParamLocations(params[..i], n))
            && ParamNames(params[..i + 1]) == ParamNames(params[..i]) + (if p.location == Cookie then {} else {p.name})
  {
    assert params[..i + 1] == params[..i] + [params[i]] && params[..i + 1][..i] == params[..i];
  }

  /** Walks the parameters, then the body in whatever order the map yields it. */
  method Collect(op: Operation) returns (collected: map<string, seq<Location>>)
    ensures forall n :: At(collected, n) == Locations(op, n)
    ensures collected.Keys == Names(op)
  {
    collected := map[];
    for i := 0 to |op.params|
      invariant forall n :: At(collected, n) == ParamLocations(op.params[..i], n)
      invariant collected.Keys == ParamNames(op.params[..i])
    {
      var p := op.params[i];
      ParamStep(op.params, i);
      AppendAt(collected, p.name, p.location);
      hide *;
      if p.location != Cookie {
        collected := Append(collected, p.name, p.location);
      }
    }
    assert op.params[..|op.params|] == op.params;
    collected := CollectBody(collected, op.body);
  }

  /** `collected` is `start` with the body added to the places of the names in `done`. */
  ghost predicate WithBody(collected: map<string, seq<Location>>, start: map<string, seq<Location>>,
                           done: set<string>) {
    && collected.Keys == start.Keys + done
    && forall n :: At(collected, n) == if n in done then At(start, n) + [Body] else At(start, n)
  }

  lemma WithBodyStep(collected: map<string, seq<Location>>, start: map<string, seq<Location>>, done: set<string>,
                     n: string)
    requires WithBody(collected, start, done) && n !in done
    ensures WithBody(Append(collected, n, Body), start, done + {n})
  {
    AppendAt(collected, n, Body);
    hide At, Append;
  }

  method CollectBody(start: map<string, seq<Location>>, body: map<string, BodyProperty>)
    returns (collected: map<string, seq<Location>>)
    ensures WithBody(collected, start, body.Keys)
  {
    hide *;
    collected := start;
    WithNothing(start);
    var remaining := body.Keys;
    ghost var done: set<string> := {};
    while remaining != {}
      invariant done + remaining == body.Keys && done !! remaining
      invariant WithBody(collected, start, done)
      decreases |remaining|
    {
      var n :| n in remaining;
      WithBodyStep(collected, start, done, n);
      collected := Append(collected, n, Body);
      remaining, done := remaining - {n}, done + {n};
    }
  }

  lemma WithNothing(start: map<string, seq<Location>>)
    ensures WithBody(start, start, {})
  {
  }

  // ---------- The argument mapping ----------

  method DeriveArgMapping(op: Operation) returns (m: map<string, string>)
    ensures IsMapping(m, op)
  {
    var collected := Collect(op);
    m := map[];
    var remaining := collected.Keys;
    while remaining != {}
      invariant remaining <= collected.Keys
      invariant MappedExcept(m, op, remaining)
      decreases |remaining|
    {
      hide *;
      var n :| n in remaining;
      AtPresent(collected, n);
      m := MapName(m, op, n, collected[n], remaining);
      remaining := remaining - {n};
    }
    forall l, n | Occurs(op, l, n) ensures n !in remaining {
    }
  }

  lemma AtPresent(collected: map<string, seq<Location>>, n: string)
    requires n in collected
    ensures At(collected, n) == collected[n]
  {
  }

  /** Maps every occurrence of one name. */
  method MapName(before: map<string, string>, op: Operation, n: string, locations: seq<Location>,
                 ghost pending: set<string>)
    returns (m: map<string, string>)
    requires MappedExcept(before, op, pending) && n in pending && locations == Locations(op, n)
    ensures MappedExcept(m, op, pending - {n})
  {
    m := before;
    for i := 0 to |locations|
      invariant PartlyMapped(m, before, op, n, locations, i)
    {
      var l := locations[i];
      NotMappedYet(before, op, pending, l, n);
      MapOneMore(m, before, op, n, locations, i);
      assert ArgFor(op, l, n) == if |locations| == 1 then n else n + "_" + LocationName(l);
      hide *;
      m := m[MapKey(l, n) := if |locations| == 1 then n else n + "_" + LocationName(l)];
    }
    assert locations[..|locations|] == locations;
    MappedMore(before, m, op, pending, n);
  }

  /** The first `i` occurrences of a name are mapped; the rest of the table is as before. */
  ghost predicate PartlyMapped(m: map<string, string>, before: map<string, string>, op: Operation, n: string,
                               locations: seq<Location>, i: nat)
    requires i <= |locations|
  {
    && (forall l :: l in locations[..i] ==> MapKey(l, n) in m && m[MapKey(l, n)] == ArgFor(op, l, n))
    && (forall k :: k in before ==> k in m && m[k] == before[k])
    && (forall k :: k in m && k !in before ==> exists l :: l in locations && k == MapKey(l, n))
  }

  lemma MapOneMore(m: map<string, string>, before: map<string, string>, op: Operation, n: string,
                   locations: seq<Location>, i: nat)
    requires i < |locations| && PartlyMapped(m, before, op, n, locations, i) && MapKey(locations[i], n) !in before
    ensures PartlyMapped(m[MapKey(locations[i], n) := ArgFor(op, locations[i], n)], before, op, n, locations, i + 1)
  {
    hide ArgFor, MapKey;
    assert locations[i] in locations && locations[..i + 1] == locations[..i] + [locations[i]];
    var m' := m[MapKey(locations[i], n) := ArgFor(op, locations[i], n)];
    forall l | l in locations[..i + 1] ensures MapKey(l, n) in m' && m'[MapKey(l, n)] == ArgFor(op, l, n) {
      if MapKey(l, n) == MapKey(locations[i], n) {
        MapKeyInjective(l, n, locations[i], n);
      }
    }
  }

  /** All occurrences of names outside `pending` are mapped, and nothing else is. */
  ghost predicate MappedExcept(m: map<string, string>, op: Operation, pending: set<string>) {
    && (forall l, n :: Occurs(op, l, n) && n !in pending ==> MapKey(l, n) in m && m[MapKey(l, n)] == ArgFor(op, l, n))
    && (forall k :: k in m ==> exists l, n :: Occurs(op, l, n) && n !in pending && k == MapKey(l, n))
  }

  lemma NotMappedYet(m: map<string, string>, op: Operation, pending: set<string>, l: Location, n: string)
    requires MappedExcept(m, op, pending) && n in pending
    ensures MapKey(l, n) !in m
  {
    if MapKey(l, n) in m {
      var l', n' :| Occurs(op, l', n') && n' !in pending && MapKey(l, n) == MapKey(l', n');
      MapKeyInjective(l, n, l', n');
    }
  }

  lemma MappedMore(before: map<string, string>, m: map<string, string>, op: Operation, pending: set<string>, n: string)
    requires MappedExcept(before, op, pending) && n in pending
    requires forall l :: l in Locations(op, n) ==> MapKey(l, n) in m && m[MapKey(l, n)] == ArgFor(op, l, n)
    requires forall k :: k in before ==> k in m && m[k] == before[k]
    requires forall k :: k in m && k !in before ==> exists l :: l in Locations(op, n) && k == MapKey(l, n)
    ensures MappedExcept(m, op, pending - {n})
  {
    forall k | k in m ensures exists l, o :: Occurs(op, l, o) && o !in pending - {n} && k == MapKey(l, o) {
      if k in before {
        var l, o :| Occurs(op, l, o) && o !in pending && k == MapKey(l, o);
        assert o !in pending - {n};
      } else {
        var l :| l in Locations(op, n) && k == MapKey(l, n);
        assert Occurs(op, l, n);
      }
    }
  }

  /** Looking an occurrence up gives its argument name; anything else keeps its raw name. */
  function ArgName(m: map<string, string>, l: Location, name: string): string {
    if MapKey(l, name) in m then m[MapKey(l, name)] else name
  }

  lemma ArgNameOfMapping(m: map<string, string>, op: Operation, l: Location, name: string)
    requires IsMapping(m, op)
    ensures ArgName(m, l, name) == if Occurs(op, l, name) then ArgFor(op, l, name) else name
  {
    if MapKey(l, name) in m && !Occurs(op, l, name) {
      var l', n' :| Occurs(op, l', n') && MapKey(l, name) == MapKey(l', n');
      MapKeyInjective(l, name, l', n');
    }
  }

  lemma MappingValues(m: map<string, string>, op: Operation)
    requires IsMapping(m, op)
    ensures m.Values == Args(op)
  {
    forall a ensures a in m.Values <==> a in Args(op) {
      if a in m.Values {
        var k :| k in m && m[k] == a;
        var l, n :| Occurs(op, l, n) && k == MapKey(l, n);
        LocationsFacts(op, n);
      }
      if a in Args(op) {
        var n, l :| n in Names(op) && l in Locations(op, n) && ArgFor(op, l, n) == a;
        assert Occurs(op, l, n);
        assert MapKey(l, n) in m;
      }
    }
  }

  // ---------- The input schema ----------

  method DeriveInputSchema(op: Operation) returns (properties: set<string>, required: set<string>)
    requires WellPlaced(op)
    ensures properties == Args(WithoutAbsent(op)) && required == RequiredArgs(WithoutAbsent(op))
  {
    var shown := op.(body := map n | n in op.body && !op.body[n].absent :: op.body[n]);
    assert shown == WithoutAbsent(op);
    hide *;
    var collected := Collect(shown);
    properties, required := {}, {};
    OverEnds(shown);
    var remaining := collected.Keys;
    ghost var done: set<string> := {};
    while remaining != {}
      invariant done + remaining == collected.Keys && done !! remaining
      invariant properties == ArgsOver(shown, done) && required == RequiredOver(shown, done)
      decreases |remaining|
    {
      var n :| n in remaining;
      AtPresent(collected, n);
      OverStep(shown, done, n);
      var ps, rs := SchemaOfName(shown, n, collected[n]);
      properties, required := properties + ps, required + rs;
      remaining, done := remaining - {n}, done + {n};
    }
  }

  lemma OverEnds(op: Operation)
    ensures ArgsOver(op, {}) == {} && RequiredOver(op, {}) == {}
    ensures ArgsOver(op, Names(op)) == Args(op) && RequiredOver(op, Names(op)) == RequiredArgs(op)
  {
    hide Locations, ArgFor, RequiredAt;
  }

  /** The argument names, and the required ones, of the occurrences of some names. */
  function ArgsOver(op: Operation, names: set<string>): set<string> {
    set n, l | n in names && l in Locations(op, n) :: ArgFor(op, l, n)
  }

  function RequiredOver(op: Operation, names: set<string>): set<string> {
    set n, l | n in names && l in Locations(op, n) && RequiredAt(op, l, n) :: ArgFor(op, l, n)
  }

  lemma OverStep(op: Operation, names: set<string>, n: string)
    ensures ArgsOver(op, names + {n}) == ArgsOver(op, names) + ArgsAt(op, n, Locations(op, n))
    ensures RequiredOver(op, names + {n}) == RequiredOver(op, names) + RequiredArgsAt(op, n, Locations(op, n))
  {
    hide Locations, ArgFor, RequiredAt;
  }

  function ArgsAt(op: Operation, n: string, locations: seq<Location>): set<string> {
    set l | l in locations :: ArgFor(op, l, n)
  }

  function RequiredArgsAt(op: Operation, n: string, locations: seq<Location>): set<string> {
    set l | l in locations && RequiredAt(op, l, n) :: ArgFor(op, l, n)
  }

  lemma AtStep(op: Operation, n: string, locations: seq<Location>, i: nat)
    requires i < |locations|
    ensures ArgsAt(op, n, locations[..i + 1]) == ArgsAt(op, n, locations[..i]) + {ArgFor(op, locations[i], n)}
    ensures RequiredArgsAt(op, n, locations[..i + 1]) ==
                        RequiredArgsAt(op, n, locations[..i]) +
            (if RequiredAt(op, locations[i], n) then {ArgFor(op, locations[i], n)} else {})
  {
    assert locations[..i + 1] == locations[..i] + [locations[i]];
    hide ArgFor, RequiredAt;
  }

  method SchemaOfName(op: Operation, n: string, locations: seq<Location>)
    returns (properties: set<string>, required: set<string>)
    requires locations == Locations(op, n)
    ensures properties == ArgsAt(op, n, Locations(op, n))
    ensures required == RequiredArgsAt(op, n, Locations(op, n))
  {
    properties, required := {}, {};
    for i := 0 to |locations|
      invariant properties == ArgsAt(op, n, locations[..i])
      invariant required == RequiredArgsAt(op, n, locations[..i])
    {
      var l := locations[i];
      assert ArgFor(op, l, n) == if |locations| == 1 then n else n + "_" + LocationName(l);
      hide *;
      AtStep(op, n, locations, i);
      var key := if |locations| == 1 then n else n + "_" + LocationName(l);
      properties := properties + {key};
      if RequiredAt(op, l, n) {
        required := required + {key};
      }
    }
    assert locations[..|locations|] == locations;
  }

  // ---------- The synthetic schema ----------

  method BuildSyntheticSchema(op: Operation) returns (properties: set<string>, required: set<string>)
    requires WellPlaced(op)
    ensures properties == Args(op) + CookieNames(op)
    ensures required == RequiredArgs(op) + RequiredCookies(op)
  {
    var m := DeriveArgMapping(op);
    properties, required := {}, {};
    for i := 0 to |op.params|
      invariant properties == LookedUp(m, op.params[..i])
      invariant required == LookedUp(m, MustHave(op.params[..i]))
    {
      var p := op.params[i];
      assert op.params[..i + 1] == op.params[..i] + [p];
      MustHaveStep(op.params[..i], p);
      hide *;
      LookedUpStep(m, op.params[..i], p);
      LookedUpStep(m, MustHave(op.params[..i]), p);
      properties := properties + {ArgName(m, p.location, p.name)};
      if p.required || p.location == Path {
        required := required + {ArgName(m, p.location, p.name)};
      }
    }
    assert op.params[..|op.params|] == op.params;
    var fromBody := set n | n in op.body :: ArgName(m, Body, n);
    var requiredBody := set n | n in op.body && op.body[n].required :: ArgName(m, Body, n);
    properties, required := properties + fromBody, required + requiredBody;
    SyntheticProperties(op, m);
    SyntheticRequired(op, m);
  }

  function LookedUp(m: map<string, string>, params: seq<Param>): set<string> {
    set p | p in params :: ArgName(m, p.location, p.name)
  }

  /** The parameters a call must provide; those in the path always. */
  function MustHave(params: seq<Param>): seq<Param> {
    if params == [] then []
    else
      var p := params[|params| - 1];
      MustHave(params[..|params| - 1]) + (if p.required || p.location == Path then [p] else [])
  }

  lemma MustHaveStep(params: seq<Param>, p: Param)
    ensures MustHave(params + [p]) == MustHave(params) + (if p.required || p.location == Path then [p] else [])
  {
    assert (params + [p])[..|params|] == params;
  }

  lemma LookedUpStep(m: map<string, string>, params: seq<Param>, p: Param)
    ensures LookedUp(m, params + [p]) == LookedUp(m, params) + {ArgName(m, p.location, p.name)}
    ensures LookedUp(m, params + []) == LookedUp(m, params)
  {
    hide ArgName;
    assert params + [] == params;
  }

  lemma {:induction false} MustHaveFacts(params: seq<Param>, p: Param)
    ensures p in MustHave(params) <==> p in params && (p.required || p.location == Path)
  {
    if params != [] {
      var init, last := params[..|params| - 1], params[|params| - 1];
      MustHaveFacts(init, p);
      assert params == init + [last];
    }
  }

  function RequiredCookies(op: Operation): set<string> {
    set p | p in op.params && p.location == Cookie && p.required :: p.name
  }

  /** What the lookups of the parameters and of the body properties give. */
  lemma Lookups(op: Operation, m: map<string, string>)
    requires IsMapping(m, op) && WellPlaced(op)
    ensures forall p :: p in op.params ==>
              ArgName(m, p.location, p.name) == if p.location == Cookie then p.name else ArgFor(op, p.location, p.name)
    ensures forall n :: n in op.body ==> ArgName(m, Body, n) == ArgFor(op, Body, n)
  {
    forall p | p in op.params
      ensures ArgName(m, p.location, p.name) == if p.location == Cookie then p.name else ArgFor(op, p.location, p.name)
    {
      LocationsFacts(op, p.name);
      ArgNameOfMapping(m, op, p.location, p.name);
    }
    forall n | n in op.body ensures ArgName(m, Body, n) == ArgFor(op, Body, n) {
      LocationsFacts(op, n);
      ArgNameOfMapping(m, op, Body, n);
    }
  }

  /** An argument comes from a parameter outside the cookies, or from the body. */
  lemma ArgSources(op: Operation, a: string)
    requires WellPlaced(op)
    ensures a in Args(op) <==>
            (exists p :: p in op.params && p.location != Cookie && ArgFor(op, p.location, p.name) == a) ||
            (exists n :: n in op.body && ArgFor(op, Body, n) == a)
  {
    hide ArgFor;
    if a in Args(op) {
      var n, l :| n in Names(op) && l in Locations(op, n) && ArgFor(op, l, n) == a;
      LocationsFacts(op, n);
    }
    if p :| p in op.params && p.location != Cookie && ArgFor(op, p.location, p.name) == a {
      LocationsFacts(op, p.name);
    }
    if n :| n in op.body && ArgFor(op, Body, n) == a {
      LocationsFacts(op, n);
    }
  }

  lemma RequiredSources(op: Operation, a: string)
    requires WellPlaced(op)
    ensures a in RequiredArgs(op) <==>
            (exists p :: p in op.params && p.location != Cookie && (p.required || p.location == Path) &&
                         ArgFor(op, p.location, p.name) == a) ||
            (exists n :: n in op.body && op.body[n].required && ArgFor(op, Body, n) == a)
  {
    hide ArgFor;
    if a in RequiredArgs(op) {
      var n, l :| n in Names(op) && l in Locations(op, n) && RequiredAt(op, l, n) && ArgFor(op, l, n) == a;
      LocationsFacts(op, n);
    }
    if p :| p in op.params && p.location != Cookie && (p.required || p.location == Path) &&
            ArgFor(op, p.location, p.name) == a {
      LocationsFacts(op, p.name);
    }
    if n :| n in op.body && op.body[n].required && ArgFor(op, Body, n) == a {
      LocationsFacts(op, n);
    }
  }

  lemma SyntheticProperties(op: Operation, m: map<string, string>)
    requires IsMapping(m, op) && WellPlaced(op)
    ensures LookedUp(m, op.params) + (set n | n in op.body :: ArgName(m, Body, n)) == Args(op) + CookieNames(op)
  {
    Lookups(op, m);
    hide ArgName, ArgFor, IsMapping, Args;
    var all := LookedUp(m, op.params) + (set n | n in op.body :: ArgName(m, Body, n));
    forall a ensures a in all <==> a in Args(op) + CookieNames(op) {
      ArgSources(op, a);
    }
  }

  lemma SyntheticRequired(op: Operation, m: map<string, string>)
    requires IsMapping(m, op) && WellPlaced(op)
    ensures LookedUp(m, MustHave(op.params)) + (set n | n in op.body && op.body[n].required :: ArgName(m, Body, n)) ==
            RequiredArgs(op) + RequiredCookies(op)
  {
    hide ArgName, ArgFor, IsMapping, RequiredArgs, MustHave, RequiredCookies, LookedUp;
    var all := LookedUp(m, MustHave(op.params)) + (set n | n in op.body && op.body[n].required :: ArgName(m, Body, n));
    forall a ensures a in all <==> a in RequiredArgs(op) + RequiredCookies(op) {
      RequiredLookup(op, m, a);
    }
  }

  lemma RequiredLookup(op: Operation, m: map<string, string>, a: string)
    requires IsMapping(m, op) && WellPlaced(op)
    ensures a in LookedUp(m, MustHave(op.params)) ||
            (exists n :: n in op.body && op.body[n].required && ArgName(m, Body, n) == a) <==>
            a in RequiredArgs(op) || a in RequiredCookies(op)
  {
    Lookups(op, m);
    RequiredSources(op, a);
    forall p ensures p in MustHave(op.params) <==> p in op.params && (p.required || p.location == Path) {
      MustHaveFacts(op.params, p);
    }
    hide ArgName, ArgFor, IsMapping, RequiredArgs, MustHave;
  }

  // ---------- Agreement ----------

  /** For an operation without absent body properties the input schema has exactly the
      mapped argument names, with the required ones required; the synthetic schema has them
      too if and only if every cookie parameter's name is an argument name, and requires the
      same ones if and only if every required cookie's name is a required argument's. */
  lemma CopiesAgree(op: Operation, m: map<string, string>)
    requires IsMapping(m, op) && forall n :: n in op.body ==> !op.body[n].absent
    ensures Args(WithoutAbsent(op)) == m.Values && RequiredArgs(WithoutAbsent(op)) == RequiredArgs(op)
    ensures Args(op) + CookieNames(op) == m.Values <==> CookieNames(op) <= Args(op)
    ensures RequiredArgs(op) + RequiredCookies(op) == RequiredArgs(op) <==> RequiredCookies(op) <= RequiredArgs(op)
  {
    MappingValues(m, op);
    assert WithoutAbsent(op).body == op.body;
  }

  /** A name that occurs once equals another name with a location appended. */
  ghost predicate Clash(op: Operation) {
    exists raw, n, l ::
      |Locations(op, raw)| == 1 && |Locations(op, n)| > 1 && Occurs(op, l, n) && raw == n + "_" + LocationName(l)
  }

  ghost predicate InjectiveNames(op: Operation) {
    forall l, n, m, o :: Occurs(op, l, n) && Occurs(op, m, o) && ArgFor(op, l, n) == ArgFor(op, m, o) ==>
      l == m && n == o
  }

  /** Different occurrences get different argument names if and only if no name that occurs
      once equals another name's suffixed form. */
  lemma InjectiveIffNoClash(op: Operation)
    ensures InjectiveNames(op) <==> !Clash(op)
  {
    if Clash(op) {
      var raw, n, l :| |Locations(op, raw)| == 1 && |Locations(op, n)| > 1 && Occurs(op, l, n) &&
                       raw == n + "_" + LocationName(l);
      var r := Locations(op, raw)[0];
      assert Occurs(op, r, raw);
      assert ArgFor(op, r, raw) == ArgFor(op, l, n) && raw != n;
    } else {
      forall l, n, m, o | Occurs(op, l, n) && Occurs(op, m, o) && ArgFor(op, l, n) == ArgFor(op, m, o)
        ensures l == m && n == o
      {
        var a, b := |Locations(op, n)|, |Locations(op, o)|;
        assert a > 0 && b > 0;
        if a > 1 && b > 1 {
          SuffixInjective(l, n, m, o);
        } else if a == 1 && b == 1 {
          assert l == Locations(op, n)[0] && m == Locations(op, o)[0];
        } else if a == 1 {
          assert false;
        } else {
          assert false;
        }
      }
    }
  }

  // ---------- Path-level parameters ----------

  function SamePlace(p: Param, q: Param): bool {
    p.name == q.name && p.location == q.location
  }

  /** Operation-level parameters replace path-level ones of the same name and place, and
      are appended otherwise. */
  method MergeParams(pathParams: seq<Param>, opParams: seq<Param>) returns (merged: seq<Param>)
    ensures PlacesOf(merged) == PlacesOf(pathParams) + PlacesOf(opParams)
    ensures DistinctPlaces(pathParams) ==> DistinctPlaces(merged)
    ensures DistinctPlaces(pathParams) && DistinctPlaces(opParams) ==>
              forall p :: p in merged <==>
                p in opParams || (p in pathParams && (p.name, p.location) !in PlacesOf(opParams))
  {
    merged := pathParams;
    for i := 0 to |opParams|
      invariant PlacesOf(merged) == PlacesOf(pathParams) + PlacesOf(opParams[..i])
      invariant DistinctPlaces(pathParams) ==> DistinctPlaces(merged)
      invariant DistinctPlaces(pathParams) && DistinctPlaces(opParams) ==>
                  forall p :: p in merged <==>
                    p in opParams[..i] || (p in pathParams && (p.name, p.location) !in PlacesOf(opParams[..i]))
    {
      var q := opParams[i];
      var j := 0;
      while j < |merged| && !SamePlace(merged[j], q)
        invariant 0 <= j <= |merged| && forall x :: 0 <= x < j ==> !SamePlace(merged[x], q)
      {
        j := j + 1;
      }
      assert opParams[..i + 1] == opParams[..i] + [q];
      MergeStep(merged, pathParams, opParams, i, j);
      if j < |merged| {
        merged := merged[j := q];
      } else {
        merged := merged + [q];
      }
    }
    assert opParams[..|opParams|] == opParams;
  }

  function PlacesOf(params: seq<Param>): set<(string, Location)> {
    set p | p in params :: (p.name, p.location)
  }

  ghost predicate DistinctPlaces(params: seq<Param>) {
    forall i, j :: 0 <= i < j < |params| ==> !SamePlace(params[i], params[j])
  }

  lemma MergeStep(merged: seq<Param>, pathParams: seq<Param>, opParams: seq<Param>, i: nat, j: nat)
    requires i < |opParams| && j <= |merged| && forall x :: 0 <= x < j ==> !SamePlace(merged[x], opParams[i])
    requires j < |merged| ==> SamePlace(merged[j], opParams[i])
    ensures var q := opParams[i];
            var next := if j < |merged| then merged[j := q] else merged + [q];
            && PlacesOf(next) == PlacesOf(merged) + {(q.name, q.location)}
            && (DistinctPlaces(merged) ==> DistinctPlaces(next))
            && (DistinctPlaces(merged) ==> forall p :: p in next <==> p == q || (p in merged && !SamePlace(p, q)))
    ensures PlacesOf(opParams[..i + 1]) == PlacesOf(opParams[..i]) + {(opParams[i].name, opParams[i].location)}
    ensures DistinctPlaces(opParams) ==> forall p :: p in opParams[..i] ==> !SamePlace(p, opParams[i])
  {
    var q := opParams[i];
    var next := if j < |merged| then merged[j := q] else merged + [q];
    assert opParams[..i + 1] == opParams[..i] + [q];
    if j < |merged| {
      forall x ensures x in PlacesOf(next) <==> x in PlacesOf(merged) + {(q.name, q.location)} {
        if x in PlacesOf(merged) {
          var p :| p in merged && (p.name, p.location) == x;
          var k :| 0 <= k < |merged| && merged[k] == p;
          assert next[k] in next;
        }
        if x in PlacesOf(next) {
          var p :| p in next && (p.name, p.location) == x;
          var k :| 0 <= k < |next| && next[k] == p;
          assert k != j ==> merged[k] == p;
        }
        assert next[j] == q;
      }
      if DistinctPlaces(merged) {
        forall p ensures p in next <==> p == q || (p in merged && !SamePlace(p, q)) {
          if p in next && p != q {
            var k :| 0 <= k < |next| && next[k] == p;
            assert merged[k] == p && k != j;
          }
          if p in merged && !SamePlace(p, q) {
            var k :| 0 <= k < |merged| && merged[k] == p;
            assert next[k] == p;
          }
          assert next[j] == q;
        }
      }
    }
  }

  // ---------- The input schema is derived before the merge ----------

  function Occurrences(op: Operation): set<(Location, string)> {
    set n, l | n in Names(op) && l in Locations(op, n) :: (l, n)
  }

  function PlacesNamed(params: seq<Param>, name: string): set<Location> {
    set p | p in params && p.name == name && p.location != Cookie :: p.location
  }

  lemma {:induction false} CountIsPlaces(params: seq<Param>, name: string)
    requires DistinctPlaces(params)
    ensures |ParamLocations(params, name)| == |PlacesNamed(params, name)|
  {
    if params != [] {
      var init, p := params[..|params| - 1], params[|params| - 1];
      PlacesStep(params, name);
      CountIsPlaces(init, name);
      hide DistinctPlaces, PlacesNamed;
    }
  }

  lemma LastIsNew(params: seq<Param>)
    requires DistinctPlaces(params) && params != []
    ensures var init, p := params[..|params| - 1], params[|params| - 1];
            DistinctPlaces(init) && forall q :: q in init ==> q.name != p.name || q.location != p.location
  {
    var init, p := params[..|params| - 1], params[|params| - 1];
    forall q | q in init ensures q.name != p.name || q.location != p.location {
      var i :| 0 <= i < |init| && init[i] == q;
      assert params[i] == q && params[|params| - 1] == p;
      assert !SamePlace(q, p);
    }
  }

  lemma PlacesStep(params: seq<Param>, name: string)
    requires DistinctPlaces(params) && params != []
    ensures var init, p := params[..|params| - 1], params[|params| - 1];
            |PlacesNamed(params, name)| ==
            |PlacesNamed(init, name)| + if p.name == name && p.location != Cookie then 1 else 0
    ensures DistinctPlaces(params[..|params| - 1])
  {
    var init, p := params[..|params| - 1], params[|params| - 1];
    assert params == init + [p];
    LastIsNew(params);
    hide DistinctPlaces;
    var before := PlacesNamed(init, name);
    if p.name == name && p.location != Cookie {
      assert p in params && p.location !in before;
      PlacesGrow(params, name);
      hide PlacesNamed;
      assert |before + {p.location}| == |before| + 1;
    } else {
      PlacesGrow(params, name);
    }
  }

  lemma PlacesGrow(params: seq<Param>, name: string)
    requires params != []
    ensures var init, p := params[..|params| - 1], params[|params| - 1];
            PlacesNamed(params, name) ==
            PlacesNamed(init, name) + if p.name == name && p.location != Cookie then {p.location} else {}
  {
    assert params == params[..|params| - 1] + [params[|params| - 1]];
  }

  function ArgsOfAll(op: Operation, occurrences: set<(Location, string)>): set<string> {
    set o | o in occurrences :: ArgFor(op, o.0, o.1)
  }

  lemma ArgsOfAllStep(op: Operation, rest: set<(Location, string)>, o: (Location, string))
    ensures ArgsOfAll(op, rest + {o}) == ArgsOfAll(op, rest) + {ArgFor(op, o.0, o.1)}
  {
    hide ArgFor;
  }

  ghost predicate InjectiveOn(op: Operation, occurrences: set<(Location, string)>) {
    forall x, y :: x in occurrences && y in occurrences && ArgFor(op, x.0, x.1) == ArgFor(op, y.0, y.1) ==> x == y
  }

  /** No more names than occurrences, and as many if different occurrences get different
      names. */
  lemma {:induction false} ArgsCounted(op: Operation, occurrences: set<(Location, string)>)
    ensures |ArgsOfAll(op, occurrences)| <= |occurrences|
    ensures InjectiveOn(op, occurrences) ==> |ArgsOfAll(op, occurrences)| == |occurrences|
    decreases |occurrences|
  {
    hide ArgFor;
    if occurrences != {} {
      var o :| o in occurrences;
      var rest := occurrences - {o};
      ArgsCounted(op, rest);
      ArgsOfAllStep(op, rest, o);
      assert rest + {o} == occurrences;
    }
  }

  lemma ArgsAreImage(op: Operation)
    ensures Args(op) == ArgsOfAll(op, Occurrences(op))
    ensures |Args(op)| <= |Occurrences(op)|
    ensures InjectiveNames(op) ==> |Args(op)| == |Occurrences(op)|
  {
    forall o | o in Occurrences(op) ensures Occurs(op, o.0, o.1) {
    }
    ArgsCounted(op, Occurrences(op));
    hide ArgFor, Locations, Names;
    forall a ensures a in Args(op) <==> a in ArgsOfAll(op, Occurrences(op)) {
      if a in Args(op) {
        var n, l :| n in Names(op) && l in Locations(op, n) && ArgFor(op, l, n) == a;
        assert (l, n) in Occurrences(op);
      }
    }
  }

  /** With absent body properties, which the input schema leaves out and the mapping does not,
      and with names free of clashes, the schema names the mapped arguments if and only if
      there are no such properties. */
  lemma AbsentPropertiesShow(op: Operation, m: map<string, string>)
    requires IsMapping(m, op) && WellPlaced(op) && !Clash(op)
    ensures Args(WithoutAbsent(op)) == m.Values <==> forall n :: n in op.body ==> !op.body[n].absent
  {
    var shown := WithoutAbsent(op);
    MappingValues(m, op);
    if n :| n in op.body && op.body[n].absent {
      InjectiveIffNoClash(op);
      ArgsAreImage(op);
      ArgsAreImage(shown);
      FewerShown(op, n);
    } else {
      assert shown.body == op.body;
    }
  }

  lemma FewerShown(op: Operation, n: string)
    requires n in op.body && op.body[n].absent && WellPlaced(op)
    ensures |Occurrences(WithoutAbsent(op))| < |Occurrences(op)|
  {
    var shown := WithoutAbsent(op);
    forall o | o in Occurrences(shown) ensures o in Occurrences(op) {
      LocationsFacts(shown, o.1);
      LocationsFacts(op, o.1);
      assert o.0 in Locations(shown, o.1);
      assert o.0 in Locations(op, o.1);
    }
    LocationsFacts(shown, n);
    LocationsFacts(op, n);
    assert (Body, n) in Occurrences(op) && (Body, n) !in Occurrences(shown);
    StrictSubsetSmaller(Occurrences(shown), Occurrences(op));
  }

  /** `merged` holds the operation's parameters and the path's that it does not replace. */
  ghost predicate MergeOf(merged: seq<Param>, pathParams: seq<Param>, opParams: seq<Param>) {
    && DistinctPlaces(pathParams) && DistinctPlaces(opParams) && DistinctPlaces(merged)
    && PlacesOf(merged) == PlacesOf(pathParams) + PlacesOf(opParams)
  }

  ghost predicate AllReplaced(pathParams: seq<Param>, opParams: seq<Param>) {
    forall p :: p in pathParams && p.location != Cookie ==> (p.name, p.location) in PlacesOf(opParams)
  }

  lemma PlacesDecide(params: seq<Param>, other: seq<Param>, name: string)
    requires DistinctPlaces(params) && DistinctPlaces(other)
    requires forall l :: l != Cookie ==> ((name, l) in PlacesOf(params) <==> (name, l) in PlacesOf(other))
    ensures |ParamLocations(params, name)| == |ParamLocations(other, name)|
    ensures forall l :: l in ParamLocations(params, name) <==> l in ParamLocations(other, name)
  {
    PlacesFacts(params, name);
    PlacesFacts(other, name);
    hide *;
    assert forall l :: l in PlacesNamed(params, name) <==> l in PlacesNamed(other, name);
    assert PlacesNamed(params, name) == PlacesNamed(other, name);
  }

  lemma PlacesFacts(params: seq<Param>, name: string)
    requires DistinctPlaces(params)
    ensures |ParamLocations(params, name)| == |PlacesNamed(params, name)|
    ensures forall l :: l in ParamLocations(params, name) <==> l in PlacesNamed(params, name)
    ensures forall l :: l in PlacesNamed(params, name) <==> l != Cookie && (name, l) in PlacesOf(params)
  {
    CountIsPlaces(params, name);
    ParamLocationsFacts(params, name);
    hide ParamLocations, DistinctPlaces;
  }

  /** The input schema is derived from the operation before path-level parameters are
      merged in, while requests are compiled from the merged one. With the merged names
      free of clashes, the schema names exactly the arguments of the merged operation if
      and only if the operation replaces every path-level parameter outside the cookies. */
  lemma SchemaBeforeMergeIff(merged: seq<Param>, pathParams: seq<Param>, opParams: seq<Param>,
                             body: map<string, BodyProperty>)
    requires MergeOf(merged, pathParams, opParams) && !Clash(Operation(merged, body))
    requires WellPlaced(Operation(merged, body))
    ensures Args(Operation(opParams, body)) == Args(Operation(merged, body)) <==> AllReplaced(pathParams, opParams)
  {
    var before, after := Operation(opParams, body), Operation(merged, body);
    if AllReplaced(pathParams, opParams) {
      ReplacedSameArgs(merged, pathParams, opParams, body);
    } else {
      var p :| p in pathParams && p.location != Cookie && (p.name, p.location) !in PlacesOf(opParams);
      assert (p.name, p.location) in PlacesOf(merged);
      InjectiveIffNoClash(after);
      ArgsAreImage(before);
      ArgsAreImage(after);
      FewerOccurrences(merged, pathParams, opParams, body, p);
    }
  }

  lemma ReplacedSameArgs(merged: seq<Param>, pathParams: seq<Param>, opParams: seq<Param>,
                             body: map<string, BodyProperty>)
    requires MergeOf(merged, pathParams, opParams) && AllReplaced(pathParams, opParams)
    ensures Args(Operation(opParams, body)) == Args(Operation(merged, body))
  {
    var before, after := Operation(opParams, body), Operation(merged, body);
    forall n
      ensures |Locations(before, n)| == |Locations(after, n)|
      ensures forall l :: l in Locations(before, n) <==> l in Locations(after, n)
    {
      forall l | l != Cookie ensures (n, l) in PlacesOf(opParams) <==> (n, l) in PlacesOf(merged) {
        if (n, l) in PlacesOf(pathParams) {
          var p :| p in pathParams && p.name == n && p.location == l;
        }
      }
      PlacesDecide(opParams, merged, n);
    }
    forall n ensures n in Names(before) <==> n in Names(after) {
      LocationsFacts(before, n);
      LocationsFacts(after, n);
      assert Locations(before, n) != [] <==> |Locations(before, n)| > 0;
    }
    hide Locations, Names;
  }

  lemma FewerOccurrences(merged: seq<Param>, pathParams: seq<Param>, opParams: seq<Param>,
                         body: map<string, BodyProperty>, p: Param)
    requires MergeOf(merged, pathParams, opParams) && WellPlaced(Operation(merged, body))
    requires p.location != Cookie && (p.name, p.location) in PlacesOf(merged)
    requires (p.name, p.location) !in PlacesOf(opParams)
    ensures |Occurrences(Operation(opParams, body))| < |Occurrences(Operation(merged, body))|
  {
    var before, after := Operation(opParams, body), Operation(merged, body);
    forall q | q in opParams ensures exists x :: x in merged && x.name == q.name && x.location == q.location {
      assert (q.name, q.location) in PlacesOf(merged);
    }
    forall q | q in opParams ensures q.location != Body {
      var x :| x in merged && x.name == q.name && x.location == q.location;
    }
    forall o | o in Occurrences(before) ensures o in Occurrences(after) {
      LocationsFacts(before, o.1);
      LocationsFacts(after, o.1);
      assert o.0 in Locations(before, o.1);
      assert o.0 in Locations(after, o.1);
    }
    LocationsFacts(before, p.name);
    LocationsFacts(after, p.name);
    var x :| x in merged && x.name == p.name && x.location == p.location;
    assert (p.location, p.name) in Occurrences(after) && (p.location, p.name) !in Occurrences(before);
    StrictSubsetSmaller(Occurrences(before), Occurrences(after));
  }

  lemma StrictSubsetSmaller<T>(a: set<T>, b: set<T>)
    requires a < b
    ensures |a| < |b|
  {
    assert b == a + (b - a) && |b| == |a| + |b - a|;
  }
}
