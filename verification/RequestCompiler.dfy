/** Requests compiled to jq (pkg/openapi/request_jq.go), evaluated into an envelope
    (pkg/transform/engine.go), and shown to route every argument to its own place. */
module RequestCompiler {
  import opened Json
  import opened ArgNames

  /** The jq expressions the compiler makes: `.a`, `(.a | tostring)`, and
      `(if .a != null then (.b | tostring) else null end)`. */
  datatype Jq = Access(name: string) | Stringify(name: string) | StringifyIf(test: string, shown: string)

  type Entries = seq<(string, Jq)>

  /** An object of named objects: the sections of the request. */
  type Program = seq<(string, Entries)>

  /** How values other than strings are written out: `tostring` in jq, and `%v` in Go. */
  datatype Formatter = Formatter(jq: Value -> string, go: Value -> string)
  {
    function ToString(v: Value): string { if v.Str? then v.s else jq(v) }

    function Sprint(v: Value): string { if v.Str? then v.s else go(v) }
  }

  datatype Envelope = Envelope(path: map<string, string>, query: map<string, string>,
                               headers: map<string, string>, body: Value)

  // ---------- Compiling ----------

  function ExprFor(p: Param, arg: string): Jq {
    match p.location
    case Path => Stringify(arg)
    case Query => if !p.numeric then Access(arg) else if p.required then Stringify(arg) else StringifyIf(arg, arg)
    case _ => Access(arg)
  }

  /** The entries of the parameters at one location, in order. */
  function EntriesAt(params: seq<Param>, l: Location, m: map<string, string>): Entries {
    if params == [] then []
    else
      var before, p := EntriesAt(params[..|params| - 1], l, m), params[|params| - 1];
      if p.location == l then before + [(p.name, ExprFor(p, ArgName(m, l, p.name)))] else before
  }

  /** The entries of the body properties, in some order. */
  ghost predicate BodyEntries(entries: Entries, body: map<string, BodyProperty>, m: map<string, string>) {
    && (forall i :: 0 <= i < |entries| ==>
        entries[i].0 in body && entries[i].1 == Access(ArgName(m, Body, entries[i].0)))
    && (forall n :: n in body ==> exists i :: 0 <= i < |entries| && entries[i].0 == n)
  }

  function Section(name: string, entries: Entries): Program {
    if entries == [] then [] else [(name, entries)]
  }

  function Sections(path: Entries, query: Entries, body: Entries, headers: Entries): Program {
    Section("path", path) + Section("query", query) + Section("body", body) + Section("headers", headers)
  }

  method CollectEntries(params: seq<Param>, l: Location, m: map<string, string>) returns (entries: Entries)
    ensures entries == EntriesAt(params, l, m)
  {
    entries := [];
    for i := 0 to |params|
      invariant entries == EntriesAt(params[..i], l, m)
    {
      var p := params[i];
      assert params[..i + 1][..i] == params[..i];
      if p.location == l {
        entries := entries + [(p.name, ExprFor(p, ArgName(m, l, p.name)))];
      }
    }
    assert params[..|params|] == params;
  }

  method CollectBodyEntries(body: map<string, BodyProperty>, m: map<string, string>) returns (entries: Entries)
    ensures BodyEntries(entries, body, m)
  {
    entries := [];
    var remaining := body.Keys;
    while remaining != {}
      invariant remaining <= body.Keys
      invariant forall i :: 0 <= i < |entries| ==>
                  entries[i].0 in body && entries[i].1 == Access(ArgName(m, Body, entries[i].0))
      invariant forall n :: n in body && n !in remaining ==> exists i :: 0 <= i < |entries| && entries[i].0 == n
      decreases |remaining|
    {
      var n :| n in remaining;
      ghost var before := entries;
      entries := entries + [(n, Access(ArgName(m, Body, n)))];
      remaining := remaining - {n};
      assert entries[|before|].0 == n;
      forall x | x in body && x !in remaining ensures exists i :: 0 <= i < |entries| && entries[i].0 == x {
        if x != n {
          var i :| 0 <= i < |before| && before[i].0 == x;
          assert entries[i].0 == x;
        }
      }
    }
  }

  /** What the compiler yields for an operation, up to the order of the body properties. */
  ghost predicate Compiled(program: Program, op: Operation, m: map<string, string>) {
    exists body :: BodyEntries(body, op.body, m) &&
      program == Sections(EntriesAt(op.params, Path, m), EntriesAt(op.params, Query, m), body,
                          EntriesAt(op.params, Header, m))
  }

  method GenerateRequest(op: Operation, m: map<string, string>) returns (program: Program)
    ensures Compiled(program, op, m)
  {
    program := [];
    var path := CollectEntries(op.params, Path, m);
    if |path| > 0 {
      program := program + [("path", path)];
    }
    var query := CollectEntries(op.params, Query, m);
    if |query| > 0 {
      program := program + [("query", query)];
    }
    var body := CollectBodyEntries(op.body, m);
    if |body| > 0 {
      program := program + [("body", body)];
    }
    var headers := CollectEntries(op.params, Header, m);
    if |headers| > 0 {
      program := program + [("headers", headers)];
    }
    assert program == Sections(path, query, body, headers);
  }

  // ---------- Evaluating ----------

  function Lookup(args: map<string, Value>, name: string): Value {
    if name in args then args[name] else Null
  }

  function Eval(e: Jq, args: map<string, Value>, fmt: Formatter): Value {
    match e
    case Access(name) => Lookup(args, name)
    case Stringify(name) => Str(fmt.ToString(Lookup(args, name)))
    case StringifyIf(test, shown) => if Lookup(args, test) != Null then Str(fmt.ToString(Lookup(args, shown))) else Null
  }

  /** A jq object: of two entries with one key the later counts. */
  function EvalEntries(entries: Entries, args: map<string, Value>, fmt: Formatter): map<string, Value> {
    if entries == [] then map[]
    else
      var last := entries[|entries| - 1];
      EvalEntries(entries[..|entries| - 1], args, fmt)[last.0 := Eval(last.1, args, fmt)]
  }

  function EvalProgram(program: Program, args: map<string, Value>, fmt: Formatter): map<string, Value> {
    if program == [] then map[]
    else
      var last := program[|program| - 1];
      EvalProgram(program[..|program| - 1], args, fmt)[last.0 := Object(EvalEntries(last.1, args, fmt))]
  }

  /** Entries that are not null, written as text. */
  function Texts(raw: map<string, Value>, fmt: Formatter): map<string, string> {
    map k | k in raw && raw[k] != Null :: fmt.Sprint(raw[k])
  }

  method ToTexts(raw: map<string, Value>, fmt: Formatter) returns (texts: map<string, string>)
    ensures texts == Texts(raw, fmt)
  {
    texts := map[];
    var remaining := raw.Keys;
    while remaining != {}
      invariant remaining <= raw.Keys
      invariant texts == map k | k in raw && k !in remaining && raw[k] != Null :: fmt.Sprint(raw[k])
      decreases |remaining|
    {
      var k :| k in remaining;
      if raw[k] != Null {
        texts := texts[k := fmt.Sprint(raw[k])];
      }
      remaining := remaining - {k};
    }
  }

  /** One of the maps of the raw envelope: absent and null both mean empty. */
  function RawMap(output: map<string, Value>, name: string): Option<map<string, Value>> {
    if name !in output || output[name].Null? then Some(map[])
    else if output[name].Object? then Some(output[name].fields)
    else None
  }

  /** The envelope made of a jq result, or None where decoding fails. */
  function EnvelopeOf(output: Value, fmt: Formatter): Option<Envelope> {
    if output.Null? then Some(Envelope(map[], map[], map[], Null))
    else if !output.Object? then None
    else
      var fields := output.fields;
      match (RawMap(fields, "path"), RawMap(fields, "query"), RawMap(fields, "headers"))
      case (Some(path), Some(query), Some(headers)) =>
        Some(Envelope(Texts(path, fmt), Texts(query, fmt), Texts(headers, fmt), Lookup(fields, "body")))
      case _ => None
  }

  method RunRequest(program: Program, args: map<string, Value>, fmt: Formatter) returns (r: Option<Envelope>)
    ensures r == EnvelopeOf(Object(EvalProgram(program, args, fmt)), fmt)
  {
    var output := EvalProgram(program, args, fmt);
    var path, query, headers := RawMap(output, "path"), RawMap(output, "query"), RawMap(output, "headers");
    if path.None? || query.None? || headers.None? {
      return None;
    }
    var q := ToTexts(query.value, fmt);
    var p := ToTexts(path.value, fmt);
    var h := ToTexts(headers.value, fmt);
    return Some(Envelope(p, q, h, Lookup(output, "body")));
  }

  predicate IsMapOrAbsent(output: map<string, Value>, name: string) {
    name in output ==> output[name].Null? || output[name].Object?
  }

  /** The texts are those of the section's values that are not null. */
  ghost predicate Spelled(texts: map<string, string>, output: map<string, Value>, name: string, fmt: Formatter) {
    && (forall k :: k in texts <==>
          name in output && output[name].Object? && k in output[name].fields && output[name].fields[k] != Null)
    && (forall k :: k in texts ==> texts[k] == fmt.Sprint(output[name].fields[k]))
  }

  /** Whatever the transform: null is an empty request; anything else must be an object whose
      three maps, where they are there, are objects; their values become texts, null is left
      out, and the body is passed on as it is. */
  lemma EnvelopeDecodes(output: Value, fmt: Formatter)
    ensures output == Null ==> EnvelopeOf(output, fmt) == Some(Envelope(map[], map[], map[], Null))
    ensures output != Null ==>
              (EnvelopeOf(output, fmt).Some? <==>
               && output.Object? && IsMapOrAbsent(output.fields, "path") && IsMapOrAbsent(output.fields, "query")
               && IsMapOrAbsent(output.fields, "headers"))
    ensures output != Null && EnvelopeOf(output, fmt).Some? ==>
              var env := EnvelopeOf(output, fmt).value;
              && Spelled(env.path, output.fields, "path", fmt) && Spelled(env.query, output.fields, "query", fmt)
              && Spelled(env.headers, output.fields, "headers", fmt)
              && env.body == if "body" in output.fields then output.fields["body"] else Null
  {
  }

  // ---------- Routing ----------

  /** The value a caller gave for a parameter or property. */
  function Given(op: Operation, args: map<string, Value>, l: Location, name: string): Value {
    Lookup(args, ArgFor(op, l, name))
  }

  /** Null is left out, except for a required number, which becomes its text. */
  predicate Sent(p: Param, v: Value) {
    v != Null || (p.location == Query && p.numeric && p.required)
  }

  function QueryText(p: Param, v: Value, fmt: Formatter): string {
    if p.location == Query && p.numeric then fmt.ToString(v) else fmt.Sprint(v)
  }

  /** Each argument goes under its own name to its own place, and nothing else goes
      anywhere: path values as text; query and header values where given; the body with all
      its properties, those not given as null. */
  ghost predicate Routed(env: Envelope, op: Operation, args: map<string, Value>, fmt: Formatter) {
    && (forall p :: p in op.params && p.location == Path ==>
          p.name in env.path && env.path[p.name] == fmt.ToString(Given(op, args, Path, p.name)))
    && (forall p :: p in op.params && p.location == Query ==>
          RoutedOptional(env.query, p, Given(op, args, Query, p.name), fmt))
    && (forall p :: p in op.params && p.location == Header ==>
          RoutedOptional(env.headers, p, Given(op, args, Header, p.name), fmt))
    && env.path.Keys <= NamesAt(op.params, Path)
    && env.query.Keys <= NamesAt(op.params, Query)
    && env.headers.Keys <= NamesAt(op.params, Header)
    && env.body == (if op.body == map[] then Null else Object(map n | n in op.body :: Given(op, args, Body, n)))
  }

  ghost predicate RoutedOptional(sent: map<string, string>, p: Param, v: Value, fmt: Formatter) {
    && (p.name in sent <==> Sent(p, v))
    && (p.name in sent ==> sent[p.name] == QueryText(p, v, fmt))
  }

  function NamesAt(params: seq<Param>, l: Location): set<string> {
    set p | p in params && p.location == l :: p.name
  }

  lemma EvalAppend(entries: Entries, e: (string, Jq), args: map<string, Value>, fmt: Formatter)
    ensures EvalEntries(entries + [e], args, fmt) == EvalEntries(entries, args, fmt)[e.0 := Eval(e.1, args, fmt)]
  {
    assert (entries + [e])[..|entries|] == entries;
  }

  lemma LastParam(params: seq<Param>, l: Location)
    requires DistinctPlaces(params) && params != []
    ensures var init, p := params[..|params| - 1], params[|params| - 1];
            && DistinctPlaces(init) && params == init + [p]
            && NamesAt(params, l) == NamesAt(init, l) + (if p.location == l then {p.name} else {})
            && (forall q :: q in init && q.location == p.location ==> q.name != p.name)
  {
    var init, p := params[..|params| - 1], params[|params| - 1];
    assert params == init + [p];
    forall q | q in init && q.location == p.location ensures q.name != p.name {
      var i :| 0 <= i < |init| && init[i] == q;
      assert params[i] == q && params[|params| - 1] == p;
      assert !SamePlace(q, p);
    }
  }

  /** `got` holds the value of every parameter at a location, under its name, and no more. */
  ghost predicate Evaluated(got: map<string, Value>, params: seq<Param>, l: Location, m: map<string, string>,
                            args: map<string, Value>, fmt: Formatter) {
    && got.Keys == NamesAt(params, l)
    && forall p :: p in params && p.location == l ==>
         p.name in got && got[p.name] == Eval(ExprFor(p, ArgName(m, l, p.name)), args, fmt)
  }

  lemma EvaluatedStep(got: map<string, Value>, params: seq<Param>, l: Location, m: map<string, string>,
                      args: map<string, Value>, fmt: Formatter)
    requires DistinctPlaces(params) && params != [] && Evaluated(got, params[..|params| - 1], l, m, args, fmt)
    ensures var p := params[|params| - 1];
            var value := Eval(ExprFor(p, ArgName(m, l, p.name)), args, fmt);
            Evaluated(if p.location == l then got[p.name := value] else got, params, l, m, args, fmt)
  {
    hide Eval, ExprFor, ArgName, NamesAt, DistinctPlaces;
    LastParam(params, l);
    var init, p := params[..|params| - 1], params[|params| - 1];
    if p.location == l {
      var next := got[p.name := Eval(ExprFor(p, ArgName(m, l, p.name)), args, fmt)];
      assert next.Keys == got.Keys + {p.name};
      forall q | q in params && q.location == l
        ensures q.name in next && next[q.name] == Eval(ExprFor(q, ArgName(m, l, q.name)), args, fmt)
      {
        assert q == p || q in init;
      }
    } else {
      forall q | q in params && q.location == l ensures q in init {
      }
    }
  }

  lemma {:induction false} EntriesEvaluate(params: seq<Param>, l: Location, m: map<string, string>,
                                             args: map<string, Value>, fmt: Formatter)
    requires DistinctPlaces(params)
    ensures Evaluated(EvalEntries(EntriesAt(params, l, m), args, fmt), params, l, m, args, fmt)
  {
    if params == [] {
      EmptyEvaluates(args, fmt);
    } else {
      var init, p := params[..|params| - 1], params[|params| - 1];
      var before := EntriesAt(init, l, m);
      var e := (p.name, ExprFor(p, ArgName(m, l, p.name)));
      assert EntriesAt(params, l, m) == if p.location == l then before + [e] else before;
      hide *;
      LastParam(params, l);
      EntriesEvaluate(init, l, m, args, fmt);
      EvalAppend(before, e, args, fmt);
      EvaluatedStep(EvalEntries(before, args, fmt), params, l, m, args, fmt);
    }
  }

  function KeysOf(entries: Entries): set<string> {
    set e | e in entries :: e.0
  }

  lemma {:induction false} BodyEvaluates(entries: Entries, m: map<string, string>, args: map<string, Value>,
                                         fmt: Formatter)
    requires forall i :: 0 <= i < |entries| ==> entries[i].1 == Access(ArgName(m, Body, entries[i].0))
    ensures var got := EvalEntries(entries, args, fmt);
            got.Keys == KeysOf(entries) && forall n :: n in got ==> got[n] == Lookup(args, ArgName(m, Body, n))
  {
    if entries != [] {
      var init, last := entries[..|entries| - 1], entries[|entries| - 1];
      assert entries == init + [last];
      assert KeysOf(entries) == KeysOf(init) + {last.0};
      assert Eval(last.1, args, fmt) == Lookup(args, ArgName(m, Body, last.0));
      hide *;
      BodyEvaluates(init, m, args, fmt);
      EvalAppend(init, last, args, fmt);
    }
  }

  /** Adds a section to an output, if it has entries. */
  function Put(out: map<string, Value>, name: string, entries: Entries, value: map<string, Value>): map<string, Value> {
    if entries == [] then out else out[name := Object(value)]
  }

  lemma SectionStep(before: Program, name: string, entries: Entries, args: map<string, Value>, fmt: Formatter)
    ensures EvalProgram(before + Section(name, entries), args, fmt) ==
            Put(EvalProgram(before, args, fmt), name, entries, EvalEntries(entries, args, fmt))
  {
    hide EvalEntries;
    if entries == [] {
      assert before + Section(name, entries) == before;
    } else {
      assert (before + [(name, entries)])[..|before|] == before;
    }
  }

  /** Where a section of the output comes from. */
  lemma SectionsEvaluate(path: Entries, query: Entries, body: Entries, headers: Entries, args: map<string, Value>,
                         fmt: Formatter)
    ensures var out := EvalProgram(Sections(path, query, body, headers), args, fmt);
            && RawMap(out, "path") == Some(EvalEntries(path, args, fmt))
            && RawMap(out, "query") == Some(EvalEntries(query, args, fmt))
            && RawMap(out, "headers") == Some(EvalEntries(headers, args, fmt))
            && Lookup(out, "body") == if body == [] then Null else Object(EvalEntries(body, args, fmt))
  {
    hide *;
    EmptyEvaluates(args, fmt);
    SectionChain(path, query, body, headers, args, fmt);
    PickSections(path, query, body, headers, EvalEntries(path, args, fmt), EvalEntries(query, args, fmt),
                 EvalEntries(body, args, fmt), EvalEntries(headers, args, fmt));
  }

  lemma SectionChain(path: Entries, query: Entries, body: Entries, headers: Entries, args: map<string, Value>,
                     fmt: Formatter)
    ensures EvalProgram(Sections(path, query, body, headers), args, fmt) ==
            Put(Put(Put(Put(map[], "path", path, EvalEntries(path, args, fmt)), "query", query,
                        EvalEntries(query, args, fmt)),
                    "body", body, EvalEntries(body, args, fmt)), "headers", headers, EvalEntries(headers, args, fmt))
  {
    var p1 := Section("path", path);
    var p2 := p1 + Section("query", query);
    var p3 := p2 + Section("body", body);
    assert Sections(path, query, body, headers) == p3 + Section("headers", headers);
    assert [] + p1 == p1;
    EmptyProgram(args, fmt);
    hide *;
    SectionStep([], "path", path, args, fmt);
    SectionStep(p1, "query", query, args, fmt);
    SectionStep(p2, "body", body, args, fmt);
    SectionStep(p3, "headers", headers, args, fmt);
  }

  lemma EmptyProgram(args: map<string, Value>, fmt: Formatter)
    ensures EvalProgram([], args, fmt) == map[]
  {
  }

  lemma EmptyEvaluates(args: map<string, Value>, fmt: Formatter)
    ensures EvalEntries([], args, fmt) == map[]
  {
  }

  lemma PickSections(path: Entries, query: Entries, body: Entries, headers: Entries,
                     p: map<string, Value>, q: map<string, Value>, b: map<string, Value>, h: map<string, Value>)
    requires (path == [] ==> p == map[]) && (query == [] ==> q == map[]) && (headers == [] ==> h == map[])
    ensures var out :=
              Put(Put(Put(Put(map[], "path", path, p), "query", query, q), "body", body, b), "headers", headers, h);
            && RawMap(out, "path") == Some(p) && RawMap(out, "query") == Some(q) && RawMap(out, "headers") == Some(h)
            && Lookup(out, "body") == if body == [] then Null else Object(b)
  {
    SectionNamesDiffer();
  }

  lemma SectionNamesDiffer()
    ensures "path" != "query" && "path" != "body" && "path" != "headers"
    ensures "query" != "body" && "query" != "headers" && "body" != "headers"
  {
    assert "path"[0] != "query"[0] && "path"[0] != "body"[0] && "path"[0] != "headers"[0];
    assert "query"[0] != "body"[0] && "query"[0] != "headers"[0] && "body"[0] != "headers"[0];
  }

  /** For every operation whose parameters have distinct places, and every argument map,
      evaluating the compiled request puts each argument exactly where it belongs. */
  lemma CompiledRequestRoutes(program: Program, op: Operation, m: map<string, string>, args: map<string, Value>,
                              fmt: Formatter)
    requires DistinctPlaces(op.params) && WellPlaced(op) && IsMapping(m, op) && Compiled(program, op, m)
    ensures var env := EnvelopeOf(Object(EvalProgram(program, args, fmt)), fmt);
            env.Some? && Routed(env.value, op, args, fmt)
  {
    var body: Entries :| BodyEntries(body, op.body, m) &&
      program == Sections(EntriesAt(op.params, Path, m), EntriesAt(op.params, Query, m), body,
                          EntriesAt(op.params, Header, m));
    hide *;
    var path, query, headers :=
      EntriesAt(op.params, Path, m), EntriesAt(op.params, Query, m), EntriesAt(op.params, Header, m);
    SectionsEvaluate(path, query, body, headers, args, fmt);
    RoutesPath(op, m, args, fmt);
    RoutesOptional(op, m, Query, args, fmt);
    RoutesOptional(op, m, Header, args, fmt);
    RoutesBody(op, m, body, args, fmt);
    Assembled(EvalProgram(program, args, fmt), EvalEntries(path, args, fmt), EvalEntries(query, args, fmt),
              EvalEntries(headers, args, fmt), op, args, fmt);
  }

  lemma Assembled(out: map<string, Value>, path: map<string, Value>, query: map<string, Value>,
                  headers: map<string, Value>,
                  op: Operation, args: map<string, Value>, fmt: Formatter)
    requires RawMap(out, "path") == Some(path) && RawMap(out, "query") == Some(query)
    requires RawMap(out, "headers") == Some(headers)
    requires Texts(path, fmt).Keys <= NamesAt(op.params, Path)
    requires Texts(query, fmt).Keys <= NamesAt(op.params, Query)
    requires Texts(headers, fmt).Keys <= NamesAt(op.params, Header)
    requires forall p :: p in op.params && p.location == Path ==>
               p.name in Texts(path, fmt) && Texts(path, fmt)[p.name] == fmt.ToString(Given(op, args, Path, p.name))
    requires forall p :: p in op.params && p.location == Query ==>
               RoutedOptional(Texts(query, fmt), p, Given(op, args, Query, p.name), fmt)
    requires forall p :: p in op.params && p.location == Header ==>
               RoutedOptional(Texts(headers, fmt), p, Given(op, args, Header, p.name), fmt)
    requires Lookup(out, "body") ==
             (if op.body == map[] then Null else Object(map n | n in op.body :: Given(op, args, Body, n)))
    ensures var env := EnvelopeOf(Object(out), fmt);
            env.Some? && Routed(env.value, op, args, fmt)
  {
    hide RawMap, Texts, NamesAt, RoutedOptional, Given, Lookup;
  }

  /** What a parameter's expression evaluates to. */
  lemma OneValue(p: Param, arg: string, args: map<string, Value>, fmt: Formatter)
    ensures var value, v := Eval(ExprFor(p, arg), args, fmt), Lookup(args, arg);
            && (p.location == Path ==> value == Str(fmt.ToString(v)))
            && (p.location in {Query, Header} ==> (value != Null <==> Sent(p, v)))
            && (p.location in {Query, Header} && value != Null ==> fmt.Sprint(value) == QueryText(p, v, fmt))
  {
  }

  lemma NamedByMapping(op: Operation, m: map<string, string>, l: Location)
    requires IsMapping(m, op) && l in {Path, Query, Header}
    ensures forall p :: p in op.params && p.location == l ==> ArgName(m, l, p.name) == ArgFor(op, l, p.name)
  {
    forall p | p in op.params && p.location == l ensures ArgName(m, l, p.name) == ArgFor(op, l, p.name) {
      LocationsFacts(op, p.name);
      ArgNameOfMapping(m, op, l, p.name);
    }
  }

  lemma RoutesPath(op: Operation, m: map<string, string>, args: map<string, Value>, fmt: Formatter)
    requires DistinctPlaces(op.params) && IsMapping(m, op)
    ensures var texts := Texts(EvalEntries(EntriesAt(op.params, Path, m), args, fmt), fmt);
            && texts.Keys <= NamesAt(op.params, Path)
            && forall p :: p in op.params && p.location == Path ==>
                 p.name in texts && texts[p.name] == fmt.ToString(Given(op, args, Path, p.name))
  {
    hide EvalEntries, EntriesAt, ArgFor, ArgName, DistinctPlaces, IsMapping, Eval, ExprFor, Lookup, NamesAt;
    EntriesEvaluate(op.params, Path, m, args, fmt);
    NamedByMapping(op, m, Path);
    forall p | p in op.params && p.location == Path
      ensures var texts := Texts(EvalEntries(EntriesAt(op.params, Path, m), args, fmt), fmt);
              p.name in texts && texts[p.name] == fmt.ToString(Given(op, args, Path, p.name))
    {
      OneValue(p, ArgFor(op, Path, p.name), args, fmt);
    }
  }

  lemma RoutesOptional(op: Operation, m: map<string, string>, l: Location, args: map<string, Value>, fmt: Formatter)
    requires DistinctPlaces(op.params) && IsMapping(m, op) && l in {Query, Header}
    ensures var texts := Texts(EvalEntries(EntriesAt(op.params, l, m), args, fmt), fmt);
            && texts.Keys <= NamesAt(op.params, l)
            && forall p :: p in op.params && p.location == l ==>
                 RoutedOptional(texts, p, Given(op, args, l, p.name), fmt)
  {
    hide EvalEntries, EntriesAt, ArgFor, ArgName, DistinctPlaces, IsMapping, Eval, ExprFor, Lookup, NamesAt, Sent,
         QueryText;
    EntriesEvaluate(op.params, l, m, args, fmt);
    NamedByMapping(op, m, l);
    forall p | p in op.params && p.location == l
      ensures var texts := Texts(EvalEntries(EntriesAt(op.params, l, m), args, fmt), fmt);
              RoutedOptional(texts, p, Given(op, args, l, p.name), fmt)
    {
      OneValue(p, ArgFor(op, l, p.name), args, fmt);
    }
  }

  lemma BodyKeys(entries: Entries, body: map<string, BodyProperty>, m: map<string, string>)
    requires BodyEntries(entries, body, m)
    ensures KeysOf(entries) == body.Keys && (entries == [] <==> body == map[])
  {
    forall n ensures n in KeysOf(entries) <==> n in body {
      if n in body {
        var i :| 0 <= i < |entries| && entries[i].0 == n;
        assert entries[i] in entries;
      }
    }
    if entries != [] {
      assert entries[0].0 in body;
    } else {
      assert body.Keys == {};
    }
  }

  lemma RoutesBody(op: Operation, m: map<string, string>, body: Entries, args: map<string, Value>, fmt: Formatter)
    requires IsMapping(m, op) && WellPlaced(op) && BodyEntries(body, op.body, m)
    ensures (if body == [] then Null else Object(EvalEntries(body, args, fmt))) ==
            (if op.body == map[] then Null else Object(map n | n in op.body :: Given(op, args, Body, n)))
  {
    BodyKeys(body, op.body, m);
    BodyEvaluates(body, m, args, fmt);
    NamedInBody(op, m);
    hide *;
    GivenInBody(op, EvalEntries(body, args, fmt), args);
  }

  lemma GivenInBody(op: Operation, sent: map<string, Value>, args: map<string, Value>)
    requires sent.Keys == op.body.Keys && forall n :: n in sent ==> sent[n] == Lookup(args, ArgFor(op, Body, n))
    ensures sent == map n | n in op.body :: Given(op, args, Body, n)
  {
    hide ArgFor, Lookup;
  }

  lemma NamedInBody(op: Operation, m: map<string, string>)
    requires IsMapping(m, op)
    ensures forall n :: n in op.body ==> ArgName(m, Body, n) == ArgFor(op, Body, n)
  {
    hide ArgFor, ArgName, IsMapping;
    forall n | n in op.body ensures ArgName(m, Body, n) == ArgFor(op, Body, n) {
      LocationsFacts(op, n);
      ArgNameOfMapping(m, op, Body, n);
    }
  }
}
