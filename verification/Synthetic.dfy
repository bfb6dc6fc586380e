/** The synthetic value generator (pkg/openapi/synthetic.go): recursion over a schema graph
    that may be cyclic, with a set of the schemas being generated. */
module Synthetic {
  import opened Json
  import opened SchemaGraph

  /** The first type of a schema. Strings and numbers are drawn from outside. */
  datatype Kind = Drawn | Boolean | ObjectKind | ArrayKind | Untyped

  /** A schema; Null means that no value is given, None that a reference is empty. What is
      drawn for a string or number schema is taken to be a value of the schema. */
  datatype Schema = Schema(example: Value, xExample: Value, defaultValue: Value, enumValues: seq<Value>,
                           oneOf: seq<Option<Id>>, anyOf: seq<Option<Id>>, allOf: seq<Option<Id>>,
                           kind: Kind, properties: map<string, Option<Id>>, required: seq<string>,
                           items: Option<Id>, minItems: nat, drawn: Value)

  /** The schemas by their addresses; what has no entry is a nil schema. */
  type Graph = map<Id, Schema>

  function Targets(refs: seq<Option<Id>>): set<Id> {
    set r | r in refs && r.Some? :: r.value
  }

  function PropertyTargets(s: Schema): set<Id> {
    set name | name in s.properties && s.properties[name].Some? :: s.properties[name].value
  }

  // ---------- One schema ----------

  /** A value that the schema itself gives. */
  function Given(s: Schema): Option<Value> {
    if s.example != Null then Some(s.example)
    else if s.xExample != Null then Some(s.xExample)
    else if s.defaultValue != Null then Some(s.defaultValue)
    else if s.enumValues != [] then Some(s.enumValues[0])
    else None
  }

  function FirstOf(refs: seq<Option<Id>>): Option<Id> {
    if refs == [] then None else refs[0]
  }

  /** The alternative that stands for the schema. */
  function Alternative(s: Schema): Option<Id> {
    if FirstOf(s.oneOf).Some? then FirstOf(s.oneOf) else FirstOf(s.anyOf)
  }

  /** The schemas whose values the schema's value is made of. */
  function Follows(s: Schema): set<Id> {
    if Given(s).Some? then {}
    else if Alternative(s).Some? then {Alternative(s).value}
    else if s.allOf != [] then Targets(s.allOf)
    else
      match s.kind
      case ObjectKind => PropertyTargets(s)
      case ArrayKind => if s.items.Some? then {s.items.value} else {}
      case _ => {}
  }

  function Look(r: Option<Id>, sub: map<Id, Value>): Value {
    if r.Some? && r.value in sub then sub[r.value] else Null
  }

  /** The parts that are objects, later fields over earlier ones. */
  function Merged(refs: seq<Option<Id>>, sub: map<Id, Value>): map<string, Value> {
    if refs == [] then map[]
    else
      var last := Look(refs[|refs| - 1], sub);
      Merged(refs[..|refs| - 1], sub) + if last.Object? then last.fields else map[]
  }

  /** Every property, and null for the other required names. */
  function Fields(s: Schema, sub: map<Id, Value>): map<string, Value> {
    (map name | name in s.required :: Null) + (map name | name in s.properties :: Look(s.properties[name], sub))
  }

  function Elements(s: Schema, sub: map<Id, Value>): seq<Value> {
    seq(if s.minItems < 1 then 1 else s.minItems, i => Look(s.items, sub))
  }

  /** The value of a schema, given the values of the schemas it follows. */
  function Node(s: Schema, sub: map<Id, Value>): Value {
    if Given(s).Some? then Given(s).value
    else if Alternative(s).Some? then Look(Alternative(s), sub)
    else if s.allOf != [] then Object(Merged(s.allOf, sub))
    else
      match s.kind
      case Drawn => s.drawn
      case Boolean => Bool(false)
      case ObjectKind => Object(Fields(s, sub))
      case ArrayKind => Array(Elements(s, sub))
      case Untyped => Null
  }

  const CYCLE := Object(map["$cycle" := Bool(true)])

  // ---------- The graph ----------

  function LinksOf(g: Graph): (f: Links)
    ensures f.Keys == g.Keys
  {
    map id | id in g :: Follows(g[id])
  }

  /** The value generated for a schema while the visited ones are in progress. */
  function Generated(g: Graph, id: Id, visited: set<Id>): Value
    decreases |g.Keys - visited|
  {
    if id !in g then Null
    else if id in visited then CYCLE
    else
      FewerUnvisited(g.Keys, id, visited);
      Node(g[id], map x | x in Follows(g[id]) :: Generated(g, x, visited + {id}))
  }

  /** The values of the schemas that a schema follows. */
  function Parts(g: Graph, id: Id, visited: set<Id>): map<Id, Value>
    requires id in g
  {
    map x | x in Follows(g[id]) :: Generated(g, x, visited)
  }

  lemma Generates(g: Graph, id: Id, visited: set<Id>)
    requires id in g && id !in visited
    ensures Generated(g, id, visited) == Node(g[id], Parts(g, id, visited + {id}))
  {
    hide Node, Follows;
  }

  /** Where no cycle is broken, the visited set has no influence on the value. */
  lemma {:induction false} VisitedIrrelevant(g: Graph, id: Id, less: set<Id>, more: set<Id>)
    requires less <= more && Broken(LinksOf(g), id, more) == {}
    ensures Generated(g, id, less) == Generated(g, id, more)
    decreases |g.Keys - more|
  {
    hide Node, Follows, Generated;
    if id in g {
      assert id !in more;
      FewerUnvisited(g.Keys, id, more);
      Generates(g, id, less);
      Generates(g, id, more);
      forall x | x in Follows(g[id]) ensures Generated(g, x, less + {id}) == Generated(g, x, more + {id}) {
        NoneBelow(LinksOf(g), id, more, x);
        VisitedIrrelevant(g, x, less + {id}, more + {id});
      }
      assert Parts(g, id, less + {id}) == Parts(g, id, more + {id});
    } else {
      NothingThere(g, id);
    }
  }

  lemma NothingThere(g: Graph, id: Id)
    requires id !in g
    ensures forall visited :: Generated(g, id, visited) == Null
  {
  }

  /** Without cycles the generator means what a schema says: its value is made of the
      followed schemas' own values, as if there were no visited set. */
  lemma GeneratesCompositionally(g: Graph, id: Id)
    requires id in g && Broken(LinksOf(g), id, {}) == {}
    ensures forall x :: x in Follows(g[id]) ==> Broken(LinksOf(g), x, {}) == {}
    ensures Generated(g, id, {}) == Node(g[id], Parts(g, id, {}))
  {
    hide *;
    Generates(g, id, {});
    forall x | x in Follows(g[id])
      ensures Generated(g, x, {}) == Generated(g, x, {} + {id}) && Broken(LinksOf(g), x, {}) == {}
    {
      FollowedAlone(g, id, x);
    }
    SameParts(g, id, {}, {} + {id});
  }

  lemma FollowedAlone(g: Graph, id: Id, x: Id)
    requires id in g && x in Follows(g[id]) && Broken(LinksOf(g), id, {}) == {}
    ensures Generated(g, x, {}) == Generated(g, x, {} + {id}) && Broken(LinksOf(g), x, {}) == {}
  {
    hide *;
    LinkAt(g, id);
    NoneBelow(LinksOf(g), id, {}, x);
    VisitedIrrelevant(g, x, {}, {} + {id});
    StillNone(LinksOf(g), x, {}, {} + {id});
  }

  lemma LinkAt(g: Graph, id: Id)
    requires id in g
    ensures LinksOf(g)[id] == Follows(g[id])
  {
    hide Follows;
  }

  lemma SameParts(g: Graph, id: Id, u: set<Id>, v: set<Id>)
    requires id in g && forall x :: x in Follows(g[id]) ==> Generated(g, x, u) == Generated(g, x, v)
    ensures Parts(g, id, u) == Parts(g, id, v)
  {
    hide Follows, Generated;
  }

  // ---------- Depth ----------

  /** At most n arrays and objects inside each other. */
  predicate DepthAtMost(v: Value, n: nat)
    decreases v
  {
    match v
    case Array(items) => n > 0 && forall i :: 0 <= i < |items| ==> DepthAtMost(items[i], n - 1)
    case Object(fields) => n > 0 && forall k :: k in fields ==> DepthAtMost(fields[k], n - 1)
    case _ => true
  }

  lemma {:induction false} DepthMonotone(v: Value, m: nat, n: nat)
    requires DepthAtMost(v, m) && m <= n
    ensures DepthAtMost(v, n)
    decreases v
  {
    match v {
      case Array(items) =>
        forall i | 0 <= i < |items| ensures DepthAtMost(items[i], n - 1) {
          DepthMonotone(items[i], m - 1, n - 1);
        }
      case Object(fields) =>
        forall k | k in fields ensures DepthAtMost(fields[k], n - 1) {
          DepthMonotone(fields[k], m - 1, n - 1);
        }
      case _ =>
    }
  }

  /** The values with at most n arrays and objects inside each other. */
  ghost function Shallow(n: nat): iset<Value> {
    iset v: Value | DepthAtMost(v, n)
  }

  /** Values given in the schemas, and values drawn, nest at most d deep. */
  ghost predicate GivenDepth(g: Graph, d: nat) {
    forall id :: id in g ==> g[id].drawn in Shallow(d) && (Given(g[id]).Some? ==> Given(g[id]).value in Shallow(d))
  }

  lemma {:induction false} MergedDepth(refs: seq<Option<Id>>, sub: map<Id, Value>, n: nat)
    requires forall x :: x in sub ==> sub[x] in Shallow(n)
    ensures n == 0 ==> Merged(refs, sub) == map[]
    ensures n > 0 ==> forall k :: k in Merged(refs, sub) ==> Merged(refs, sub)[k] in Shallow(n - 1)
  {
    if refs != [] {
      MergedDepth(refs[..|refs| - 1], sub, n);
      var last := Look(refs[|refs| - 1], sub);
      assert last in Shallow(n) && DepthAtMost(last, n);
    }
  }

  lemma NodeDepth(s: Schema, sub: map<Id, Value>, d: nat, n: nat)
    requires d <= n + 1 && (Given(s).Some? ==> Given(s).value in Shallow(d)) && s.drawn in Shallow(d)
    requires forall x :: x in sub ==> sub[x] in Shallow(n)
    ensures Node(s, sub) in Shallow(n + 1)
  {
    if Given(s).Some? {
      DepthMonotone(Given(s).value, d, n + 1);
    } else if Alternative(s).Some? {
      assert Look(Alternative(s), sub) in Shallow(n);
      DepthMonotone(Look(Alternative(s), sub), n, n + 1);
    } else if s.allOf != [] {
      MergedDepth(s.allOf, sub, n);
      assert DepthAtMost(Object(Merged(s.allOf, sub)), if n == 0 then 1 else n);
      DepthMonotone(Object(Merged(s.allOf, sub)), if n == 0 then 1 else n, n + 1);
    } else if s.kind == Drawn {
      DepthMonotone(s.drawn, d, n + 1);
    } else if s.kind == ObjectKind {
      assert forall k :: k in Fields(s, sub) ==> Fields(s, sub)[k] in Shallow(n);
    } else if s.kind == ArrayKind {
      assert forall i :: 0 <= i < |Elements(s, sub)| ==> Elements(s, sub)[i] in Shallow(n);
    }
  }

  /** No walk from the schema comes back to one that is visited. */
  ghost predicate Unbroken(g: Graph, id: Id, visited: set<Id>) {
    Broken(LinksOf(g), id, visited) == {}
  }

  lemma {:induction false} DepthWithin(g: Graph, id: Id, visited: set<Id>, d: nat, unvisited: nat)
    requires (d > 0 || Unbroken(g, id, visited)) && GivenDepth(g, d) && |g.Keys - visited| <= unvisited
    ensures Generated(g, id, visited) in Shallow(unvisited + d)
    decreases unvisited
  {
    hide *;
    if id !in g || id in visited {
      DepthStart(g, id, visited, unvisited + d);
    } else {
      FewerUnvisited(g.Keys, id, visited);
      forall x | x in Follows(g[id])
        ensures Generated(g, x, visited + {id}) in Shallow(unvisited - 1 + d)
      {
        StillUnbroken(g, id, visited, x);
        DepthWithin(g, x, visited + {id}, d, unvisited - 1);
      }
      DepthStep(g, id, visited, d, unvisited - 1 + d);
    }
  }

  lemma StillUnbroken(g: Graph, id: Id, visited: set<Id>, x: Id)
    requires id in g && x in Follows(g[id])
    ensures Unbroken(g, id, visited) ==> Unbroken(g, x, visited + {id})
  {
    hide Follows, Broken;
    LinkAt(g, id);
    if Unbroken(g, id, visited) {
      NoneBelow(LinksOf(g), id, visited, x);
    }
  }

  lemma DepthStart(g: Graph, id: Id, visited: set<Id>, n: nat)
    requires (id !in g || id in visited) && (n > 0 || Unbroken(g, id, visited))
    ensures Generated(g, id, visited) in Shallow(n)
  {
    hide Follows;
    assert DepthAtMost(Null, n);
    if n > 0 {
      assert DepthAtMost(Bool(true), n - 1);
    }
  }

  lemma DepthStep(g: Graph, id: Id, visited: set<Id>, d: nat, n: nat)
    requires id in g && id !in visited && d <= n + 1 && GivenDepth(g, d)
    requires forall x :: x in Follows(g[id]) ==> Generated(g, x, visited + {id}) in Shallow(n)
    ensures Generated(g, id, visited) in Shallow(n + 1)
  {
    hide Generated, Node, Follows, Given, Shallow, DepthAtMost;
    Generates(g, id, visited);
    NodeDepth(g[id], Parts(g, id, visited + {id}), d, n);
  }

  /** A generated value nests no deeper than there are schemas, besides what given values add;
      if those are all scalars, the mark of a broken cycle may add one, and nothing else does. */
  lemma DepthBounded(g: Graph, root: Id, d: nat)
    requires GivenDepth(g, d)
    ensures d > 0 || Unbroken(g, root, {}) ==> Generated(g, root, {}) in Shallow(|g| + d)
    ensures Generated(g, root, {}) in Shallow(|g| + d + 1)
  {
    hide *;
    AtMostAll(g.Keys, {});
    if d > 0 || Unbroken(g, root, {}) {
      DepthWithin(g, root, {}, d, |g|);
    }
    DeeperGiven(g, d);
    DepthWithin(g, root, {}, d + 1, |g|);
  }

  lemma DeeperGiven(g: Graph, d: nat)
    requires GivenDepth(g, d)
    ensures GivenDepth(g, d + 1)
  {
    hide Given;
    forall id | id in g
      ensures g[id].drawn in Shallow(d + 1) && (Given(g[id]).Some? ==> Given(g[id]).value in Shallow(d + 1))
    {
      DepthMonotone(g[id].drawn, d, d + 1);
      if Given(g[id]).Some? {
        DepthMonotone(Given(g[id]).value, d, d + 1);
      }
    }
  }

  /** The mark does add one: an object whose one property is itself. */
  lemma CycleCostsOne(id: Id, s: Schema)
    requires s == Schema(Null, Null, Null, [], [], [], [], ObjectKind, map["p" := Some(id)], [], None, 0, Null)
    ensures GivenDepth(map[id := s], 0) && Generated(map[id := s], id, {}) !in Shallow(1)
  {
    var g := map[id := s];
    assert Follows(s) == {id} by {
      assert s.properties["p"].value == id;
    }
    Generates(g, id, {});
    assert Generated(g, id, {id}) == CYCLE;
    var parts := Parts(g, id, {} + {id});
    assert {} + {id} == {id} && parts[id] == CYCLE;
    assert Fields(s, parts)["p"] == CYCLE;
    assert !DepthAtMost(CYCLE, 0);
  }

  lemma AtMostAll(all: set<Id>, visited: set<Id>)
    ensures |all - visited| <= |all|
  {
    assert all == (all - visited) + (all * visited);
  }

  // ---------- The generator ----------

  /** The stops of the walks from several schemas. */
  function AllBroken(f: Links, from: set<Id>, visited: set<Id>): set<Id> {
    set x, w | x in from && w in Broken(f, x, visited) :: w
  }

  lemma AllBrokenAdd(f: Links, from: set<Id>, x: Id, visited: set<Id>)
    ensures AllBroken(f, from + {x}, visited) == AllBroken(f, from, visited) + Broken(f, x, visited)
    ensures AllBroken(f, {}, visited) == {}
  {
    hide Broken;
  }

  lemma BrokenBelow(g: Graph, id: Id, visited: set<Id>)
    requires id in g && id !in visited
    ensures Broken(LinksOf(g), id, visited) == AllBroken(LinksOf(g), Follows(g[id]), visited + {id})
  {
  }

  lemma MergeStart(f: Links, refs: seq<Option<Id>>, parts: map<Id, Value>, visited: set<Id>)
    ensures Merged(refs[..0], parts) == map[] && AllBroken(f, Targets(refs[..0]), visited) == {}
  {
    hide Broken;
  }

  lemma MergeStep(g: Graph, id: Id, i: nat, visited: set<Id>)
    requires id in g && i < |g[id].allOf| && Follows(g[id]) == Targets(g[id].allOf)
    ensures var refs, parts, v := g[id].allOf, Parts(g, id, visited), RefValue(g, g[id].allOf[i], visited);
            Merged(refs[..i + 1], parts) == Merged(refs[..i], parts) + (if v.Object? then v.fields else map[])
    ensures var refs, links := g[id].allOf, LinksOf(g);
            AllBroken(links, Targets(refs[..i + 1]), visited) ==
            AllBroken(links, Targets(refs[..i]), visited) + RefBroken(links, refs[i], visited)
  {
    hide Generated, Broken, Follows, LinksOf, AllBroken;
    var refs := g[id].allOf;
    assert refs[..i + 1][..i] == refs[..i] && refs[..i + 1] == refs[..i] + [refs[i]];
    if refs[i].Some? {
      assert refs[i] in refs && refs[i].value in Targets(refs);
      assert Targets(refs[..i + 1]) == Targets(refs[..i]) + {refs[i].value};
      AllBrokenAdd(LinksOf(g), Targets(refs[..i]), refs[i].value, visited);
    } else {
      assert Targets(refs[..i + 1]) == Targets(refs[..i]);
    }
  }

  function RefValue(g: Graph, ref: Option<Id>, visited: set<Id>): Value {
    if ref.Some? then Generated(g, ref.value, visited) else Null
  }

  function RefBroken(f: Links, ref: Option<Id>, visited: set<Id>): set<Id> {
    if ref.Some? then Broken(f, ref.value, visited) else {}
  }

  function PropertyValues(s: Schema, parts: map<Id, Value>, names: set<string>): map<string, Value>
    requires names <= s.properties.Keys
  {
    map name | name in names :: Look(s.properties[name], parts)
  }

  function PropertiesBroken(f: Links, s: Schema, names: set<string>, visited: set<Id>): set<Id>
    requires names <= s.properties.Keys
  {
    set name, w | name in names && w in RefBroken(f, s.properties[name], visited) :: w
  }

  lemma PropertiesStep(g: Graph, id: Id, names: set<string>, name: string, visited: set<Id>)
    requires id in g && names <= g[id].properties.Keys && name in g[id].properties
    requires Follows(g[id]) == PropertyTargets(g[id])
    ensures var s, parts := g[id], Parts(g, id, visited);
            PropertyValues(s, parts, names + {name}) ==
            PropertyValues(s, parts, names)[name := RefValue(g, s.properties[name], visited)]
    ensures PropertiesBroken(LinksOf(g), g[id], names + {name}, visited) ==
            PropertiesBroken(LinksOf(g), g[id], names, visited) + RefBroken(LinksOf(g), g[id].properties[name], visited)
  {
    hide Generated, Broken, Follows, LinksOf, RefBroken;
    var s := g[id];
    assert s.properties[name].Some? ==> s.properties[name].value in PropertyTargets(s);
  }

  lemma PropertiesEnds(f: Links, s: Schema, parts: map<Id, Value>, visited: set<Id>)
    ensures PropertyValues(s, parts, {}) == map[] && PropertiesBroken(f, s, {}, visited) == {}
    ensures PropertiesBroken(f, s, s.properties.Keys, visited) == AllBroken(f, PropertyTargets(s), visited)
  {
    hide Broken;
    var all, targets := PropertiesBroken(f, s, s.properties.Keys, visited), AllBroken(f, PropertyTargets(s), visited);
    forall w | w in all ensures w in targets {
      var name :| name in s.properties && w in RefBroken(f, s.properties[name], visited);
      assert s.properties[name].value in PropertyTargets(s);
    }
    forall w | w in targets ensures w in all {
      var x :| x in PropertyTargets(s) && w in Broken(f, x, visited);
      var name :| name in s.properties && s.properties[name] == Some(x);
      assert w in RefBroken(f, s.properties[name], visited);
    }
  }

  lemma FieldsAre(s: Schema, parts: map<Id, Value>)
    ensures Fields(s, parts) == (map name | name in s.required :: Null) + PropertyValues(s, parts, s.properties.Keys)
  {
  }

  /** A run of the generator: its visited map, and the schemas it has warned about. */
  class Run {
    const graph: Graph
    var visited: set<Id>
    var warned: set<Id>

    constructor (graph: Graph)
      ensures this.graph == graph && visited == {} && warned == {}
    {
      this.graph, visited, warned := graph, {}, {};
    }

    /** Whatever the graph, this ends, leaves the visited map as it was, and warns about
        exactly the schemas where it stops. */
    method Generate(id: Id) returns (r: Value)
      modifies this
      ensures visited == old(visited)
      ensures r == Generated(graph, id, visited)
      ensures warned == old(warned) + Broken(LinksOf(graph), id, visited)
      decreases |graph.Keys - visited|, 1, 0
    {
      hide Node, Follows;
      if id !in graph {
        return Null;
      }
      if id in visited {
        warned := warned + {id};
        return CYCLE;
      }
      Generates(graph, id, visited);
      BrokenBelow(graph, id, visited);
      FewerUnvisited(graph.Keys, id, visited);
      hide Generated, Broken, AllBroken, Parts;
      visited := visited + {id};
      r := GenerateMarked(id);
      visited := visited - {id};
    }

    /** What Generate does between marking the schema and unmarking it. */
    method GenerateMarked(id: Id) returns (r: Value)
      requires id in graph
      modifies this
      ensures visited == old(visited)
      ensures r == Node(graph[id], Parts(graph, id, visited))
      ensures warned == old(warned) + AllBroken(LinksOf(graph), Follows(graph[id]), visited)
      decreases |graph.Keys - visited|, 3
    {
      hide Generated, Broken, AllBroken, Parts, Merged, Fields, Elements;
      var s := graph[id];
      AllBrokenAdd(LinksOf(graph), {}, id, visited);
      if s.example != Null {
        return s.example;
      }
      if s.xExample != Null {
        return s.xExample;
      }
      if s.defaultValue != Null {
        return s.defaultValue;
      }
      if |s.enumValues| > 0 {
        return s.enumValues[0];
      }
      if |s.oneOf| > 0 && s.oneOf[0].Some? {
        r := FollowOne(id, s.oneOf[0].value);
      } else if |s.anyOf| > 0 && s.anyOf[0].Some? {
        r := FollowOne(id, s.anyOf[0].value);
      } else if |s.allOf| > 0 {
        r := MergeAll(id);
      } else if s.kind == Boolean {
        r := Bool(false);
      } else if s.kind == Drawn {
        r := s.drawn;
      } else if s.kind == ObjectKind {
        r := GenerateObject(id);
      } else if s.kind == ArrayKind {
        r := GenerateArray(id);
      } else {
        r := Null;
      }
    }

    method FollowOne(id: Id, x: Id) returns (r: Value)
      requires id in graph && Follows(graph[id]) == {x}
      modifies this
      ensures visited == old(visited)
      ensures r == Look(Some(x), Parts(graph, id, visited))
      ensures warned == old(warned) + AllBroken(LinksOf(graph), Follows(graph[id]), visited)
      decreases |graph.Keys - visited|, 2
    {
      hide Generated, Broken, Follows, AllBroken;
      AllBrokenAdd(LinksOf(graph), {}, x, visited);
      assert {} + {x} == {x};
      r := Generate(x);
    }

    method MergeAll(id: Id) returns (r: Value)
      requires id in graph && Follows(graph[id]) == Targets(graph[id].allOf)
      modifies this
      ensures visited == old(visited)
      ensures r == Object(Merged(graph[id].allOf, Parts(graph, id, visited)))
      ensures warned == old(warned) + AllBroken(LinksOf(graph), Follows(graph[id]), visited)
      decreases |graph.Keys - visited|, 2
    {
      hide Generated, Broken, Follows, LinksOf, AllBroken, Parts, Merged, Targets;
      var refs := graph[id].allOf;
      var merged: map<string, Value> := map[];
      MergeStart(LinksOf(graph), refs, Parts(graph, id, visited), visited);
      for i := 0 to |refs|
        invariant visited == old(visited)
        invariant merged == Merged(refs[..i], Parts(graph, id, visited))
        invariant warned == old(warned) + AllBroken(LinksOf(graph), Targets(refs[..i]), visited)
      {
        MergeStep(graph, id, i, visited);
        if refs[i].Some? {
          var v := Generate(refs[i].value);
          if v.Object? {
            merged := merged + v.fields;
          }
        }
      }
      assert refs[..|refs|] == refs;
      r := Object(merged);
    }

    method GenerateObject(id: Id) returns (r: Value)
      requires id in graph && Follows(graph[id]) == PropertyTargets(graph[id])
      modifies this
      ensures visited == old(visited)
      ensures r == Object(Fields(graph[id], Parts(graph, id, visited)))
      ensures warned == old(warned) + AllBroken(LinksOf(graph), Follows(graph[id]), visited)
      decreases |graph.Keys - visited|, 2
    {
      hide *;
      ghost var parts := Parts(graph, id, visited);
      PropertiesEnds(LinksOf(graph), graph[id], parts, visited);
      var result := GenerateProperties(id);
      result := AddRequired(graph[id].required, result);
      FieldsAre(graph[id], parts);
      r := Object(result);
    }

    method GenerateProperties(id: Id) returns (result: map<string, Value>)
      requires id in graph && Follows(graph[id]) == PropertyTargets(graph[id])
      modifies this
      ensures visited == old(visited)
      ensures result == PropertyValues(graph[id], Parts(graph, id, visited), graph[id].properties.Keys)
      ensures warned == old(warned) + PropertiesBroken(LinksOf(graph), graph[id], graph[id].properties.Keys, visited)
      decreases |graph.Keys - visited|, 1, 2
    {
      hide *;
      var s := graph[id];
      result := map[];
      var remaining := s.properties.Keys;
      ghost var done: set<string> := {};
      PropertiesEnds(LinksOf(graph), s, Parts(graph, id, visited), visited);
      while remaining != {}
        invariant remaining <= s.properties.Keys && done == s.properties.Keys - remaining && visited == old(visited)
        invariant result == PropertyValues(s, Parts(graph, id, visited), done)
        invariant warned == old(warned) + PropertiesBroken(LinksOf(graph), s, done, visited)
        decreases |remaining|
      {
        var name :| name in remaining;
        PropertiesStep(graph, id, done, name, visited);
        var v := GenerateRef(s.properties[name]);
        result := result[name := v];
        remaining, done := remaining - {name}, done + {name};
      }
      assert done == s.properties.Keys;
    }

    /** A property's value: null for an empty reference. */
    method GenerateRef(ref: Option<Id>) returns (v: Value)
      modifies this
      ensures visited == old(visited)
      ensures v == RefValue(graph, ref, visited)
      ensures warned == old(warned) + RefBroken(LinksOf(graph), ref, visited)
      decreases |graph.Keys - visited|, 1, 1
    {
      hide Generated, Broken;
      if ref.None? {
        return Null;
      }
      v := Generate(ref.value);
    }

    static method AddRequired(required: seq<string>, properties: map<string, Value>)
      returns (result: map<string, Value>)
      ensures result == (map name | name in required :: Null) + properties
    {
      result := properties;
      for i := 0 to |required|
        invariant result == (map name | name in required[..i] :: Null) + properties
      {
        assert required[..i + 1] == required[..i] + [required[i]];
        if required[i] !in result {
          result := result[required[i] := Null];
        }
      }
      assert required[..|required|] == required;
    }

    method GenerateArray(id: Id) returns (r: Value)
      requires id in graph && Follows(graph[id]) == if graph[id].items.Some? then {graph[id].items.value} else {}
      modifies this
      ensures visited == old(visited)
      ensures r == Array(Elements(graph[id], Parts(graph, id, visited)))
      ensures warned == old(warned) + AllBroken(LinksOf(graph), Follows(graph[id]), visited)
      decreases |graph.Keys - visited|, 2
    {
      hide Generated, Broken, Follows, AllBroken;
      var s := graph[id];
      var minItems := if s.minItems < 1 then 1 else s.minItems;
      var result: seq<Value> := [];
      AllBrokenAdd(LinksOf(graph), {}, if s.items.Some? then s.items.value else id, visited);
      for i := 0 to minItems
        invariant visited == old(visited) && |result| == i
        invariant forall j :: 0 <= j < i ==> result[j] == Look(s.items, Parts(graph, id, visited))
        invariant warned == old(warned) + if i == 0 then {} else AllBroken(LinksOf(graph), Follows(s), visited)
      {
        if s.items.Some? {
          assert {} + {s.items.value} == Follows(s);
          var v := Generate(s.items.value);
          result := result + [v];
        } else {
          result := result + [Null];
        }
      }
      r := Array(result);
    }
  }

  // ---------- Three instances ----------

  function RequiredFields(g: Graph, s: Schema): map<string, Value> {
    map name | name in s.properties && name in s.required :: RefValue(g, s.properties[name], {})
  }

  function RequiredOnly(g: Graph, id: Id): Value {
    if id !in g then Null
    else if g[id].kind != ObjectKind && g[id].properties == map[] then Generated(g, id, {})
    else Object(RequiredFields(g, g[id]))
  }

  function Variants(s: Schema): seq<Option<Id>> {
    if s.oneOf == [] then s.anyOf else s.oneOf
  }

  function VariantValues(g: Graph, refs: seq<Option<Id>>): seq<Value> {
    if refs == [] then []
    else
      var last := refs[|refs| - 1];
      VariantValues(g, refs[..|refs| - 1]) + if last.Some? then [Generated(g, last.value, {})] else []
  }

  method GenerateRequiredOnly(g: Graph, id: Id) returns (r: Value)
    ensures r == RequiredOnly(g, id)
  {
    hide Generated;
    if id !in g {
      return Null;
    }
    var s := g[id];
    if s.kind != ObjectKind && |s.properties| == 0 {
      var run := new Run(g);
      r := run.Generate(id);
    } else {
      var result := GenerateRequired(g, s);
      r := Object(result);
    }
  }

  method GenerateRequired(g: Graph, s: Schema) returns (result: map<string, Value>)
    ensures result == RequiredFields(g, s)
  {
    hide *;
    var required := NamesIn(s.required);
    result := map[];
    var remaining := s.properties.Keys;
    RequiredEnds(g, s);
    while remaining != {}
      invariant remaining <= s.properties.Keys && result == RequiredBut(g, s, remaining)
      decreases |remaining|
    {
      var name :| name in remaining;
      RequiredStep(g, s, remaining, name);
      if name in required {
        if s.properties[name].None? {
          result := result[name := Null];
        } else {
          var run := new Run(g);
          var v := run.Generate(s.properties[name].value);
          result := result[name := v];
        }
      }
      remaining := remaining - {name};
    }
  }

  method NamesIn(list: seq<string>) returns (names: set<string>)
    ensures forall name :: name in names <==> name in list
  {
    names := {};
    for i := 0 to |list|
      invariant forall name :: name in names <==> name in list[..i]
    {
      assert list[..i + 1] == list[..i] + [list[i]];
      names := names + {list[i]};
    }
    assert list[..|list|] == list;
  }

  /** The required fields but for some properties. */
  function RequiredBut(g: Graph, s: Schema, remaining: set<string>): map<string, Value> {
    map name | name in s.properties && name !in remaining && name in s.required :: RefValue(g, s.properties[name], {})
  }

  lemma RequiredEnds(g: Graph, s: Schema)
    ensures RequiredBut(g, s, s.properties.Keys) == map[] && RequiredBut(g, s, {}) == RequiredFields(g, s)
  {
    hide RefValue;
  }

  lemma RequiredStep(g: Graph, s: Schema, remaining: set<string>, name: string)
    requires name in remaining && name in s.properties
    ensures RequiredBut(g, s, remaining - {name}) ==
            (if name !in s.required then RequiredBut(g, s, remaining)
             else
               RequiredBut(g, s, remaining)
                 [name := if s.properties[name].Some? then Generated(g, s.properties[name].value, {}) else Null])
  {
    hide Generated;
  }

  /** The instances used for the dry run: everything, the required properties only, and one
      for each alternative. Each is generated with a visited map of its own. */
  method GenerateThreeInstances(g: Graph, id: Id) returns (r: seq<Value>)
    ensures r ==
            [Generated(g, id, {}), RequiredOnly(g, id)] + (if id in g then VariantValues(g, Variants(g[id])) else [])
  {
    hide Generated, RequiredOnly;
    var run := new Run(g);
    var first := run.Generate(id);
    var second := GenerateRequiredOnly(g, id);
    r := [first, second];
    if id in g {
      var variants := if |g[id].oneOf| == 0 then g[id].anyOf else g[id].oneOf;
      for i := 0 to |variants|
        invariant r == [first, second] + VariantValues(g, variants[..i])
      {
        assert variants[..i + 1][..i] == variants[..i];
        if variants[i].Some? {
          var another := new Run(g);
          var v := another.Generate(variants[i].value);
          r := r + [v];
        }
      }
      assert variants[..|variants|] == variants;
    }
  }

  /** The schema's value is built from its properties. */
  predicate IsPlainObject(s: Schema) {
    Given(s).None? && Alternative(s).None? && s.allOf == [] && s.kind == ObjectKind
  }

  /** Without cycles, the second instance of an object schema is the first one cut down to
      its required properties; a required name that is no property is in the first only. */
  lemma SecondInstanceWithinFirst(g: Graph, id: Id)
    requires id in g && IsPlainObject(g[id]) && Broken(LinksOf(g), id, {}) == {}
    ensures var first, second := Generated(g, id, {}), RequiredOnly(g, id);
            && first.Object? && second.Object?
            && (forall name :: name in g[id].required ==> name in first.fields)
            && (forall name :: name in second.fields <==> name in g[id].required && name in g[id].properties)
            && (forall name :: name in second.fields ==> first.fields[name] == second.fields[name])
  {
    GeneratesCompositionally(g, id);
    hide Generated, Broken, Follows;
    PlainObject(g, id);
    var s := g[id];
    var first := Fields(s, Parts(g, id, {}));
    forall name | name in s.properties ensures name in first && first[name] == RefValue(g, s.properties[name], {}) {
      assert s.properties[name].Some? ==> s.properties[name].value in PropertyTargets(s);
    }
  }

  lemma PlainObject(g: Graph, id: Id)
    requires id in g && IsPlainObject(g[id])
    ensures Follows(g[id]) == PropertyTargets(g[id])
    ensures forall sub: map<Id, Value> :: Node(g[id], sub) == Object(Fields(g[id], sub))
  {
    hide Fields, PropertyTargets;
  }
}
