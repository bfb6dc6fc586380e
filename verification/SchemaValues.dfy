/** What the generator makes of one schema, by the fields of the schema
    (pkg/openapi/synthetic.go:17-108, 170-213): which of its sources comes first, how the parts
    of an `allOf` are merged, and what objects and arrays hold. */
module SchemaValues {
  import opened Json
  import opened SchemaGraph
  import opened Synthetic

  /** The value that a reference stands for. */
  function ValueOf(g: Graph, r: Option<Id>, visited: set<Id>): Value {
    if r.Some? then Generated(g, r.value, visited) else Null
  }

  predicate HasField(v: Value, k: string) {
    v.Object? && k in v.fields
  }

  predicate NotAfter(parts: seq<Value>, i: nat, k: string) {
    forall j :: i < j < |parts| ==> !HasField(parts[j], k)
  }

  /** Each field comes from the last part that has it. */
  ghost predicate MergesParts(fields: map<string, Value>, parts: seq<Value>) {
    && (forall k :: k in fields ==> exists i :: 0 <= i < |parts| && HasField(parts[i], k))
    && (forall i, k :: 0 <= i < |parts| && HasField(parts[i], k) && NotAfter(parts, i, k) ==>
          k in fields && fields[k] == parts[i].fields[k])
  }

  /** Nothing in the schema itself is its value. */
  predicate Bare(s: Schema) {
    s.example == Null && s.xExample == Null && s.defaultValue == Null && s.enumValues == []
  }

  predicate Leads(refs: seq<Option<Id>>) {
    |refs| > 0 && refs[0].Some?
  }

  /** Bare, and without an alternative to go by. */
  predicate Typed(s: Schema) {
    Bare(s) && !Leads(s.oneOf) && !Leads(s.anyOf) && s.allOf == []
  }

  ghost predicate MeansGiven(s: Schema, v: Value) {
    && (s.example != Null ==> v == s.example)
    && (s.example == Null && s.xExample != Null ==> v == s.xExample)
    && (s.example == Null && s.xExample == Null && s.defaultValue != Null ==> v == s.defaultValue)
    && (s.example == Null && s.xExample == Null && s.defaultValue == Null && |s.enumValues| > 0 ==>
        v == s.enumValues[0])
  }

  ghost predicate MeansComposed(s: Schema, v: Value, g: Graph, visited: set<Id>) {
    && (Bare(s) && Leads(s.oneOf) ==> v == ValueOf(g, s.oneOf[0], visited))
    && (Bare(s) && !Leads(s.oneOf) && Leads(s.anyOf) ==> v == ValueOf(g, s.anyOf[0], visited))
    && (Bare(s) && !Leads(s.oneOf) && !Leads(s.anyOf) && |s.allOf| > 0 ==>
          v.Object? &&
            MergesParts(v.fields, seq(|s.allOf|, i requires 0 <= i < |s.allOf| => ValueOf(g, s.allOf[i], visited))))
  }

  ghost predicate MeansTyped(s: Schema, v: Value, g: Graph, visited: set<Id>) {
    Typed(s) ==>
      match s.kind
      case Drawn => v == s.drawn
      case Boolean => v == Bool(false)
      case Untyped => v == Null
      case ArrayKind =>
        && v.Array? && |v.items| >= 1 && |v.items| >= s.minItems && (|v.items| > 1 ==> |v.items| == s.minItems)
        && forall i :: 0 <= i < |v.items| ==> v.items[i] == ValueOf(g, s.items, visited)
      case ObjectKind =>
        && v.Object? && (forall k :: k in v.fields <==> k in s.properties || k in s.required)
        && (forall k :: k in s.properties ==> v.fields[k] == ValueOf(g, s.properties[k], visited))
        && (forall k :: k in s.required && k !in s.properties ==> v.fields[k] == Null)
  }

  // ---------- Parts ----------

  lemma LooksAt(g: Graph, id: Id, r: Option<Id>, visited: set<Id>)
    requires id in g && (r.Some? ==> r.value in Follows(g[id]))
    ensures Look(r, Parts(g, id, visited)) == ValueOf(g, r, visited)
  {
    hide Follows, Generated;
  }

  lemma {:induction false} MergedIs(refs: seq<Option<Id>>, sub: map<Id, Value>, parts: seq<Value>)
    requires |parts| == |refs| && forall i :: 0 <= i < |refs| ==> parts[i] == Look(refs[i], sub)
    ensures MergesParts(Merged(refs, sub), parts)
    decreases |refs|
  {
    hide Look;
    if refs != [] {
      var n := |refs| - 1;
      MergedIs(refs[..n], sub, parts[..n]);
      var before, last := Merged(refs[..n], sub), parts[n];
      assert Merged(refs, sub) == before + if last.Object? then last.fields else map[];
      MergesLast(before, parts, n);
    }
  }

  lemma MergesLast(before: map<string, Value>, parts: seq<Value>, n: nat)
    requires n == |parts| - 1 && MergesParts(before, parts[..n])
    ensures MergesParts(before + if parts[n].Object? then parts[n].fields else map[], parts)
  {
    var last := parts[n];
    var fields := before + if last.Object? then last.fields else map[];
    var init := parts[..n];
    forall k | k in fields ensures exists i :: 0 <= i < |parts| && HasField(parts[i], k) {
      if HasField(last, k) {
        assert HasField(parts[n], k);
      } else {
        var i :| 0 <= i < |init| && HasField(init[i], k);
        assert HasField(parts[i], k);
      }
    }
    forall i, k | 0 <= i < |parts| && HasField(parts[i], k) && NotAfter(parts, i, k)
      ensures k in fields && fields[k] == parts[i].fields[k]
    {
      if i < n {
        assert !HasField(parts[n], k);
        assert HasField(init[i], k);
        assert NotAfter(init, i, k) by {
          assert forall j :: i < j < |init| ==> init[j] == parts[j];
        }
      }
    }
  }

  lemma BareIff(s: Schema)
    ensures Bare(s) <==> Given(s).None?
    ensures Leads(s.oneOf) <==> FirstOf(s.oneOf).Some?
    ensures Leads(s.anyOf) <==> FirstOf(s.anyOf).Some?
  {
  }

  // ---------- One schema ----------

  /** A schema gives its own value by the first of its example, its `x-example`, its default
      and its first enumerated value; failing these it is what its first `oneOf` stands for,
      then its first `anyOf`, then its merged parts, and only then goes by its type. */
  lemma SchemaMeans(g: Graph, id: Id, visited: set<Id>)
    requires id in g
    ensures id in visited ==> Generated(g, id, visited) == Object(map["$cycle" := Bool(true)])
    ensures id !in visited ==>
              var v := Generated(g, id, visited);
              && MeansGiven(g[id], v) && MeansComposed(g[id], v, g, visited + {id})
              && MeansTyped(g[id], v, g, visited + {id})
  {
    if id !in visited {
      Generates(g, id, visited);
      hide *;
      NodeGiven(g[id], Parts(g, id, visited + {id}));
      NodeComposed(g, id, visited + {id});
      NodeTyped(g, id, visited + {id});
    }
  }

  lemma NodeGiven(s: Schema, sub: map<Id, Value>)
    ensures MeansGiven(s, Node(s, sub))
  {
  }

  lemma NodeComposed(g: Graph, id: Id, visited: set<Id>)
    requires id in g
    ensures MeansComposed(g[id], Node(g[id], Parts(g, id, visited)), g, visited)
  {
    var s, sub := g[id], Parts(g, id, visited);
    BareIff(s);
    hide Parts, Generated, ValueOf, Look, Merged, MergesParts, Bare, Leads, Given;
    if Given(s).None? {
      if Alternative(s).Some? {
        assert Alternative(s).value in Follows(s);
        LooksAt(g, id, Alternative(s), visited);
      } else if s.allOf != [] {
        var parts := seq(|s.allOf|, i requires 0 <= i < |s.allOf| => ValueOf(g, s.allOf[i], visited));
        forall i | 0 <= i < |s.allOf| ensures parts[i] == Look(s.allOf[i], sub) {
          assert s.allOf[i].Some? ==> s.allOf[i].value in Targets(s.allOf);
          LooksAt(g, id, s.allOf[i], visited);
        }
        MergedIs(s.allOf, sub, parts);
      }
    }
  }

  lemma NodeTyped(g: Graph, id: Id, visited: set<Id>)
    requires id in g
    ensures MeansTyped(g[id], Node(g[id], Parts(g, id, visited)), g, visited)
  {
    var s, sub := g[id], Parts(g, id, visited);
    BareIff(s);
    hide Parts, Generated, ValueOf, Look, Bare, Leads, Given;
    if Typed(s) {
      if s.kind == ArrayKind {
        LooksAt(g, id, s.items, visited);
      } else if s.kind == ObjectKind {
        forall k | k in s.properties ensures Look(s.properties[k], sub) == ValueOf(g, s.properties[k], visited) {
          assert s.properties[k].Some? ==> s.properties[k].value in PropertyTargets(s);
          LooksAt(g, id, s.properties[k], visited);
        }
      }
    }
  }

  // ---------- The three instances ----------

  /** The second instance is the schema's own value unless it is an object or has properties;
      then it has exactly the required ones of these. */
  lemma RequiredInstance(g: Graph, id: Id)
    requires id in g
    ensures var s, v := g[id], RequiredOnly(g, id);
            if s.kind == ObjectKind || s.properties.Keys != {} then
              && v.Object? && (forall k :: k in v.fields <==> k in s.properties && k in s.required)
              && (forall k :: k in v.fields ==> v.fields[k] == ValueOf(g, s.properties[k], {}))
            else v == Generated(g, id, {})
  {
    hide Generated;
  }

  lemma {:induction false} VariantsAppend(g: Graph, a: seq<Option<Id>>, b: seq<Option<Id>>)
    ensures VariantValues(g, a + b) == VariantValues(g, a) + VariantValues(g, b)
    decreases |b|
  {
    hide Generated;
    if b == [] {
      assert a + b == a;
    } else {
      assert (a + b)[..|a + b| - 1] == a + b[..|b| - 1];
      VariantsAppend(g, a, b[..|b| - 1]);
    }
  }

  /** Where no alternative is empty there is one instance for each, in their order; an empty one
      is skipped. */
  lemma {:induction false} OneForEachVariant(g: Graph, refs: seq<Option<Id>>)
    ensures (forall r :: r in refs ==> r.Some?) ==>
              && |VariantValues(g, refs)| == |refs|
              && forall i :: 0 <= i < |refs| ==> VariantValues(g, refs)[i] == ValueOf(g, refs[i], {})
    ensures VariantValues(g, [None] + refs) == VariantValues(g, refs)
  {
    hide Generated;
    assert VariantValues(g, [None]) == [] by {
      assert VariantValues(g, [None][..0]) == [];
    }
    VariantsAppend(g, [None], refs);
    if refs != [] {
      var n := |refs| - 1;
      OneForEachVariant(g, refs[..n]);
      var before := VariantValues(g, refs[..n]);
      assert VariantValues(g, refs) == before + if refs[n].Some? then [Generated(g, refs[n].value, {})] else [];
      assert refs == refs[..n] + [refs[n]];
      hide VariantValues;
      if forall r :: r in refs ==> r.Some? {
        forall i | 0 <= i < |refs| ensures VariantValues(g, refs)[i] == ValueOf(g, refs[i], {}) {
          assert i < n ==> refs[..n][i] == refs[i];
        }
      }
    }
  }

  /** The further instances are one for each `oneOf`, and without any one for each `anyOf`. */
  lemma InstancesOfAlternatives(g: Graph, s: Schema)
    ensures |s.oneOf| > 0 && (forall r :: r in s.oneOf ==> r.Some?) ==>
              InstancesOf(g, VariantValues(g, Variants(s)), s.oneOf)
    ensures |s.oneOf| == 0 && (forall r :: r in s.anyOf ==> r.Some?) ==>
              InstancesOf(g, VariantValues(g, Variants(s)), s.anyOf)
  {
    OneForEachVariant(g, Variants(s));
    hide VariantValues, ValueOf;
  }

  predicate InstancesOf(g: Graph, values: seq<Value>, refs: seq<Option<Id>>) {
    |values| == |refs| && forall i :: 0 <= i < |refs| ==> values[i] == ValueOf(g, refs[i], {})
  }
}
