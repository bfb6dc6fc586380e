/** How a tool's argument is called, by where its name occurs in the operation
    (pkg/openapi/inputschema.go). */
module ArgumentTexts {
  import opened Json
  import opened ArgNames

  /** `name` stands at one place only: one parameter that is no cookie, or the body. */
  ghost predicate Lone(op: Operation, name: string) {
    if name in op.body then !exists i :: Stands(op.params, i, name)
    else forall i, j :: Stands(op.params, i, name) && Stands(op.params, j, name) ==> i == j
  }

  predicate Stands(params: seq<Param>, i: int, name: string) {
    0 <= i < |params| && params[i].name == name && params[i].location != Cookie
  }

  lemma {:induction false} LocationsOf(params: seq<Param>, name: string)
    ensures |ParamLocations(params, name)| == 0 <==> !exists i :: Stands(params, i, name)
    ensures |ParamLocations(params, name)| <= 1 <==>
            forall i, j :: Stands(params, i, name) && Stands(params, j, name) ==> i == j
  {
    if params != [] {
      var n := |params| - 1;
      var init := params[..n];
      LocationsOf(init, name);
      forall i ensures Stands(params, i, name) <==> (i == n && Stands(params, n, name)) || Stands(init, i, name) {
        assert 0 <= i < n ==> init[i] == params[i];
      }
      var before := ParamLocations(init, name);
      assert |ParamLocations(params, name)| == |before| + if Stands(params, n, name) then 1 else 0;
      assert !Stands(init, n, name);
      hide Stands, ParamLocations;
      if Stands(params, n, name) {
        if i :| Stands(init, i, name) {
          assert Stands(params, i, name) && i != n;
        }
      }
    }
  }

  /** The argument of a name that stands at one place has that name; otherwise the place is
      added to it. */
  lemma ArgumentIs(op: Operation, l: Location, name: string)
    requires Occurs(op, l, name)
    ensures Lone(op, name) ==> ArgFor(op, l, name) == name
    ensures !Lone(op, name) ==>
              && (l == Path ==> ArgFor(op, l, name) == name + "_path")
              && (l == Query ==> ArgFor(op, l, name) == name + "_query")
              && (l == Header ==> ArgFor(op, l, name) == name + "_header")
              && (l == Body ==> ArgFor(op, l, name) == name + "_body")
    ensures l != Cookie
  {
    LocationsOf(op.params, name);
    NoCookies(op.params, name);
    hide ParamLocations, Stands;
    assert "_" + "path" == "_path" && "_" + "query" == "_query";
    assert "_" + "header" == "_header" && "_" + "body" == "_body";
    assert name + "_path" == name + "_" + "path" && name + "_query" == name + "_" + "query";
    assert name + "_header" == name + "_" + "header" && name + "_body" == name + "_" + "body";
  }

  lemma {:induction false} NoCookies(params: seq<Param>, name: string)
    ensures Cookie !in ParamLocations(params, name)
  {
    if params != [] {
      NoCookies(params[..|params| - 1], name);
    }
  }
}
