/** Whose results a cached answer can be (pkg/mcp/manager.go:149-195), in terms of the
    configured caches and the callers' own subjects. */
module CacheSubjects {
  import opened Json
  import opened Registry
  import opened CacheKey
  import opened ServerSync
  import opened CachedDispatch

  /** Results of the tool are cached: it names a cache, and that cache is configured. */
  ghost predicate Caches(s: CacheState, tool: string) {
    && s.view.Some? && s.store.Some? && tool in s.view.value.index
    && s.view.value.index[tool].cacheName != "" && s.view.value.index[tool].cacheName in s.caches
  }

  /** The cache of the tool keeps results apart for each subject. */
  ghost predicate KeepsApart(s: CacheState, tool: string)
    requires Caches(s, tool)
  {
    s.caches[s.view.value.index[tool].cacheName]
  }

  /** The `i`-th step of the run was a call that the registry itself answered with a result,
      while its tool was cached. */
  ghost predicate Answered(ops: seq<CacheOp>, i: nat, call: Call, result: CallResult)
    requires i < |ops|
  {
    var s := CacheRun(ops[..i]);
    && ops[i].Serve? && ops[i].call == call && Caches(s, call.tool) && !result.isError
    && Uncached(s.view.value, call, ops[i].env.executed) == Returned(result)
  }

  lemma LoggedIsAnswered(ops: seq<CacheOp>, i: nat, e: Event)
    requires i < |ops| && LoggedAt(ops, i, e) && !e.result.isError
    ensures Answered(ops, i, e.call, e.result)
    ensures e.perUser == KeepsApart(CacheRun(ops[..i]), e.call.tool)
  {
  }

  /** Every hit is for a cached tool and repeats what an earlier call of that tool with equal
      arguments was answered. If results are kept apart, that call was by the same subject, or
      else the caller has none and the result dates from when they were not kept apart. */
  lemma HitIsTheCallersOwn(ops: seq<CacheOp>, call: Call, env: Surroundings)
    requires Hit(CacheRun(ops), call, env) && NestsWithNone(ops, call.tool)
    ensures var s := CacheRun(ops);
            && Caches(s, call.tool)
            && exists i, earlier, result ::
                 && 0 <= i < |ops| && Answered(ops, i, earlier, result)
                 && Dispatch(s, call, env).1 == Returned(result)
                 && earlier.tool == call.tool && earlier.args == call.args
                 && (KeepsApart(s, call.tool) ==>
                       earlier.subject == call.subject ||
                       (call.subject == "" && !KeepsApart(CacheRun(ops[..i]), call.tool)))
  {
    var s := CacheRun(ops);
    HitsRepeatEarlierResults(ops, call, env);
    var answer := Dispatch(s, call, env).1;
    var i, e :| 0 <= i < |ops| && LoggedAt(ops, i, e) && e.result == answer.result &&
                e.call.tool == call.tool && e.call.args == call.args &&
                EffectiveSubject(e.perUser, e.call.subject) ==
                EffectiveSubject(Policy(s, call.tool).value, call.subject);
    LoggedIsAnswered(ops, i, e);
    hide Dispatch, LoggedAt, CacheRun, Answered;
    assert Answered(ops, i, e.call, e.result);
  }

  /** The equal call by a subject gets what a call before it got, unless results are kept apart
      and the subjects differ; then it gets what it would have got without that call. */
  lemma SharedIffNotKeptApart(s: CacheState, first: Call, env1: Surroundings, second: Call, env2: Surroundings)
    requires Caches(s, first.tool) && second.tool == first.tool && second.args == first.args
    requires Cacheable(Dispatch(s, first, env1).1) && !env1.setFails && !env2.misses
    ensures var after := Dispatch(s, first, env1).0;
            && (second.subject == first.subject || !KeepsApart(s, first.tool) ==>
                  Hit(after, second, env2) && Dispatch(after, second, env2).1 == Dispatch(s, first, env1).1)
            && (second.subject != first.subject && KeepsApart(s, first.tool) ==>
                  (Hit(after, second, env2) <==> Hit(s, second, env2)) &&
                  Dispatch(after, second, env2).1 == Dispatch(s, second, env2).1)
  {
    var perUser := KeepsApart(s, first.tool);
    KeyUnambiguous(first.tool, first.args, perUser, first.subject, second.tool, second.args, perUser, second.subject);
    hide KeyOf;
  }

  /** A tool that names no configured cache is never answered from the store, nor stored. */
  lemma NotCachedNotStored(s: CacheState, call: Call, env: Surroundings)
    requires s.view.Some? && !Caches(s, call.tool)
    ensures Dispatch(s, call, env) == (s, Uncached(s.view.value, call, env.executed))
  {
  }

  /** Without a cached result the tool is executed for members of the group, and only for them;
      every other call is an error and changes nothing, as is every call before a reload. */
  lemma OnlyMembersRun(s: CacheState, call: Call, env: Surroundings)
    requires !Caches(s, call.tool) || env.misses
    ensures var r := Dispatch(s, call, env);
            if s.view.Some? && IsMember(s.view.value, call) then r.1 == env.executed
            else r.0 == s && r.1.Returned? && r.1.result.isError
  {
  }

  predicate IsMember(v: View, call: Call) {
    call.group in v.members && call.tool in v.members[call.group] && call.tool in v.index
  }

  // ---------- Across reloads ----------

  /** A store in memory is forgotten by the next reload; what a persistent backend holds is
      there again once a reload opens it, whatever reloads came between. */
  lemma BackendOutlivesReload(s: CacheState, view: View, caches: map<string, bool>, other: Option<string>,
                              backend: string,
                              call: Call, env: Surroundings)
    requires s.store.Some? && s.backend == Some(backend) && caches != map[]
    requires other != Some(backend)
    ensures CacheStep(s, Reload(view, caches, None)).store == Some(map[])
    ensures var between := CacheStep(s, Reload(view, caches, other));
            CacheStep(between, Reload(view, caches, Some(backend))).store == s.store
    ensures CacheStep(s, Reload(view, map[], Some(backend))).store == None
  {
  }

  /** An anonymous caller can get a subject's own result: stored while the cache did not keep
      results apart, on a backend that outlives the reload that makes it do so. */
  lemma AnonymousGetsOlder(subject: string)
    requires subject != ""
    ensures var e := Entry("t", "", "/t", "GET", None, None, "", "c", "");
            var view := View(map["t" := e], map["g" := {"t"}]);
            var result := CallResult(false, "ok");
            var bob := Call("g", "t", NilArgs, subject);
            var ops := [Reload(view, map["c" := false], Some("b")),
                        Serve(bob, Surroundings(Returned(result), false, false)),
                        Reload(view, map["c" := true], Some("b"))];
            var anonymous := Call("g", "t", NilArgs, "");
            var env := Surroundings(NoResult, false, false);
            && Caches(CacheRun(ops), "t") && KeepsApart(CacheRun(ops), "t")
            && Hit(CacheRun(ops), anonymous, env)
            && Dispatch(CacheRun(ops), anonymous, env).1 == Returned(result)
  {
    var e := Entry("t", "", "/t", "GET", None, None, "", "c", "");
    var view := View(map["t" := e], map["g" := {"t"}]);
    var result := CallResult(false, "ok");
    var bob := Call("g", "t", NilArgs, subject);
    var env1 := Surroundings(Returned(result), false, false);
    var a, b, c :=
      Reload(view, map["c" := false], Some("b")), Serve(bob, env1), Reload(view, map["c" := true], Some("b"));
    var ops := [a, b, c];
    assert ops[..2] == [a, b] && [a, b][..1] == [a] && [a][..0] == [];
    assert "c" in map["c" := false] && "c" in map["c" := true];
    var s1 := CacheStep(EmptyCache, a);
    assert s1 == CacheState(Some(view), map["c" := false], Some(map[]), Some("b"), map[], []);
    assert CacheRun([a]) == s1;
    var s2 := Dispatch(s1, bob, env1).0;
    var key := KeyOf("t", NilArgs, false, subject);
    assert CacheRun([a, b]) == s2;
    assert s2.store == Some(map[key := result]);
    var s3 := CacheStep(s2, c);
    assert CacheRun(ops) == s3;
    assert s3.store == s2.store && s3.caches == map["c" := true] && s3.view == Some(view);
    assert KeyOf("t", NilArgs, true, "") == key;
  }
}
