/** Tool calls served through the result cache (pkg/mcp/manager.go), against calls that go
    straight to the registry (pkg/upstream/registry.go). */
module CachedDispatch {
  import opened Json
  import opened Registry
  import opened CacheKey
  import opened ServerSync

  datatype CallResult = CallResult(isError: bool, text: string)

  /** What a dispatch hands back: a result, neither result nor error, or an error. */
  datatype Outcome = Returned(result: CallResult) | NoResult | Failed(message: string)

  datatype Call = Call(group: string, tool: string, args: Args, subject: string)

  /** What the surroundings do during one call: the outcome of the tool's executor if it is
      run, whether the store misses an entry it once held, and whether storing fails. */
  datatype Surroundings = Surroundings(executed: Outcome, misses: bool, setFails: bool)

  /** One earlier uncached dispatch that returned a result. */
  datatype Event = Event(call: Call, perUser: bool, result: CallResult)

  type Entries = map<Key, CallResult>

  /** `store` is what the store in use holds, and `backend` the persistent backend it writes
      to, if it is not kept in memory. `kept` is what each persistent backend held when it
      was last put out of use. */
  datatype CacheState = CacheState(
    view: Option<View>,
    caches: map<string, bool>,
    store: Option<Entries>,
    backend: Option<string>,
    kept: map<string, Entries>,
    log: seq<Event>)

  function ErrorResult(message: string): Outcome {
    Returned(CallResult(true, message))
  }

  predicate InGroup(view: View, group: string, tool: string) {
    group in view.members && tool in view.members[group]
  }

  /** The registry's own dispatch, which checks the group first. */
  function Uncached(view: View, call: Call, executed: Outcome): Outcome {
    if call.group !in view.members then ErrorResult("unknown group: " + call.group)
    else if call.tool !in view.members[call.group] then ErrorResult("tool not available in this group: " + call.tool)
    else if call.tool !in view.index then ErrorResult("unknown tool: " + call.tool)
    else executed
  }

  /** The cache policy of a tool: Some(per_user) if its results are cached. */
  function Policy(s: CacheState, tool: string): Option<bool> {
    if s.view.None? || s.store.None? || tool !in s.view.value.index then None
    else
      var name := s.view.value.index[tool].cacheName;
      if name == "" || name !in s.caches then None else Some(s.caches[name])
  }

  predicate Cacheable(o: Outcome) {
    o.Returned? && !o.result.isError
  }

  ghost function CallKey(call: Call, perUser: bool): Key {
    KeyOf(call.tool, call.args, perUser, call.subject)
  }

  ghost predicate Hit(s: CacheState, call: Call, env: Surroundings) {
    var policy := Policy(s, call.tool);
    policy.Some? && !env.misses && CallKey(call, policy.value) in s.store.value
  }

  ghost function Dispatch(s: CacheState, call: Call, env: Surroundings): (CacheState, Outcome) {
    if s.view.None? then (s, ErrorResult("no config loaded"))
    else
      var policy := Policy(s, call.tool);
      var plain := Uncached(s.view.value, call, env.executed);
      if policy.None? then (s, plain)
      else if Hit(s, call, env) then (s, Returned(s.store.value[CallKey(call, policy.value)]))
      else if !Cacheable(plain) then (s, plain)
      else
        var logged := s.(log := s.log + [Event(call, policy.value, plain.result)]);
        if env.setFails then (logged, plain)
        else (logged.(store := Some(s.store.value[CallKey(call, policy.value) := plain.result])), plain)
  }

  /** A call; a new registry; or a reload, which may bring new cache settings and opens a
      store in memory or on a persistent backend. */
  datatype CacheOp =
    | Serve(call: Call, env: Surroundings)
    | Publish(view: View)
    | Reload(view: View, caches: map<string, bool>, backend: Option<string>)

  /** What the persistent backends hold once the store in use is dropped. */
  function Held(store: Option<Entries>, backend: Option<string>, kept: map<string, Entries>): map<string, Entries> {
    if store.Some? && backend.Some? then kept[backend.value := store.value] else kept
  }

  /** No caches, no store. A store in memory starts empty; one on a backend finds there what
      earlier stores put in. */
  function Opened(held: map<string, Entries>, caches: map<string, bool>, backend: Option<string>): Option<Entries> {
    if caches == map[] then None
    else if backend.Some? && backend.value in held then Some(held[backend.value])
    else Some(map[])
  }

  ghost function CacheStep(s: CacheState, op: CacheOp): CacheState {
    match op
    case Serve(call, env) => Dispatch(s, call, env).0
    case Publish(view) => s.(view := Some(view))
    case Reload(view, caches, backend) =>
      var held := Held(s.store, s.backend, s.kept);
      CacheState(Some(view), caches, Opened(held, caches, backend), backend, held, s.log)
  }

  const EmptyCache := CacheState(None, map[], None, None, map[], [])

  ghost function CacheRun(ops: seq<CacheOp>): CacheState {
    if ops == [] then EmptyCache else CacheStep(CacheRun(ops[..|ops| - 1]), ops[|ops| - 1])
  }

  // ---------- What the store holds ----------

  ghost predicate Explains(e: Event, key: Key, result: CallResult) {
    CallKey(e.call, e.perUser) == key && e.result == result
  }

  ghost predicate AllExplained(entries: Entries, log: seq<Event>) {
    forall k :: k in entries ==> !entries[k].isError && exists e :: e in log && Explains(e, k, entries[k])
  }

  ghost predicate StoreExplained(s: CacheState) {
    && (s.store.Some? ==> AllExplained(s.store.value, s.log))
    && forall b :: b in s.kept ==> AllExplained(s.kept[b], s.log)
  }

  lemma StepKeepsExplained(s: CacheState, op: CacheOp)
    requires StoreExplained(s)
    ensures StoreExplained(CacheStep(s, op))
  {
    if op.Serve? {
      ServeStores(s, op.call, op.env);
      var after := Dispatch(s, op.call, op.env).0;
      hide Dispatch, Explains;
      forall b | b in after.kept ensures AllExplained(after.kept[b], after.log) {
        LongerLogExplains(s.kept[b], s.log, after.log);
      }
      if after.store.Some? {
        LongerLogExplains(s.store.value, s.log, after.log);
      }
    }
  }

  lemma LongerLogExplains(entries: Entries, log: seq<Event>, longer: seq<Event>)
    requires AllExplained(entries, log) && log <= longer
    ensures AllExplained(entries, longer)
  {
    forall k | k in entries ensures exists e :: e in longer && Explains(e, k, entries[k]) {
      var e :| e in log && Explains(e, k, entries[k]);
      assert e in longer;
    }
  }

  /** A call changes at most the entry under its own key, to a result it has just logged. */
  lemma ServeStores(s: CacheState, call: Call, env: Surroundings)
    ensures var after := Dispatch(s, call, env).0;
            && (after.store.Some? <==> s.store.Some?)
            && after.kept == s.kept && s.log <= after.log
            && (after.store.Some? ==>
                  forall k ::
                    k in after.store.value && !(k in s.store.value && after.store.value[k] == s.store.value[k]) ==>
                    !after.store.value[k].isError && after.log != [] && after.log[|after.log| - 1] in after.log &&
                    Explains(after.log[|after.log| - 1], k, after.store.value[k]))
  {
    hide KeyOf;
  }

  /** In every run, over reloads too, the store and every persistent backend hold only
      results that are no errors and that an uncached dispatch returned earlier under the
      same key. */
  lemma {:induction false} StoreAlwaysExplained(ops: seq<CacheOp>)
    ensures StoreExplained(CacheRun(ops))
  {
    if ops != [] {
      StoreAlwaysExplained(ops[..|ops| - 1]);
      StepKeepsExplained(CacheRun(ops[..|ops| - 1]), ops[|ops| - 1]);
    }
  }

  /** Every event in the log is the outcome of the registry's own dispatch of that call, at
      the moment the run had reached then. */
  lemma {:induction false} EventsAreDispatches(ops: seq<CacheOp>, e: Event)
    requires e in CacheRun(ops).log
    ensures exists i :: 0 <= i < |ops| && LoggedAt(ops, i, e)
  {
    var n := |ops| - 1;
    var before := CacheRun(ops[..n]);
    if e in before.log {
      EventsAreDispatches(ops[..n], e);
      var i :| 0 <= i < n && LoggedAt(ops[..n], i, e);
      assert ops[..n][..i] == ops[..i];
      assert LoggedAt(ops, i, e);
    } else {
      assert LoggedAt(ops, n, e);
    }
  }

  ghost predicate LoggedAt(ops: seq<CacheOp>, i: nat, e: Event)
    requires i < |ops|
  {
    var s := CacheRun(ops[..i]);
    && ops[i].Serve? && ops[i].call == e.call && s.view.Some?
    && Uncached(s.view.value, e.call, ops[i].env.executed) == Returned(e.result)
    && Policy(s, e.call.tool) == Some(e.perUser)
    && InGroup(s.view.value, e.call.group, e.call.tool)
  }

  /** Every hit, in every run, is a successful result that the registry's own dispatch gave
      earlier for the same tool with equal arguments and the same subject, if subjects
      count, provided the tool's name does not nest with that of a tool called before. */
  lemma HitsRepeatEarlierResults(ops: seq<CacheOp>, call: Call, env: Surroundings)
    requires Hit(CacheRun(ops), call, env)
    requires NestsWithNone(ops, call.tool)
    ensures var s := CacheRun(ops);
            var r := Dispatch(s, call, env).1;
            && Cacheable(r)
            && exists i, e :: 0 <= i < |ops| && LoggedAt(ops, i, e) && e.result == r.result &&
                 e.call.tool == call.tool && e.call.args == call.args &&
                 EffectiveSubject(e.perUser, e.call.subject) ==
                 EffectiveSubject(Policy(s, call.tool).value, call.subject)
  {
    var s := CacheRun(ops);
    var perUser := Policy(s, call.tool).value;
    var key := CallKey(call, perUser);
    StoreAlwaysExplained(ops);
    var e :| e in s.log && Explains(e, key, s.store.value[key]);
    EventsAreDispatches(ops, e);
    var i :| 0 <= i < |ops| && LoggedAt(ops, i, e);
    KeyUnambiguous(e.call.tool, e.call.args, e.perUser, e.call.subject, call.tool, call.args, perUser, call.subject);
  }

  predicate NestsWithNone(ops: seq<CacheOp>, tool: string) {
    forall i :: 0 <= i < |ops| && ops[i].Serve? ==> !Nested(ops[i].call.tool, tool)
  }

  /** Without a hit the answer is the registry's own. */
  lemma MissesAreTransparent(s: CacheState, call: Call, env: Surroundings)
    requires s.view.Some? && !Hit(s, call, env)
    ensures Dispatch(s, call, env).1 == Uncached(s.view.value, call, env.executed)
  {
  }

  /** Where the call's results are cached, its executor's outcome is the one `f` gives for
      the tool, the arguments and the subject the key carries. */
  ghost predicate GivenBy(f: (string, Args, string) -> Outcome, s: CacheState, call: Call, env: Surroundings) {
    var policy := Policy(s, call.tool);
    policy.Some? ==> env.executed == f(call.tool, call.args, EffectiveSubject(policy.value, call.subject))
  }

  ghost predicate AllGivenBy(f: (string, Args, string) -> Outcome, ops: seq<CacheOp>) {
    forall i :: 0 <= i < |ops| && ops[i].Serve? ==> GivenBy(f, CacheRun(ops[..i]), ops[i].call, ops[i].env)
  }

  /** In every run in which the outcome of a cached tool depends only on the tool, its
      arguments and, if its results are kept per user, the subject, the cache cannot be told
      from the registry exactly when it does not answer for a tool outside the call's
      group. */
  lemma CacheIsTransparentIff(ops: seq<CacheOp>, f: (string, Args, string) -> Outcome, call: Call, env: Surroundings)
    requires CacheRun(ops).view.Some? && NestsWithNone(ops, call.tool)
    requires AllGivenBy(f, ops) && GivenBy(f, CacheRun(ops), call, env)
    ensures var s := CacheRun(ops);
            Dispatch(s, call, env).1 == Uncached(s.view.value, call, env.executed) <==>
            (Hit(s, call, env) ==> InGroup(s.view.value, call.group, call.tool))
  {
    var s := CacheRun(ops);
    if Hit(s, call, env) {
      HitsRepeatEarlierResults(ops, call, env);
      var answer := Dispatch(s, call, env).1;
      assert call.tool in s.view.value.index;
      hide Dispatch, Hit, CacheRun;
      var i, e :| 0 <= i < |ops| && LoggedAt(ops, i, e) && e.result == answer.result &&
                  e.call.tool == call.tool && e.call.args == call.args &&
                  EffectiveSubject(e.perUser, e.call.subject) ==
                  EffectiveSubject(Policy(s, call.tool).value, call.subject);
      var then_ := CacheRun(ops[..i]);
      assert GivenBy(f, then_, ops[i].call, ops[i].env);
      assert ops[i].env.executed == env.executed;
      assert Returned(e.result) == env.executed;
    } else {
      MissesAreTransparent(s, call, env);
    }
  }

  /** A hit is what the registry would answer, were the executor to repeat the stored
      result, if and only if the tool is in the group of the call: the cache is looked up
      before the group is checked, and answers calls the registry refuses. */
  lemma HitHonoursGroupIff(ops: seq<CacheOp>, call: Call, env: Surroundings)
    requires Hit(CacheRun(ops), call, env)
    ensures var s := CacheRun(ops);
            var answer := Dispatch(s, call, env).1;
            Uncached(s.view.value, call, answer) == answer <==> InGroup(s.view.value, call.group, call.tool)
  {
    StoreAlwaysExplained(ops);
  }

  /** Such a run exists: a tool cached through one group is answered through another group
      that does not have it. */
  lemma HitOutsideGroup()
    ensures var e := Entry("t_x", "", "/x", "GET", None, None, "", "c", "");
            var view := View(map["t_x" := e], map["a" := {"t_x"}, "b" := {}]);
            var executed := Returned(CallResult(false, "ok"));
            var ops := [Reload(view, map["c" := false], None),
                        Serve(Call("a", "t_x", NilArgs, ""), Surroundings(executed, false, false))];
            var call := Call("b", "t_x", NilArgs, "");
            var env := Surroundings(NoResult, false, false);
            && !InGroup(view, "b", "t_x")
            && Hit(CacheRun(ops), call, env)
            && Dispatch(CacheRun(ops), call, env).1 == executed
  {
    var e := Entry("t_x", "", "/x", "GET", None, None, "", "c", "");
    var view := View(map["t_x" := e], map["a" := {"t_x"}, "b" := {}]);
    var executed := Returned(CallResult(false, "ok"));
    var reload := Reload(view, map["c" := false], None);
    var serve := Serve(Call("a", "t_x", NilArgs, ""), Surroundings(executed, false, false));
    assert [reload][..0] == [] && [reload, serve][..1] == [reload];
    var caches := map["c" := false];
    assert "c" in caches && caches != map[];
    assert CacheRun([reload]) == CacheStep(EmptyCache, reload);
    assert CacheRun([reload]) == CacheState(Some(view), map["c" := false], Some(map[]), None, map[], []);
  }
}
