/** Exactly when a reload leaves the MCP servers in step with the registry it publishes
    (pkg/mcp/manager.go): what becomes of endpoints that leave the configuration, of groups
    that change their name, and of a tool called `search_tools`. */
module ReloadSync {
  import opened Json
  import opened Registry
  import opened ServerSync

  // ---------- One server ----------

  /** Whatever a server held, a reload's diff leaves it with exactly the tools it should
      have if and only if every tool it held belongs to the old or to the new group of that
      name, or is the search tool of an endpoint where search was or is on. */
  lemma DiffExact(tools: map<string, Registration>, previous: Option<View>, view: View, g: Group,
                  search: map<string, nat>,
                        oldSearch: map<string, nat>)
    requires ViewOk(view)
    ensures ApplyTools(tools, previous, view, g, Some(search), oldSearch) == Expected(view, g, search).tools <==>
            forall n :: n in tools ==>
              n in MembersIn(previous, g.name) || n in MembersIn(Some(view), g.name) ||
              (n == SEARCH_TOOL && (g.endpoint in search || g.endpoint in oldSearch))
  {
    var added := Registrations(view, g.name);
    var gone := MembersIn(previous, g.name) - MembersIn(Some(view), g.name);
    var after, want := ApplyTools(tools, previous, view, g, Some(search), oldSearch), Expected(view, g, search).tools;
    var searchKeys := if g.endpoint in search then {SEARCH_TOOL} else {};
    var dropped := if g.endpoint in search || g.endpoint !in oldSearch then {} else {SEARCH_TOOL};
    WantedKeys(view, g, search);
    DiffKeys(tools, previous, view, g, search, oldSearch);
    KeysDecide(after, want, added, g, search);
    hide *;
    if after.Keys == want.Keys {
      forall n | n in tools && n !in MembersIn(previous, g.name) && n !in MembersIn(Some(view), g.name)
        ensures n == SEARCH_TOOL && (g.endpoint in search || g.endpoint in oldSearch)
      {
        assert n !in gone && n !in added.Keys;
        if n !in dropped {
          assert n in after.Keys;
          assert n in searchKeys;
        }
      }
    } else {
      var n :| (n in after.Keys && n !in want.Keys) || (n in want.Keys && n !in after.Keys);
      assert n !in added.Keys && n in tools.Keys && n !in gone && n !in dropped;
    }
  }

  lemma WantedKeys(view: View, g: Group, search: map<string, nat>)
    requires ViewOk(view)
    ensures var want, added := Expected(view, g, search).tools, Registrations(view, g.name);
            && added.Keys == MembersIn(Some(view), g.name) && SEARCH_TOOL !in added
            && want == added +
               (if g.endpoint in search then map[SEARCH_TOOL := Searches(g.endpoint, search[g.endpoint])] else map[])
            && want.Keys == added.Keys + (if g.endpoint in search then {SEARCH_TOOL} else {})
  {
  }

  lemma DiffKeys(tools: map<string, Registration>, previous: Option<View>, view: View, g: Group,
                 search: map<string, nat>,
                        oldSearch: map<string, nat>)
    requires SEARCH_TOOL !in Registrations(view, g.name)
    ensures var after := ApplyTools(tools, previous, view, g, Some(search), oldSearch);
            var added := Registrations(view, g.name);
            var gone := MembersIn(previous, g.name) - MembersIn(Some(view), g.name);
            var searchKeys := if g.endpoint in search then {SEARCH_TOOL} else {};
            var dropped := if g.endpoint in search || g.endpoint !in oldSearch then {} else {SEARCH_TOOL};
            && after.Keys == ((tools.Keys - gone) + added.Keys - dropped) + searchKeys
            && (forall n :: n in added && n in after ==> after[n] == added[n])
            && (g.endpoint in search ==>
                SEARCH_TOOL in after && after[SEARCH_TOOL] == Searches(g.endpoint, search[g.endpoint]))
  {
    var added := Registrations(view, g.name);
    var gone := MembersIn(previous, g.name) - MembersIn(Some(view), g.name);
    var mixed := (tools - gone) + added;
    var after := ApplyTools(tools, previous, view, g, Some(search), oldSearch);
    assert after == if g.endpoint in search then mixed[SEARCH_TOOL := Searches(g.endpoint, search[g.endpoint])]
                    else if g.endpoint in oldSearch then mixed - {SEARCH_TOOL} else mixed;
    hide *;
    DiffedKeys(tools, gone, added);
    SetOrDropped(mixed, added, SEARCH_TOOL,
                 if g.endpoint in search then Searches(g.endpoint, search[g.endpoint]) else Searches("", 0));
  }

  lemma SetOrDropped<V>(mixed: map<string, V>, added: map<string, V>, name: string, v: V)
    requires name !in added && forall n :: n in added ==> n in mixed && mixed[n] == added[n]
    ensures mixed[name := v].Keys == mixed.Keys + {name}
    ensures forall n :: n in added ==> mixed[name := v][n] == added[n]
    ensures (mixed - {name}).Keys == mixed.Keys - {name} && forall n :: n in added ==> (mixed - {name})[n] == added[n]
  {
  }

  lemma DiffedKeys<V>(tools: map<string, V>, gone: set<string>, added: map<string, V>)
    ensures ((tools - gone) + added).Keys == (tools.Keys - gone) + added.Keys
    ensures forall n :: n in added ==> ((tools - gone) + added)[n] == added[n]
  {
  }

  lemma KeysDecide(after: map<string, Registration>, want: map<string, Registration>, added: map<string, Registration>,
                   g: Group, search: map<string, nat>)
    requires forall n :: n in added && n in after ==> after[n] == added[n]
    requires SEARCH_TOOL !in added
    requires want == added +
             (if g.endpoint in search then map[SEARCH_TOOL := Searches(g.endpoint, search[g.endpoint])] else map[])
    requires g.endpoint in search ==>
               SEARCH_TOOL in after && after[SEARCH_TOOL] == Searches(g.endpoint, search[g.endpoint])
    ensures after == want <==> after.Keys == want.Keys
  {
  }

  /** The same of its pages: every page it held belongs to the old or to the new group. */
  lemma PagesExact(resources: map<string, Resource>, previous: Option<View>, view: View, group: string)
    ensures ApplyResources(resources, previous, view, group) == GroupResources(view, group) <==>
            resources.Keys <= UiUris(previous, group) + UiUris(Some(view), group)
  {
    var was, now := UiUris(previous, group), UiUris(Some(view), group);
    var added := GroupResources(view, group);
    assert added.Keys == now;
    hide UiUris, GroupResources;
    DiffedKeys(resources, was - now, added);
    var after := ApplyResources(resources, previous, view, group);
    assert after.Keys == (resources.Keys - (was - now)) + now;
    if after == added {
      forall u | u in resources ensures u in was + now {
        assert u !in was - now ==> u in after.Keys;
      }
    }
    if resources.Keys <= was + now {
      assert after.Keys == added.Keys;
    }
  }

  /** A group's own tool called `search_tools` disappears from its server when search is
      switched off, and is shadowed by the search tool while search is on. */
  lemma OwnSearchToolLost(tools: map<string, Registration>, previous: Option<View>, view: View, g: Group,
                          search: map<string, nat>,
                        oldSearch: map<string, nat>)
    requires SEARCH_TOOL in Registrations(view, g.name)
    ensures var after := ApplyTools(tools, previous, view, g, Some(search), oldSearch);
            && (SEARCH_TOOL in after <==> g.endpoint in search || g.endpoint !in oldSearch)
            && (g.endpoint in search ==> after[SEARCH_TOOL].Searches?)
  {
  }

  // ---------- A whole reload ----------

  /** Every tool and every page of the old group `was` belongs to the old or to the new
      group `now`. */
  ghost predicate HandsOver(previous: View, was: string, view: View, now: string) {
    && MembersIn(Some(previous), was) <= MembersIn(Some(previous), now) + MembersIn(Some(view), now)
    && UiUris(Some(previous), was) <= UiUris(Some(previous), now) + UiUris(Some(view), now)
  }

  /** No endpoint leaves the configuration, and every endpoint's old group hands over to the
      new one. */
  ghost predicate AllHandOver(s: State, config: Config) {
    var groups := EffectiveGroups(config);
    && Endpoints(s.groups) <= Endpoints(groups)
    && forall h, g :: h in s.groups && g in groups && h.endpoint == g.endpoint && s.published.Some? ==>
         HandsOver(s.published.value, h.name, ListView(config.Built(), groups), g.name)
  }

  /** A group that keeps its name hands over, whatever becomes of its tools. */
  lemma KeptNamesHandOver(s: State, config: Config)
    requires Pairs(s.groups) <= Pairs(EffectiveGroups(config)) && DistinctEndpoints(EffectiveGroups(config))
    ensures AllHandOver(s, config)
  {
    var groups := EffectiveGroups(config);
    forall h | h in s.groups
      ensures h.endpoint in Endpoints(groups)
      ensures forall g :: g in groups && h.endpoint == g.endpoint ==> g.name == h.name
    {
      assert (h.name, h.endpoint) in Pairs(groups);
    }
  }

  /** The diff turns the server into what it should be. */
  ghost predicate Reaches(srv: Server, previous: Option<View>, view: View, g: Group, search: map<string, nat>,
                        oldSearch: map<string, nat>) {
    ApplyServer(srv, previous, view, g, Some(search), oldSearch) == Expected(view, g, search)
  }

  lemma ServerInStepIff(previous: View, h: Group, view: View, g: Group, search: map<string, nat>,
                        oldSearch: map<string, nat>)
    requires ViewOk(previous) && ViewOk(view) && h.endpoint == g.endpoint
    ensures Reaches(Expected(previous, h, oldSearch), Some(previous), view, g, search, oldSearch) <==>
            HandsOver(previous, h.name, view, g.name)
  {
    var srv := Expected(previous, h, oldSearch);
    DiffExact(srv.tools, Some(previous), view, g, search, oldSearch);
    PagesExact(srv.resources, Some(previous), view, g.name);
    WantedKeys(previous, h, oldSearch);
    assert srv.resources.Keys == UiUris(Some(previous), h.name);
    hide ApplyTools, ApplyResources, GroupResources, UiUris, Registrations;
  }

  lemma NewServerInStep(previous: Option<View>, view: View, g: Group, search: map<string, nat>,
                        oldSearch: map<string, nat>)
    requires ViewOk(view)
    ensures Reaches(Server(map[], map[]), previous, view, g, search, oldSearch)
  {
    DiffExact(map[], previous, view, g, search, oldSearch);
    PagesExact(map[], previous, view, g.name);
    hide ApplyTools, ApplyResources, Registrations, GroupResources, UiUris;
  }

  lemma ReloadedServers(s: State, view: View, groups: seq<Group>, search: map<string, nat>)
    requires DistinctEndpoints(groups)
    ensures var servers := ApplyServers(s.servers, s.published, view, groups, |groups|, Some(search), s.searchTools);
            && servers.Keys == s.servers.Keys + Endpoints(groups)
            && forall g :: g in groups ==>
                 g.endpoint in servers &&
                 (servers[g.endpoint] == Expected(view, g, search) <==>
                  Reaches(ServerAt(s.servers, g.endpoint), s.published, view, g, search, s.searchTools))
  {
    EachGroupApplied(s.servers, s.published, view, groups, |groups|, Some(search), s.searchTools);
    assert groups[..|groups|] == groups;
    var servers := ApplyServers(s.servers, s.published, view, groups, |groups|, Some(search), s.searchTools);
    hide ApplyServers, ApplyServer, Expected, DistinctEndpoints;
    forall g | g in groups
      ensures g.endpoint in servers
      ensures servers[g.endpoint] ==
              ApplyServer(ServerAt(s.servers, g.endpoint), s.published, view, g, Some(search), s.searchTools)
    {
      var i :| 0 <= i < |groups| && groups[i] == g;
      assert ServerAt(servers, groups[i].endpoint) ==
             DoneServers(s.servers, s.published, view, groups, Some(search), s.searchTools)[i];
    }
  }

  lemma InStepKeys(s: State)
    requires Sound(s) && InStep(s)
    ensures s.servers.Keys == Endpoints(s.groups)
  {
  }

  lemma InStepIs(s: State, view: View, groups: seq<Group>, search: map<string, nat>)
    requires s.published == Some(view) && s.groups == groups && s.searchTools == search
    ensures InStep(s) <==> s.servers.Keys == Endpoints(groups) &&
                           forall g :: g in groups ==> s.servers[g.endpoint] == Expected(view, g, search)
  {
    hide Expected, Endpoints;
  }

  lemma InStepWhenHandedOver(s: State, after: State, view: View, groups: seq<Group>, search: map<string, nat>)
    requires Sound(s) && InStep(s) && ViewOk(view) && DistinctEndpoints(groups)
    requires after.servers == ApplyServers(s.servers, s.published, view, groups, |groups|, Some(search), s.searchTools)
    requires after.published == Some(view) && after.groups == groups && after.searchTools == search
    ensures InStep(after) <==>
            Endpoints(s.groups) <= Endpoints(groups) && forall g :: g in groups ==> EndpointHandsOver(s, view, g)
  {
    hide *;
    ReloadedServers(s, view, groups, search);
    InStepKeys(s);
    InStepIs(after, view, groups, search);
    forall g | g in groups
      ensures after.servers[g.endpoint] == Expected(view, g, search) <==> EndpointHandsOver(s, view, g)
    {
      ServerAfter(s, view, g, search);
    }
    assert after.servers.Keys == Endpoints(groups) <==> Endpoints(s.groups) <= Endpoints(groups);
  }

  /** From servers in step, an accepted reload leaves the servers in step if and only if no
      endpoint leaves the configuration and every group that takes over an endpoint under
      another name has, before or after, the tools and pages of the one it replaces. */
  lemma ReloadInStepIff(s: State, config: Config)
    requires Sound(s) && InStep(s) && Accepts(config) && Plain(Rebuild(config))
    ensures InStep(AfterRebuild(s, config)) <==> AllHandOver(s, config)
  {
    hide Accepts, InStep, Sound, ApplyServers, ListView, SearchState, EffectiveGroups, AllHandOver, EndpointHandsOver,
         StateOf;
    var groups := EffectiveGroups(config);
    var view := ListView(config.Built(), groups);
    ListViewOk(config.Built(), groups);
    InStepWhenHandedOver(s, AfterRebuild(s, config), view, groups, SearchState(config.search, groups));
    AllHandOverAt(s, config);
  }

  lemma AllHandOverAt(s: State, config: Config)
    ensures var groups := EffectiveGroups(config);
            AllHandOver(s, config) <==>
              && Endpoints(s.groups) <= Endpoints(groups)
              && forall g :: g in groups ==> EndpointHandsOver(s, ListView(config.Built(), groups), g)
  {
    hide HandsOver, EffectiveGroups, ListView, Endpoints;
  }

  /** What the group that takes over an endpoint needs of the ones that had it. */
  ghost predicate EndpointHandsOver(s: State, view: View, g: Group) {
    forall h :: h in s.groups && h.endpoint == g.endpoint && s.published.Some? ==>
      HandsOver(s.published.value, h.name, view, g.name)
  }

  lemma ServerAfter(s: State, view: View, g: Group, search: map<string, nat>)
    requires Sound(s) && InStep(s) && ViewOk(view)
    ensures Reaches(ServerAt(s.servers, g.endpoint), s.published, view, g, search, s.searchTools) <==>
            EndpointHandsOver(s, view, g)
  {
    hide Expected, Reaches, HandsOver, ViewOk;
    var srv := ServerAt(s.servers, g.endpoint);
    if h :| h in s.groups && h.endpoint == g.endpoint {
      assert s.published.Some?;
      forall other | other in s.groups && other.endpoint == g.endpoint
        ensures Reaches(srv, s.published, view, g, search, s.searchTools) <==>
                HandsOver(s.published.value, other.name, view, g.name)
      {
        ServerInStepIff(s.published.value, other, view, g, search, s.searchTools);
      }
    } else {
      NewServerInStep(s.published, view, g, search, s.searchTools);
    }
  }

  /** Every accepted reload of the run hands over. */
  ghost predicate RunHandsOver(ops: seq<Op>) {
    forall i :: 0 <= i < |ops| && ops[i].Rebuild? && Accepts(ops[i].config) ==>
      AllHandOver(Run(Init, ops[..i]), ops[i].config)
  }

  ghost predicate AlwaysInStep(ops: seq<Op>) {
    forall k :: 0 <= k <= |ops| ==> InStep(Run(Init, ops[..k]))
  }

  lemma LastStep(before: State, op: Op)
    requires Sound(before) && Plain(op)
    ensures Sound(Step(before, op))
    ensures InStep(before) ==>
              (InStep(Step(before, op)) <==> (op.Rebuild? && Accepts(op.config) ==> AllHandOver(before, op.config)))
  {
    hide AllHandOver, InStep;
    match op {
      case Rebuild(config) =>
        ReloadKeepsSound(before, config);
        if InStep(before) && Accepts(config) {
          ReloadInStepIff(before, config);
        }
      case _ => IncrementalKeepsStep(before, op);
    }
  }

  lemma OneStateMore(ops: seq<Op>)
    requires ops != []
    ensures var n := |ops| - 1;
            && (AlwaysInStep(ops) <==> AlwaysInStep(ops[..n]) && InStep(Run(Init, ops)))
            && (AlwaysInStep(ops[..n]) ==> InStep(Run(Init, ops[..n])))
  {
    var n := |ops| - 1;
    hide InStep, Run;
    forall i | 0 <= i <= n ensures ops[..n][..i] == ops[..i] {
    }
    assert ops[..n + 1] == ops;
  }

  lemma OneReloadMore(ops: seq<Op>)
    requires ops != []
    ensures var n := |ops| - 1;
            RunHandsOver(ops) <==>
              RunHandsOver(ops[..n]) &&
              (ops[n].Rebuild? && Accepts(ops[n].config) ==> AllHandOver(Run(Init, ops[..n]), ops[n].config))
  {
    var n := |ops| - 1;
    hide AllHandOver, Accepts, Run;
    forall i | 0 <= i < n ensures ops[..n][..i] == ops[..i] && ops[..n][i] == ops[i] {
    }
  }

  /** The servers of a run, of whatever reloads, updates and removals, are always in step if
      and only if each accepted reload hands over. */
  lemma {:induction false} AlwaysInStepIff(ops: seq<Op>)
    requires forall op :: op in ops ==> Plain(op)
    ensures Sound(Run(Init, ops))
    ensures AlwaysInStep(ops) <==> RunHandsOver(ops)
  {
    assert ops[..0] == [];
    if ops != [] {
      var n := |ops| - 1;
      OneStateMore(ops);
      OneReloadMore(ops);
      AlwaysInStepIff(ops[..n]);
      LastStep(Run(Init, ops[..n]), ops[n]);
      hide InStep, AllHandOver, AlwaysInStep, RunHandsOver, Sound, Accepts, Plain, Step;
      assert Run(Init, ops) == Step(Run(Init, ops[..n]), ops[n]);
    }
  }

  // ---------- A run that renames a group ----------

  function OneTool(e: Entry, group: string, endpoint: string): Config {
    Config([UpstreamConfig(true, "u", "", "", "", Some(Source([e], None)))],
           [Group(group, endpoint, ["u"], NoFilter)], SearchOff, {}, {}, map[], true, true)
  }

  function NoTools(group: string, endpoint: string): Config {
    Config([], [Group(group, endpoint, [], NoFilter)], SearchOff, {}, {}, map[], true, true)
  }

  lemma OneToolAccepted(e: Entry, group: string, endpoint: string)
    requires e.name != SEARCH_TOOL && e.rateLimit == "" && e.cacheName == ""
    ensures var c := OneTool(e, group, endpoint);
            && EffectiveGroups(c) == c.groups && Accepts(c)
            && ViewOk(ListView(c.Built(), c.groups))
            && ListView(c.Built(), c.groups).members == map[group := {e.name}]
  {
    var c := OneTool(e, group, endpoint);
    assert c.upstreams[..0] == [] && BuiltUpstreams([]) == [];
    assert BuiltUpstreams(c.upstreams) == BuiltUpstreams(c.upstreams[..0]) + [Upstream("u", "", [e], None)];
    assert Flat([Upstream("u", "", [e], None)]) == [e];
    ListViewOk(c.Built(), c.groups);
    hide StateOf;
    assert EffectiveGroups(c) == c.groups;
    var m := MembersOfList(c.Built(), ["u"], FilterOf(c.groups, group));
    assert FilterOf(c.groups[..0], group) == None && FilterOf(c.groups, group) == None;
    var u := c.Built()[0];
    assert u in c.Built() && u.name in ["u"] && e in u.entries && Passes(None, e, u.root);
    assert m == {e.name};
    assert GroupsOfList(c.Built(), c.groups, 1) == map[][group := m];
  }

  lemma NoToolsAccepted(group: string, endpoint: string)
    ensures var c := NoTools(group, endpoint);
            && EffectiveGroups(c) == c.groups && Accepts(c)
            && ListView(c.Built(), c.groups).members == map[group := {}]
  {
    var c := NoTools(group, endpoint);
    assert c.Built() == [] && EffectiveGroups(c) == c.groups;
    assert MembersOfList([], [], FilterOf(c.groups, group)) == {};
    assert GroupsOfList([], c.groups, 0) == map[];
    assert GroupsOfList([], c.groups, 1) == GroupsOfList([], c.groups, 0)[group := {}];
  }

  lemma OneGroupReload(s: State, config: Config, g: Group)
    requires Accepts(config) && EffectiveGroups(config) == [g] && config.search == SearchOff
    ensures var after, view := AfterRebuild(s, config), ListView(config.Built(), [g]);
            && after.published == Some(view) && after.groups == [g] && after.searchTools == map[]
            && g.endpoint in after.servers
            && after.servers[g.endpoint].tools ==
               ApplyTools(ServerAt(s.servers, g.endpoint).tools, s.published, view, g, Some(map[]), s.searchTools)
  {
    hide ListView, Accepts, ApplyResources, ApplyTools, StateOf;
    var view := ListView(config.Built(), [g]);
    assert ApplyServers(s.servers, s.published, view, [g], 0, Some(map[]), s.searchTools) == s.servers;
  }

  lemma OneToolAdded(view: View, g: Group, name: string)
    requires ViewOk(view) && view.members == map[g.name := {name}]
    ensures name in ApplyTools(map[], None, view, g, Some(map[]), map[])
  {
  }

  lemma StaleToolStays(tools: map<string, Registration>, previous: View, view: View, g: Group, name: string)
    requires name in tools && g.name !in previous.members && view.members == map[g.name := {}]
    ensures name in ApplyTools(tools, Some(previous), view, g, Some(map[]), map[])
    ensures Expected(view, g, map[]).tools == map[]
  {
  }

  /** A group of one tool that is given another name, without the tool, keeps the tool on its
      server: the diff looks the old tools up under the new name and finds none. */
  lemma RenamedGroupKeepsStaleTool(e: Entry, was: string, now: string, endpoint: string)
    requires e.name != SEARCH_TOOL && e.rateLimit == "" && e.cacheName == "" && was != now
    ensures var run := Run(Init, [Rebuild(OneTool(e, was, endpoint)), Rebuild(NoTools(now, endpoint))]);
            && run.published.Some? && run.published.value.members == map[now := {}]
            && endpoint in run.servers && e.name in run.servers[endpoint].tools
            && !InStep(run)
  {
    hide AfterRebuild, ApplyTools, ListView, Accepts, ViewOk, EffectiveGroups, Expected, Run;
    var c1, c2 := OneTool(e, was, endpoint), NoTools(now, endpoint);
    var h, g := c1.groups[0], c2.groups[0];
    OneToolAccepted(e, was, endpoint);
    NoToolsAccepted(now, endpoint);
    var v1, v2 := ListView(c1.Built(), [h]), ListView(c2.Built(), [g]);
    var first := AfterRebuild(Init, c1);
    OneGroupReload(Init, c1, h);
    OneGroupReload(first, c2, g);
    OneToolAdded(v1, h, e.name);
    StaleToolStays(first.servers[endpoint].tools, v1, v2, g, e.name);
    TwoSteps(Rebuild(c1), Rebuild(c2));
  }

  lemma TwoSteps(a: Op, b: Op)
    ensures Run(Init, [a, b]) == Step(Step(Init, a), b)
  {
    hide Step;
    assert [a, b][..1] == [a] && [a][..0] == [];
    assert Run(Init, [a][..0]) == Init;
    assert Run(Init, [a]) == Step(Init, a);
    assert Run(Init, [a, b]) == Step(Run(Init, [a, b][..1]), b);
  }
}
