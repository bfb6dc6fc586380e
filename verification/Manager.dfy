/** The manager object (pkg/mcp/manager.go): its methods, with their loops, carry out
    exactly the steps of the server and cache state machines. */
module Manager {
  import opened Json
  import opened Registry
  import opened CacheKey
  import opened ServerSync
  import opened CachedDispatch

  // ---------- Reading a registry ----------

  lemma {:induction false} FilterToolsKeeps(tools: seq<Tool>, names: set<string>, t: Tool)
    ensures t in FilterTools(tools, names) <==> t in tools && t.name in names
  {
    if tools != [] {
      FilterToolsKeeps(tools[..|tools| - 1], names, t);
      assert tools == tools[..|tools| - 1] + [tools[|tools| - 1]];
    }
  }

  function ToolNames(tools: seq<Tool>): set<string> {
    set t | t in tools :: t.name
  }

  /** The tool list of a group names exactly its members, each with its indexed entry. */
  lemma GroupListIsMembers(r: Registry, group: string)
    requires r.Valid()
    ensures ToolNames(r.ToolsForGroup(group)) == MembersIn(Some(r.AsView()), group)
    ensures MembersIn(Some(r.AsView()), group) <= r.byName.Keys
    ensures forall t :: t in r.ToolsForGroup(group) ==> t.name in r.byName && r.byName[t.name].AsTool() == t
  {
    if group in r.groups {
      var gd := r.groups[group];
      forall t ensures t in gd.toolList <==> t in r.toolList && t.name in gd.toolSet {
        FilterToolsKeeps(r.toolList, gd.toolSet, t);
      }
      forall n | n in gd.toolSet ensures n in ToolNames(gd.toolList) {
        assert r.byName[n].AsTool() in r.toolList;
        assert r.byName[n].AsTool() in gd.toolList;
      }
    }
  }

  method NamesOfGroup(r: Option<Registry>, group: string) returns (names: set<string>)
    requires r.Some? ==> r.value.Valid()
    ensures names == MembersIn(if r.Some? then Some(r.value.AsView()) else None, group)
  {
    names := {};
    if r.Some? {
      var tools := r.value.ToolsForGroup(group);
      for i := 0 to |tools|
        invariant names == ToolNames(tools[..i])
      {
        names := names + {tools[i].name};
        assert tools[..i + 1] == tools[..i] + [tools[i]];
      }
      assert tools[..|tools|] == tools;
      GroupListIsMembers(r.value, group);
    }
  }

  // ---------- Changing one server ----------

  /** The entries of a map at some of its keys. */
  function Restrict<V>(m: map<string, V>, names: set<string>): map<string, V> {
    map n | n in names && n in m :: m[n]
  }

  lemma RestrictStep<V>(base: map<string, V>, m: map<string, V>, names: set<string>, n: string)
    requires n in m
    ensures base + Restrict(m, names + {n}) == (base + Restrict(m, names))[n := m[n]]
    ensures Restrict(m, names + {n}) == Restrict(m, names)[n := m[n]]
  {
  }

  lemma ToolNamesStep(tools: seq<Tool>, i: nat)
    requires i < |tools|
    ensures ToolNames(tools[..i + 1]) == ToolNames(tools[..i]) + {tools[i].name}
  {
    assert tools[..i + 1] == tools[..i] + [tools[i]];
  }

  /** Removes the tools that went away, then registers the current ones. */
  method DiffTools(tools: map<string, Registration>, previous: Option<Registry>, next: Registry, group: string)
    returns (result: map<string, Registration>)
    requires next.Valid() && (previous.Some? ==> previous.value.Valid())
    ensures var was := if previous.Some? then Some(previous.value.AsView()) else None;
            result == (tools - (MembersIn(was, group) - MembersIn(Some(next.AsView()), group))) +
                      Registrations(next.AsView(), group)
  {
    var newToolSet := NamesOfGroup(Some(next), group);
    var oldToolSet := NamesOfGroup(previous, group);
    var removed := set n | n in oldToolSet && n !in newToolSet;
    assert removed == oldToolSet - newToolSet;
    result := AddTools(tools - removed, next, group);
  }

  lemma GroupToolsReady(next: Registry, group: string)
    requires next.Valid()
    ensures var tools, all := next.ToolsForGroup(group), Registrations(next.AsView(), group);
            && ToolNames(tools[..0]) == {} && Restrict(all, ToolNames(tools[..0])) == map[]
            && Restrict(all, ToolNames(tools)) == all
            && forall t :: t in tools ==>
                 && t.name in next.byName && t.name in all
                 && all[t.name] == Dispatches(t, group, next.byName[t.name].rateLimit)
  {
    GroupListIsMembers(next, group);
    var tools := next.ToolsForGroup(group);
    assert forall t :: t in tools ==> t.name in ToolNames(tools);
  }

  method AddTools(base: map<string, Registration>, next: Registry, group: string)
    returns (result: map<string, Registration>)
    requires next.Valid()
    ensures result == base + Registrations(next.AsView(), group)
  {
    var newTools := next.ToolsForGroup(group);
    ghost var all := Registrations(next.AsView(), group);
    GroupToolsReady(next, group);
    hide *;
    result := base;
    for i := 0 to |newTools|
      invariant result == base + Restrict(all, ToolNames(newTools[..i]))
    {
      var t := newTools[i];
      assert t in newTools;
      var rateLimit := if t.name in next.byName then next.byName[t.name].rateLimit else "";
      result := result[t.name := Dispatches(t, group, rateLimit)];
      RestrictStep(base, all, ToolNames(newTools[..i]), t.name);
      ToolNamesStep(newTools, i);
    }
    assert newTools[..|newTools|] == newTools;
  }

  method UrisOfGroup(r: Option<Registry>, group: string) returns (uris: set<string>)
    requires r.Some? ==> r.value.Valid()
    ensures uris == UiUris(if r.Some? then Some(r.value.AsView()) else None, group)
  {
    uris := {};
    if r.Some? {
      var tools := r.value.ToolsForGroup(group);
      GroupListIsMembers(r.value, group);
      ghost var view := r.value.AsView();
      for i := 0 to |tools|
        invariant uris == set n | n in ToolNames(tools[..i]) && HasUi(view, n) :: Uri(n)
      {
        var name := tools[i].name;
        if name in r.value.byName && r.value.byName[name].ui.Some? {
          uris := uris + {"ui://" + name + "/app"};
        }
        assert tools[..i + 1] == tools[..i] + [tools[i]];
        assert ToolNames(tools[..i + 1]) == ToolNames(tools[..i]) + {name};
      }
      assert tools[..|tools|] == tools;
    }
  }

  /** Removes the pages that went away, then registers the current ones. */
  method ApplyResourcesLocked(resources: map<string, Resource>, previous: Option<Registry>, next: Registry,
                              group: string)
    returns (result: map<string, Resource>)
    requires next.Valid() && (previous.Some? ==> previous.value.Valid())
    ensures result == ApplyResources(resources, if previous.Some? then Some(previous.value.AsView()) else None,
                                     next.AsView(), group)
  {
    var newUris := UrisOfGroup(Some(next), group);
    var oldUris := UrisOfGroup(previous, group);
    result := resources - (oldUris - newUris);
    result := AddResources(result, next, group);
  }

  /** The pages of some of the tools. */
  function PagesOf(all: map<string, Resource>, names: set<string>): map<string, Resource> {
    map u | u in all && NameOfUri(u) in names :: all[u]
  }

  lemma PagesStep(base: map<string, Resource>, all: map<string, Resource>, view: View, group: string,
                  names: set<string>, name: string)
    requires all == GroupResources(view, group) && name in MembersIn(Some(view), group)
    ensures HasUi(view, name) ==> base + PagesOf(all, names + {name}) ==
                                  (base + PagesOf(all, names))[Uri(name) := Resource(name, view.index[name].ui.value)]
    ensures !HasUi(view, name) ==> base + PagesOf(all, names + {name}) == base + PagesOf(all, names)
  {
    var uri := Uri(name);
    UriRoundTrip(name);
    UriOnly(all, view, group, name);
    assert HasUi(view, name) ==> uri in all && all[uri] == Resource(name, view.index[name].ui.value);
    assert !HasUi(view, name) ==> uri !in all;
    hide *;
    OnePage(all, names, name, uri);
    if HasUi(view, name) {
      assert base + PagesOf(all, names)[uri := all[uri]] == (base + PagesOf(all, names))[uri := all[uri]];
    }
  }

  lemma OnePage(all: map<string, Resource>, names: set<string>, name: string, uri: string)
    requires NameOfUri(uri) == name && forall u :: u in all && NameOfUri(u) == name ==> u == uri
    ensures uri in all ==> PagesOf(all, names + {name}) == PagesOf(all, names)[uri := all[uri]]
    ensures uri !in all ==> PagesOf(all, names + {name}) == PagesOf(all, names)
  {
  }

  lemma AllPages(all: map<string, Resource>, view: View, group: string)
    requires all == GroupResources(view, group)
    ensures PagesOf(all, MembersIn(Some(view), group)) == all && PagesOf(all, {}) == map[]
  {
    forall u | u in all ensures NameOfUri(u) in MembersIn(Some(view), group) {
      var n :| n in MembersIn(Some(view), group) && HasUi(view, n) && Uri(n) == u;
      UriRoundTrip(n);
    }
  }

  lemma GroupPages(next: Registry, group: string)
    requires next.Valid()
    ensures var tools, view := next.ToolsForGroup(group), next.AsView();
            var all := GroupResources(view, group);
            && ToolNames(tools[..0]) == {} && PagesOf(all, ToolNames(tools[..0])) == map[]
            && PagesOf(all, ToolNames(tools)) == all && view.index == next.byName
            && (forall t :: t in tools ==> t.name in MembersIn(Some(view), group))
            && forall n :: HasUi(view, n) <==> n in next.byName && next.byName[n].ui.Some?
  {
    GroupListIsMembers(next, group);
    var tools, view := next.ToolsForGroup(group), next.AsView();
    AllPages(GroupResources(view, group), view, group);
    assert forall t :: t in tools ==> t.name in ToolNames(tools);
    hide GroupResources, PagesOf;
  }

  method AddResources(base: map<string, Resource>, next: Registry, group: string)
    returns (result: map<string, Resource>)
    requires next.Valid()
    ensures result == base + GroupResources(next.AsView(), group)
  {
    var tools := next.ToolsForGroup(group);
    ghost var view := next.AsView();
    ghost var all := GroupResources(view, group);
    GroupPages(next, group);
    hide ToolNames, PagesOf, HasUi, GroupResources, MembersIn;
    result := base;
    for i := 0 to |tools|
      invariant result == base + PagesOf(all, ToolNames(tools[..i]))
    {
      var name := tools[i].name;
      assert tools[i] in tools;
      if name in next.byName && next.byName[name].ui.Some? {
        result := result["ui://" + name + "/app" := Resource(name, next.byName[name].ui.value)];
      }
      PagesStep(base, all, view, group, ToolNames(tools[..i]), name);
      ToolNamesStep(tools, i);
    }
    assert tools[..|tools|] == tools;
  }

  lemma UriOnly(all: map<string, Resource>, view: View, group: string, name: string)
    requires all == GroupResources(view, group)
    ensures forall u :: u in all && NameOfUri(u) == name ==> u == Uri(name) && HasUi(view, name)
  {
    forall u | u in all && NameOfUri(u) == name ensures u == Uri(name) && HasUi(view, name) {
      var n :| n in MembersIn(Some(view), group) && HasUi(view, n) && Uri(n) == u;
      UriRoundTrip(n);
    }
  }

  // ---------- Reload checks ----------

  method CheckReferences(ups: seq<Upstream>, rateLimits: set<string>, caches: map<string, bool>) returns (ok: bool)
    ensures ok <==> ReferencesResolve(Flat(ups), rateLimits, caches)
  {
    for i := 0 to |ups|
      invariant ReferencesResolve(Flat(ups[..i]), rateLimits, caches)
    {
      var entries := ups[i].entries;
      FlatPrefix(ups, i);
      for a := 0 to |entries|
        invariant ReferencesResolve(entries[..a], rateLimits, caches)
      {
        var e := entries[a];
        if !(e.rateLimit == "" || e.rateLimit in rateLimits) || !(e.cacheName == "" || e.cacheName in caches) {
          assert e in Flat(ups[..i]) + entries;
          return false;
        }
        assert entries[..a + 1] == entries[..a] + [e];
      }
      assert entries[..|entries|] == entries;
      assert ups[..i + 1][..i] == ups[..i];
    }
    assert ups[..|ups|] == ups;
    return true;
  }

  method NewUpstreamStates(ups: seq<Upstream>, r: Registry) returns (states: map<string, Source>)
    requires forall n :: r.EntriesForUpstream(n) == EntriesNamed(ups, n)
    requires forall n :: r.SpecRootForUpstream(n) == RootNamed(ups, n)
    ensures states == StateOf(ups)
  {
    states := map[];
    ghost var all := StateOf(ups);
    assert Restrict(all, {}) == map[] && Restrict(all, UpstreamNames(ups)) == all;
    for i := 0 to |ups|
      invariant states == Restrict(all, UpstreamNames(ups[..i]))
    {
      var n := ups[i].name;
      assert ups[..i + 1] == ups[..i] + [ups[i]];
      assert UpstreamNames(ups[..i + 1]) == UpstreamNames(ups[..i]) + {n};
      assert n in all && all[n] == Source(r.EntriesForUpstream(n), r.SpecRootForUpstream(n));
      RestrictStep(map[], all, UpstreamNames(ups[..i]), n);
      states := states[n := Source(r.EntriesForUpstream(n), r.SpecRootForUpstream(n))];
    }
    assert ups[..|ups|] == ups;
  }

  function UpstreamNames(ups: seq<Upstream>): set<string> {
    set u | u in ups :: u.name
  }

  method BuildSearchState(search: Search, groups: seq<Group>) returns (tools: map<string, nat>)
    ensures tools == SearchState(search, groups)
  {
    tools := map[];
    if search.SearchOn? {
      var limit := if search.limit <= 0 then 5 else search.limit;
      for i := 0 to |groups|
        invariant tools == map e | e in Endpoints(groups[..i]) :: limit
      {
        tools := tools[groups[i].endpoint := limit];
        assert groups[..i + 1] == groups[..i] + [groups[i]];
        assert Endpoints(groups[..i + 1]) == Endpoints(groups[..i]) + {groups[i].endpoint};
      }
      assert groups[..|groups|] == groups;
    }
  }

  /** The checks of the limits and breakers that upstreams name, and the build of each
      enabled upstream. */
  method BuildUpstreams(config: Config) returns (built: Option<seq<Upstream>>)
    ensures built.Some? <==> UpstreamsValid(config.upstreams, config.rateLimits, config.circuitBreakers)
    ensures built.Some? ==> built.value == config.Built()
  {
    var ups := config.upstreams;
    for i := 0 to |ups|
      invariant forall j :: 0 <= j < i && ups[j].enabled ==>
                  ups[j].rateLimit == "" || ups[j].rateLimit in config.rateLimits
    {
      if ups[i].enabled && ups[i].rateLimit != "" && ups[i].rateLimit !in config.rateLimits {
        return None;
      }
    }
    for i := 0 to |ups|
      invariant forall j :: 0 <= j < i && ups[j].enabled ==>
                  ups[j].circuitBreaker == "" || ups[j].circuitBreaker in config.circuitBreakers
    {
      if ups[i].enabled && ups[i].circuitBreaker != "" && ups[i].circuitBreaker !in config.circuitBreakers {
        return None;
      }
    }
    var validated: seq<Upstream> := [];
    for i := 0 to |ups|
      invariant validated == BuiltUpstreams(ups[..i])
      invariant forall j :: 0 <= j < i && ups[j].enabled ==> ups[j].built.Some?
    {
      var u := ups[i];
      assert ups[..i + 1][..i] == ups[..i];
      if u.enabled {
        if u.built.None? {
          return None;
        }
        var entries := GuardEntries(u.built.value.entries, u.circuitBreaker);
        validated := validated + [Upstream(u.name, u.toolPrefix, entries, u.built.value.root)];
      }
    }
    assert ups[..|ups|] == ups;
    return Some(validated);
  }

  method GuardEntries(entries: seq<Entry>, breaker: string) returns (guarded: seq<Entry>)
    ensures guarded == Guarded(entries, breaker)
  {
    if breaker == "" {
      return entries;
    }
    guarded := [];
    for i := 0 to |entries|
      invariant |guarded| == i && forall j :: 0 <= j < i ==> guarded[j] == entries[j].(breaker := breaker)
    {
      guarded := guarded + [entries[i].(breaker := breaker)];
    }
  }

  method GroupsOfConfig(config: Config, ups: seq<Upstream>) returns (gs: seq<Group>)
    requires ups == config.Built()
    ensures gs == EffectiveGroups(config)
  {
    gs := config.groups;
    if gs == [] {
      var names: seq<string> := [];
      for i := 0 to |ups|
        invariant |names| == i && forall j :: 0 <= j < i ==> names[j] == ups[j].name
      {
        names := names + [ups[i].name];
      }
      assert names == EffectiveGroups(config)[0].upstreams;
      gs := [Group("default", "/mcp", names, NoFilter)];
    }
  }

  // ---------- The manager ----------

  class Manager {
    var servers: map<string, Server>
    var registry: Option<Registry>
    var groups: seq<Group>
    var namingSet: bool
    var upstreamByName: map<string, Source>
    var searchTools: map<string, nat>
    var store: Option<Entries>
    var cacheConfigs: map<string, bool>
    // The persistent backend of the store in use, if any, and what the others hold.
    var backend: Option<string>
    var kept: map<string, Entries>
    ghost var log: seq<Event>

    ghost predicate Valid()
      reads this
    {
      registry.Some? ==> registry.value.Valid()
    }

    ghost function PublishedView(): Option<View>
      reads this
    {
      if registry.Some? then Some(registry.value.AsView()) else None
    }

    ghost function Abs(): State
      reads this
    {
      State(servers, PublishedView(), groups, namingSet, upstreamByName, searchTools)
    }

    ghost function CacheAbs(): CacheState
      reads this
    {
      CacheState(PublishedView(), cacheConfigs, store, backend, kept, log)
    }

    constructor ()
      ensures Valid() && Abs() == Init && CacheAbs() == EmptyCache
    {
      servers, registry, groups, namingSet, upstreamByName, searchTools := map[], None, [], false, map[], map[];
      store, cacheConfigs, backend, kept, log := None, map[], None, map[], [];
    }

    /** Diffs the new registry against the published one on every group's server, then
        publishes it. */
    method ApplyRegistryLocked(next: Registry, gs: seq<Group>, newSearch: Option<map<string, nat>>)
      requires Valid() && next.Valid()
      modifies this`servers, this`registry
      ensures Valid() && registry == Some(next)
      ensures servers ==
              ApplyServers(old(servers), old(PublishedView()), next.AsView(), gs, |gs|, newSearch, searchTools)
    {
      ghost var was := PublishedView();
      for i := 0 to |gs|
        invariant registry == old(registry) && Valid()
        invariant servers == ApplyServers(old(servers), was, next.AsView(), gs, i, newSearch, searchTools)
      {
        hide ApplyServer;
        var g := gs[i];
        var srv := if g.endpoint in servers then servers[g.endpoint] else Server(map[], map[]);
        srv := ApplyGroup(srv, next, g, newSearch);
        servers := servers[g.endpoint := srv];
      }
      registry := Some(next);
    }

    method ApplyGroup(srv: Server, next: Registry, g: Group, newSearch: Option<map<string, nat>>)
      returns (result: Server)
      requires Valid() && next.Valid()
      ensures result == ApplyServer(srv, PublishedView(), next.AsView(), g, newSearch, searchTools)
    {
      var tools := DiffTools(srv.tools, registry, next, g.name);
      var resources := ApplyResourcesLocked(srv.resources, registry, next, g.name);
      if newSearch.Some? {
        if g.endpoint in newSearch.value {
          tools := tools[SEARCH_TOOL := Searches(g.endpoint, newSearch.value[g.endpoint])];
        } else if g.endpoint in searchTools {
          tools := tools - {SEARCH_TOOL};
        }
      }
      result := Server(tools, resources);
    }

    /** A full reload; on any error nothing changes. `newBackend` is the persistent backend
        the configured cache store uses, if it is not kept in memory. */
    method Rebuild(config: Config, newBackend: Option<string>) returns (ok: bool)
      requires Valid()
      modifies this
      ensures Valid()
      ensures ok <==> Accepts(config)
      ensures Abs() == AfterRebuild(old(Abs()), config)
      ensures CacheAbs() ==
              if ok then CacheStep(old(CacheAbs()), Reload(Abs().published.value, config.caches, newBackend))
                            else old(CacheAbs())
    {
      hide ApplyServers, ListView, StateOf, ReferencesResolve, DistinctNames, Flat, PrefixesDistinct, FiltersValid,
           SearchState,
           EntriesNamed, RootNamed, EffectiveGroups, UpstreamsValid, BuiltUpstreams, Guarded, Opened, Held;
      var validated := BuildUpstreams(config);
      if validated.None? {
        return false;
      }
      var ups := validated.value;
      var gs := GroupsOfConfig(config, ups);
      var built := New(ups, gs);
      if built.Err? {
        return false;
      }
      var resolved := CheckReferences(ups, config.rateLimits, config.caches);
      if !resolved || !config.enforcerBuilt || (config.caches != map[] && !config.storeOpens) {
        return false;
      }
      var next := built.value;
      var states := NewUpstreamStates(ups, next);
      var search := BuildSearchState(config.search, gs);
      Install(next, gs, states, search, config.caches, newBackend);
      return true;
    }

    /** What a reload does once nothing can fail any more. */
    method Install(next: Registry, gs: seq<Group>, states: map<string, Source>, search: map<string, nat>,
                   caches: map<string, bool>, newBackend: Option<string>)
      requires Valid() && next.Valid()
      modifies this
      ensures Valid()
      ensures Abs() == State(ApplyServers(old(servers), old(PublishedView()), next.AsView(), gs, |gs|, Some(search),
                                          old(searchTools)),
                             Some(next.AsView()), gs, true, states, search)
      ensures CacheAbs() == CacheStep(old(CacheAbs()), Reload(next.AsView(), caches, newBackend))
    {
      hide ApplyServers, Opened, Held;
      ApplyRegistryLocked(next, gs, Some(search));
      groups, namingSet, upstreamByName, searchTools := gs, true, states, search;
      cacheConfigs := caches;
      OpenStore(newBackend);
    }

    /** Drops the store in use and opens the configured one. */
    method OpenStore(newBackend: Option<string>)
      modifies this`store, this`backend, this`kept
      ensures kept == Held(old(store), old(backend), old(kept)) && backend == newBackend
      ensures store == Opened(kept, cacheConfigs, newBackend)
    {
      if store.Some? && backend.Some? {
        kept := kept[backend.value := store.value];
      }
      backend := newBackend;
      if cacheConfigs == map[] {
        store := None;
      } else if newBackend.Some? && newBackend.value in kept {
        store := Some(kept[newBackend.value]);
      } else {
        store := Some(map[]);
      }
    }

    /** Builds a registry from the stored sources and publishes it. */
    method RebuildFromStateLocked() returns (ok: bool)
      requires Valid()
      modifies this`servers, this`registry
      ensures Valid()
      ensures ok <==> Buildable(upstreamByName, groups)
      ensures Abs() == Republished(old(Abs()))
    {
      var built := NewFromEntries(upstreamByName, groups);
      if built.Err? {
        return false;
      }
      ApplyRegistryLocked(built.value, groups, None);
      return true;
    }

    /** Replaces one upstream's entries. */
    method UpdateUpstream(name: string, entries: seq<Entry>, root: Option<nat>) returns (ok: bool)
      requires Valid()
      modifies this`servers, this`registry, this`upstreamByName
      ensures Valid()
      ensures ok <==> UpdateSucceeds(old(Abs()), name, entries, root)
      ensures Abs() == AfterUpdate(old(Abs()), name, entries, root)
    {
      if !namingSet {
        return false;
      }
      upstreamByName := upstreamByName[name := Source(entries, root)];
      ok := RebuildFromStateLocked();
    }

    /** Drops one upstream; on failure its sources are put back. */
    method RemoveUpstream(name: string)
      requires Valid()
      modifies this`servers, this`registry, this`upstreamByName
      ensures Valid()
      ensures Abs() == AfterRemove(old(Abs()), name)
    {
      if !namingSet {
        return;
      }
      var was := upstreamByName;
      upstreamByName := upstreamByName - {name};
      var ok := RebuildFromStateLocked();
      if !ok {
        if name in was {
          upstreamByName := upstreamByName[name := was[name]];
        }
        assert upstreamByName == was;
      }
    }

    /** Serves a call from the cache on a hit, and stores the result on a miss. */
    method DispatchForGroup(call: Call, env: Surroundings) returns (outcome: Outcome)
      requires Valid()
      modifies this`store, this`log
      ensures Valid() && Abs() == old(Abs())
      ensures (CacheAbs(), outcome) == Dispatch(old(CacheAbs()), call, env)
    {
      if registry.None? {
        return ErrorResult("no config loaded");
      }
      var reg := registry.value;
      var cacheName := if call.tool in reg.byName then reg.byName[call.tool].cacheName else "";
      if store.None? || cacheName == "" || cacheName !in cacheConfigs {
        outcome := RegistryDispatch(reg, call, env.executed);
        return;
      }
      var perUser := cacheConfigs[cacheName];
      var subject := if perUser then call.subject else "";
      var key := ComputeKey(call.tool, call.args, perUser, subject);
      assert key == CallKey(call, perUser);
      hide KeyOf, CallKey, Uncached;
      if !env.misses && key in store.value {
        return Returned(store.value[key]);
      }
      outcome := RegistryDispatch(reg, call, env.executed);
      if outcome.Returned? && !outcome.result.isError {
        log := log + [Event(call, perUser, outcome.result)];
        if !env.setFails {
          store := Some(store.value[key := outcome.result]);
        }
      }
    }
  }

  method RegistryDispatch(reg: Registry, call: Call, executed: Outcome) returns (outcome: Outcome)
    ensures outcome == Uncached(reg.AsView(), call, executed)
  {
    if call.group !in reg.groups {
      return ErrorResult("unknown group: " + call.group);
    }
    if call.tool !in reg.groups[call.group].toolSet {
      return ErrorResult("tool not available in this group: " + call.tool);
    }
    if call.tool !in reg.byName {
      return ErrorResult("unknown tool: " + call.tool);
    }
    return executed;
  }
}
