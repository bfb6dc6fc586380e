/** What a reload serves, in terms of its configuration (pkg/mcp/manager.go:201-403): which
    groups there are, which tools each server has, under which limits, and which pages. */
module ServedTools {
  import opened Json
  import opened Registry
  import opened ServerSync
  import opened ReloadSync

  /** The entry, if it has a node, is selected by the group's filter, if it has one. */
  predicate PassesFilter(g: Group, u: Upstream, e: Entry) {
    match g.filter
    case Selects(nodes) =>
      e.node.Some? ==> u.root.Some? && u.root.value in nodes && e.node.value in nodes[u.root.value]
    case _ => true
  }

  /** The upstream and the entry bring the group a tool. */
  predicate Brings(config: Config, g: Group, u: Upstream, e: Entry) {
    u in config.Built() && u.name in g.upstreams && e in u.entries && PassesFilter(g, u, e)
  }

  ghost predicate NamesOnce(groups: seq<Group>) {
    forall i, j :: 0 <= i < j < |groups| ==> groups[i].name != groups[j].name
  }

  /** The tools of a group are those that its upstreams bring, each dispatching for the group
      under its own limit, and the search tool if search is on, with five results unless more or
      fewer are asked for. */
  ghost predicate ServesTools(tools: map<string, Registration>, config: Config, g: Group) {
    && (forall n :: n != SEARCH_TOOL ==> (n in tools <==> exists u, e :: Brings(config, g, u, e) && e.name == n))
    && (forall u, e :: Brings(config, g, u, e) ==>
          e.name in tools && tools[e.name] == Dispatches(Tool(e.name, e.definition), g.name, e.rateLimit))
    && (SEARCH_TOOL in tools <==> config.search.SearchOn?)
    && (config.search.SearchOn? ==>
          tools[SEARCH_TOOL] == Searches(g.endpoint, if config.search.limit > 0 then config.search.limit else 5))
  }

  /** The pages of a group are those of its tools that have one. */
  ghost predicate ServesPages(pages: map<string, Resource>, config: Config, g: Group) {
    && (forall uri :: uri in pages <==>
          exists u, e :: Brings(config, g, u, e) && e.ui.Some? && uri == "ui://" + e.name + "/app")
    && (forall u, e :: Brings(config, g, u, e) && e.ui.Some? ==>
          ("ui://" + e.name + "/app") in pages && pages["ui://" + e.name + "/app"] == Resource(e.name, e.ui.value))
  }

  ghost predicate Serves(srv: Server, config: Config, g: Group) {
    ServesTools(srv.tools, config, g) && ServesPages(srv.resources, config, g)
  }

  // ---------- Membership ----------

  lemma {:induction false} FilterOfName(groups: seq<Group>, i: nat)
    requires NamesOnce(groups) && i < |groups|
    ensures FilterOf(groups, groups[i].name) == if groups[i].filter.Selects? then Some(groups[i].filter.nodes) else None
  {
    var init := groups[..|groups| - 1];
    if i < |groups| - 1 {
      FilterOfName(init, i);
    } else {
      NoFilterOfName(init, groups[i].name);
    }
  }

  lemma {:induction false} NoFilterOfName(groups: seq<Group>, name: string)
    requires forall i :: 0 <= i < |groups| ==> groups[i].name != name
    ensures FilterOf(groups, name) == None
  {
    if groups != [] {
      NoFilterOfName(groups[..|groups| - 1], name);
    }
  }

  lemma {:induction false} MembersOfGroup(ups: seq<Upstream>, groups: seq<Group>, k: nat, i: nat)
    requires NamesOnce(groups) && i < k <= |groups|
    ensures var g := groups[i];
            g.name in GroupsOfList(ups, groups, k) &&
            GroupsOfList(ups, groups, k)[g.name] == MembersOfList(ups, g.upstreams, FilterOf(groups, g.name))
  {
    hide MembersOfList, FilterOf;
    if i < k - 1 {
      MembersOfGroup(ups, groups, k - 1, i);
    }
  }

  lemma MembersAreBrought(config: Config, groups: seq<Group>, g: Group)
    requires groups == EffectiveGroups(config) && NamesOnce(groups) && g in groups
    ensures var view := ListView(config.Built(), groups);
            forall n :: n in MembersIn(Some(view), g.name) <==> exists u, e :: Brings(config, g, u, e) && e.name == n
  {
    var ups := config.Built();
    var i :| 0 <= i < |groups| && groups[i] == g;
    FilterOfName(groups, i);
    MembersOfGroup(ups, groups, |groups|, i);
    var filter := FilterOf(groups, g.name);
    hide FilterOf, GroupsOfList, EffectiveGroups;
    forall u, e ensures Brings(config, g, u, e) <==>
      u in ups && u.name in g.upstreams && e in u.entries && Passes(filter, e, u.root) {
    }
  }

  lemma EntryIsIndexed(config: Config, groups: seq<Group>, g: Group, u: Upstream, e: Entry)
    requires Accepts(config) && Brings(config, g, u, e)
    ensures var view := ListView(config.Built(), groups); e.name in view.index && view.index[e.name] == e
  {
    var ups := config.Built();
    InFlat(ups, u, e);
    var x := EntryIn(Flat(ups), e.name);
    var i :| 0 <= i < |Flat(ups)| && Flat(ups)[i] == e;
    var j :| 0 <= j < |Flat(ups)| && Flat(ups)[j] == x;
  }

  // ---------- Servers ----------

  lemma WantedServes(config: Config, g: Group)
    requires Accepts(config) && NotNamedSearch(Flat(config.Built()))
    requires var groups := EffectiveGroups(config); NamesOnce(groups) && g in groups
    ensures var groups := EffectiveGroups(config);
            Serves(Expected(ListView(config.Built(), groups), g, SearchState(config.search, groups)), config, g)
  {
    var groups := EffectiveGroups(config);
    var view, search := ListView(config.Built(), groups), SearchState(config.search, groups);
    hide *;
    WantedView(config, groups);
    ViewBrings(config, groups, g);
    WantedSearch(config.search, groups, g);
    WantedTools(view, config, g, search);
    WantedPages(view, config, g);
    ServesWanted(view, config, g, search);
  }

  /** The view has the entries that the upstreams bring the group, and no other members. */
  ghost predicate HasBrought(view: View, config: Config, g: Group) {
    && (forall n :: n in MembersIn(Some(view), g.name) <==> exists u, e :: Brings(config, g, u, e) && e.name == n)
    && (forall u, e :: Brings(config, g, u, e) ==> e.name in view.index && view.index[e.name] == e)
  }

  lemma ViewBrings(config: Config, groups: seq<Group>, g: Group)
    requires Accepts(config) && groups == EffectiveGroups(config) && NamesOnce(groups) && g in groups
    ensures HasBrought(ListView(config.Built(), groups), config, g)
  {
    var view := ListView(config.Built(), groups);
    MembersAreBrought(config, groups, g);
    hide ListView, EffectiveGroups, Accepts, Brings, NamesOnce, MembersIn;
    forall u, e | Brings(config, g, u, e) ensures e.name in view.index && view.index[e.name] == e {
      EntryIsIndexed(config, groups, g, u, e);
    }
  }

  lemma ServesWanted(view: View, config: Config, g: Group, search: map<string, nat>)
    requires ServesTools(Expected(view, g, search).tools, config, g)
    requires ServesPages(GroupResources(view, g.name), config, g)
    ensures Serves(Expected(view, g, search), config, g)
  {
    hide ServesTools, ServesPages, GroupResources, Registrations;
  }

  lemma WantedView(config: Config, groups: seq<Group>)
    requires Accepts(config) && NotNamedSearch(Flat(config.Built())) && groups == EffectiveGroups(config)
    ensures ViewOk(ListView(config.Built(), groups))
  {
    ListViewOk(config.Built(), groups);
  }

  lemma WantedSearch(search: Search, groups: seq<Group>, g: Group)
    requires g in groups
    ensures var state := SearchState(search, groups);
            && (g.endpoint in state <==> search.SearchOn?)
            && (search.SearchOn? ==> state[g.endpoint] == if search.limit > 0 then search.limit else 5)
  {
    assert g.endpoint in Endpoints(groups);
  }

  lemma WantedTools(view: View, config: Config, g: Group, search: map<string, nat>)
    requires ViewOk(view) && (g.endpoint in search <==> config.search.SearchOn?)
    requires config.search.SearchOn? ==>
               search[g.endpoint] == if config.search.limit > 0 then config.search.limit else 5
    requires HasBrought(view, config, g)
    ensures ServesTools(Expected(view, g, search).tools, config, g)
  {
    WantedKeys(view, g, search);
    var tools, added := Expected(view, g, search).tools, Registrations(view, g.name);
    hide Brings, Expected;
    forall u, e | Brings(config, g, u, e)
      ensures e.name in tools && tools[e.name] == Dispatches(Tool(e.name, e.definition), g.name, e.rateLimit)
    {
      assert e.name in MembersIn(Some(view), g.name);
      assert added[e.name] == Dispatches(e.AsTool(), g.name, e.rateLimit);
    }
  }

  lemma WantedPages(view: View, config: Config, g: Group)
    requires ViewOk(view)
    requires HasBrought(view, config, g)
    ensures ServesPages(GroupResources(view, g.name), config, g)
  {
    var pages := GroupResources(view, g.name);
    hide Brings, MembersIn;
    forall u, e | Brings(config, g, u, e) && e.ui.Some?
      ensures Uri(e.name) in pages && pages[Uri(e.name)] == Resource(e.name, e.ui.value)
    {
      assert e.name in MembersIn(Some(view), g.name) && HasUi(view, e.name);
      UriRoundTrip(e.name);
    }
    forall uri | uri in pages
      ensures exists u, e :: Brings(config, g, u, e) && e.ui.Some? && uri == "ui://" + e.name + "/app"
    {
      var n :| n in MembersIn(Some(view), g.name) && HasUi(view, n) && Uri(n) == uri;
      var u, e :| Brings(config, g, u, e) && e.name == n;
    }
  }

  /** After a reload that leaves the servers in step, as the first one does, the groups are the
      configured ones, and each one's server serves what the configuration says. */
  lemma ConfiguredGroupsServe(s: State, config: Config)
    requires config.groups != [] && NamesOnce(config.groups)
    requires Accepts(config) && NotNamedSearch(Flat(config.Built())) && InStep(AfterRebuild(s, config))
    ensures var after := AfterRebuild(s, config);
            && after.groups == config.groups
            && after.servers.Keys == (set g | g in config.groups :: g.endpoint)
            && forall g :: g in config.groups ==> Serves(after.servers[g.endpoint], config, g)
  {
    hide *;
    ConfiguredGroups(config);
    ReloadedParts(s, config);
    InStepIs(AfterRebuild(s, config), ListView(config.Built(), config.groups), config.groups,
             SearchState(config.search, config.groups));
    EndpointsAre(config.groups);
    forall g | g in config.groups
      ensures Serves(Expected(ListView(config.Built(), config.groups), g, SearchState(config.search, config.groups)),
                     config, g)
    {
      WantedServes(config, g);
    }
  }

  lemma ConfiguredGroups(config: Config)
    requires config.groups != []
    ensures EffectiveGroups(config) == config.groups
  {
  }

  lemma EndpointsAre(groups: seq<Group>)
    ensures Endpoints(groups) == set g | g in groups :: g.endpoint
  {
  }

  /** Without configured groups there is one server, at `/mcp`, and it serves every tool of
      every upstream. */
  lemma DefaultGroupServesAll(s: State, config: Config)
    requires config.groups == []
    requires Accepts(config) && NotNamedSearch(Flat(config.Built())) && InStep(AfterRebuild(s, config))
    ensures var after := AfterRebuild(s, config);
            && after.servers.Keys == {"/mcp"}
            && (forall n :: n != SEARCH_TOOL ==>
                (n in after.servers["/mcp"].tools <==> n in NamesIn(Flat(config.Built()))))
            && (forall e :: e in Flat(config.Built()) ==>
                  after.servers["/mcp"].tools[e.name] == Dispatches(Tool(e.name, e.definition), "default", e.rateLimit))
            && (SEARCH_TOOL in after.servers["/mcp"].tools <==> config.search.SearchOn?)
            && after.published.Some? && after.published.value.members == map["default" := NamesIn(Flat(config.Built()))]
  {
    hide *;
    var ups := config.Built();
    DefaultServer(s, config);
    var g := EffectiveGroups(config)[0];
    WantedServes(config, g);
    AllAreBrought(config, g);
    DefaultMembers(config, g);
    ServesAll(AfterRebuild(s, config).servers["/mcp"], config, g);
  }

  lemma DefaultServer(s: State, config: Config)
    requires config.groups == [] && Accepts(config) && InStep(AfterRebuild(s, config))
    ensures var after, g := AfterRebuild(s, config), EffectiveGroups(config)[0];
            && EffectiveGroups(config) == [g] && NamesOnce([g]) && g in [g]
            && g.endpoint == "/mcp" && g.name == "default" && g.filter == NoFilter
            && (forall u :: u in config.Built() ==> u.name in g.upstreams)
            && after.servers.Keys == {"/mcp"}
            && after.servers["/mcp"] == Expected(ListView(config.Built(), [g]), g, SearchState(config.search, [g]))
            && after.published == Some(ListView(config.Built(), [g]))
  {
    hide *;
    DefaultGroup(config);
    var g := EffectiveGroups(config)[0];
    ReloadedParts(s, config);
    InStepIs(AfterRebuild(s, config), ListView(config.Built(), [g]), [g], SearchState(config.search, [g]));
    OneEndpoint(g);
  }

  lemma DefaultGroup(config: Config)
    requires config.groups == []
    ensures EffectiveGroups(config) != []
    ensures var g := EffectiveGroups(config)[0];
            && EffectiveGroups(config) == [g] && NamesOnce([g]) && g in [g]
            && g.endpoint == "/mcp" && g.name == "default" && g.filter == NoFilter
            && forall u :: u in config.Built() ==> u.name in g.upstreams
  {
    var ups, g := config.Built(), EffectiveGroups(config)[0];
    forall u | u in ups ensures u.name in g.upstreams {
      var i :| 0 <= i < |ups| && ups[i] == u;
      assert g.upstreams[i] == u.name;
    }
    hide BuiltUpstreams;
  }

  lemma ReloadedParts(s: State, config: Config)
    requires Accepts(config)
    ensures var after, groups := AfterRebuild(s, config), EffectiveGroups(config);
            && after.published == Some(ListView(config.Built(), groups)) && after.groups == groups
            && after.searchTools == SearchState(config.search, groups)
  {
    hide ListView, EffectiveGroups, SearchState, ApplyServers, StateOf, Accepts;
  }

  lemma OneEndpoint(g: Group)
    ensures Endpoints([g]) == {g.endpoint}
  {
    assert g in [g];
  }

  lemma ServesAll(srv: Server, config: Config, g: Group)
    requires Serves(srv, config, g) && g.name == "default"
    requires forall e :: e in Flat(config.Built()) ==> exists u :: Brings(config, g, u, e)
    requires forall u, e :: Brings(config, g, u, e) ==> e in Flat(config.Built())
    ensures forall n :: n != SEARCH_TOOL ==> (n in srv.tools <==> n in NamesIn(Flat(config.Built())))
    ensures forall e :: e in Flat(config.Built()) ==>
              e.name in srv.tools && srv.tools[e.name] == Dispatches(Tool(e.name, e.definition), "default", e.rateLimit)
    ensures SEARCH_TOOL in srv.tools <==> config.search.SearchOn?
  {
    hide Brings;
    forall e | e in Flat(config.Built())
      ensures e.name in srv.tools && srv.tools[e.name] == Dispatches(Tool(e.name, e.definition), "default", e.rateLimit)
    {
      var u :| Brings(config, g, u, e);
    }
  }

  lemma AllAreBrought(config: Config, g: Group)
    requires g.filter == NoFilter && forall u :: u in config.Built() ==> u.name in g.upstreams
    ensures forall e :: e in Flat(config.Built()) ==> exists u :: Brings(config, g, u, e)
    ensures forall u, e :: Brings(config, g, u, e) ==> e in Flat(config.Built())
  {
    forall e | e in Flat(config.Built()) ensures exists u :: Brings(config, g, u, e) {
      var u := OwnerInFlat(config.Built(), e);
      assert Brings(config, g, u, e);
    }
    forall u, e | Brings(config, g, u, e) ensures e in Flat(config.Built()) {
      InFlat(config.Built(), u, e);
    }
  }

  lemma {:induction false} OwnerInFlat(ups: seq<Upstream>, e: Entry) returns (u: Upstream)
    requires e in Flat(ups)
    ensures u in ups && e in u.entries
  {
    var last := ups[|ups| - 1];
    if e in last.entries {
      u := last;
    } else {
      u := OwnerInFlat(ups[..|ups| - 1], e);
    }
  }

  lemma DefaultMembers(config: Config, g: Group)
    requires EffectiveGroups(config) == [g] && g.name == "default" && NamesOnce([g])
    requires forall e :: e in Flat(config.Built()) ==> exists u :: Brings(config, g, u, e)
    requires forall u, e :: Brings(config, g, u, e) ==> e in Flat(config.Built())
    ensures ListView(config.Built(), [g]).members == map["default" := NamesIn(Flat(config.Built()))]
  {
    var ups := config.Built();
    MembersAreBrought(config, [g], g);
    var view := ListView(ups, [g]);
    assert view.members ==
           GroupsOfList(ups, [g], 0)["default" := MembersOfList(ups, g.upstreams, FilterOf([g], g.name))];
    assert GroupsOfList(ups, [g], 0) == map[];
    assert view.members.Keys == {"default"};
    hide ListView, GroupsOfList, MembersOfList, FilterOf, Brings;
    assert view.members["default"] == MembersIn(Some(view), "default");
    assert view.members["default"] == NamesIn(Flat(ups));
  }

  /** The first reload leaves the servers in step, if endpoints are distinct. */
  lemma FirstReloadServes(config: Config)
    requires Accepts(config) && Plain(Rebuild(config))
    ensures InStep(AfterRebuild(Init, config))
  {
    assert AllHandOver(Init, config) by {
      assert Endpoints([]) == {};
    }
    ReloadInStepIff(Init, config);
  }
}
