/** What the manager does to its MCP servers (pkg/mcp/manager.go), as a state machine over
    the order-free registry view. The manager's mutex makes each operation one step. */
module ServerSync {
  import opened Json
  import opened Registry

  const SEARCH_TOOL := "search_tools"

  /** A tool registered on a server: its handler dispatches for one group, under a rate
      limit, or searches the tools of one endpoint. */
  datatype Registration =
    | Dispatches(tool: Tool, group: string, rateLimit: string)
    | Searches(endpoint: string, limit: nat)

  datatype Resource = Resource(name: string, handler: string)

  datatype Server = Server(tools: map<string, Registration>, resources: map<string, Resource>)

  datatype State = State(
    servers: map<string, Server>,
    published: Option<View>,
    groups: seq<Group>,
    initialised: bool,
    sources: map<string, Source>,
    searchTools: map<string, nat>)

  const Init := State(map[], None, [], false, map[], map[])

  datatype Search = SearchOff | SearchOn(limit: int) | SearchBuildFailed

  /** A configured upstream, with what building it gives, or None if that fails. */
  datatype UpstreamConfig = UpstreamConfig(
    enabled: bool,
    name: string,
    toolPrefix: string,
    rateLimit: string,
    circuitBreaker: string,
    built: Option<Source>)

  /** Every entry of an upstream goes through the upstream's circuit breaker, if it has one. */
  function Guarded(entries: seq<Entry>, breaker: string): (guarded: seq<Entry>)
    ensures |guarded| == |entries|
    ensures forall i :: 0 <= i < |entries| ==>
              guarded[i] == if breaker == "" then entries[i] else entries[i].(breaker := breaker)
  {
    if breaker == "" then entries
    else seq(|entries|, i requires 0 <= i < |entries| => entries[i].(breaker := breaker))
  }

  /** The enabled upstreams that can be built, in order. */
  function BuiltUpstreams(configured: seq<UpstreamConfig>): seq<Upstream> {
    if configured == [] then []
    else
      var u := configured[|configured| - 1];
      BuiltUpstreams(configured[..|configured| - 1]) +
      (if u.enabled && u.built.Some? then
         [Upstream(u.name, u.toolPrefix, Guarded(u.built.value.entries, u.circuitBreaker), u.built.value.root)]
       else [])
  }

  /** `enforcerBuilt` and `storeOpens` say whether the rate limit enforcer and the cache
      store can be created; a store is opened only if there are caches. */
  datatype Config = Config(
    upstreams: seq<UpstreamConfig>,
    groups: seq<Group>,
    search: Search,
    rateLimits: set<string>,
    circuitBreakers: set<string>,
    caches: map<string, bool>,
    enforcerBuilt: bool,
    storeOpens: bool)
  {
    function Built(): seq<Upstream> {
      BuiltUpstreams(upstreams)
    }
  }

  datatype Op =
    | Rebuild(config: Config)
    | UpdateUpstream(name: string, entries: seq<Entry>, root: Option<nat>)
    | RemoveUpstream(name: string)

  // ---------- One group ----------

  function MembersIn(view: Option<View>, group: string): set<string> {
    if view.Some? && group in view.value.members then view.value.members[group] else {}
  }

  function Registrations(view: View, group: string): map<string, Registration> {
    map n | n in MembersIn(Some(view), group) && n in view.index ::
      Dispatches(view.index[n].AsTool(), group, view.index[n].rateLimit)
  }

  function Uri(name: string): string {
    "ui://" + name + "/app"
  }

  function NameOfUri(uri: string): string {
    if |uri| >= 9 then uri[5..|uri| - 4] else ""
  }

  lemma UriRoundTrip(name: string)
    ensures NameOfUri(Uri(name)) == name
  {
  }

  predicate HasUi(view: View, name: string) {
    name in view.index && view.index[name].ui.Some?
  }

  function UiUris(view: Option<View>, group: string): set<string> {
    if view.None? then {}
    else set n | n in MembersIn(view, group) && HasUi(view.value, n) :: Uri(n)
  }

  function ResourceAt(view: View, uri: string): Resource {
    var n := NameOfUri(uri);
    Resource(n, if HasUi(view, n) then view.index[n].ui.value else "")
  }

  function GroupResources(view: View, group: string): map<string, Resource> {
    map u | u in UiUris(Some(view), group) :: ResourceAt(view, u)
  }

  /** What a group's server should hold: the tools of the group, the search tool exactly
      when search is on there, and the pages of the tools that have one. */
  function Expected(view: View, g: Group, search: map<string, nat>): Server {
    Server(
      Registrations(view, g.name) +
      (if g.endpoint in search then map[SEARCH_TOOL := Searches(g.endpoint, search[g.endpoint])] else map[]),
      GroupResources(view, g.name))
  }

  /** The diff applied to one server's tools. `newSearch` is None for an incremental
      update, which leaves the search tool alone. */
  function ApplyTools(tools: map<string, Registration>, previous: Option<View>, view: View, g: Group,
                      newSearch: Option<map<string, nat>>, oldSearch: map<string, nat>): map<string, Registration> {
    var added := (tools - (MembersIn(previous, g.name) - MembersIn(Some(view), g.name))) + Registrations(view, g.name);
    if newSearch.None? then added
    else if g.endpoint in newSearch.value then
      added[SEARCH_TOOL := Searches(g.endpoint, newSearch.value[g.endpoint])]
    else if g.endpoint in oldSearch then added - {SEARCH_TOOL}
    else added
  }

  function ApplyResources(resources: map<string, Resource>, previous: Option<View>, view: View,
                          group: string): map<string, Resource> {
    (resources - (UiUris(previous, group) - UiUris(Some(view), group))) + GroupResources(view, group)
  }

  function ApplyServer(srv: Server, previous: Option<View>, view: View, g: Group,
                       newSearch: Option<map<string, nat>>, oldSearch: map<string, nat>): Server {
    Server(ApplyTools(srv.tools, previous, view, g, newSearch, oldSearch),
           ApplyResources(srv.resources, previous, view, g.name))
  }

  function ServerAt(servers: map<string, Server>, endpoint: string): Server {
    if endpoint in servers then servers[endpoint] else Server(map[], map[])
  }

  /** The first `k` groups, one after the other. */
  function ApplyServers(servers: map<string, Server>, previous: Option<View>, view: View, groups: seq<Group>, k: nat,
                        newSearch: Option<map<string, nat>>, oldSearch: map<string, nat>): map<string, Server>
    requires k <= |groups|
  {
    if k == 0 then servers
    else
      var before := ApplyServers(servers, previous, view, groups, k - 1, newSearch, oldSearch);
      var g := groups[k - 1];
      before[g.endpoint := ApplyServer(ServerAt(before, g.endpoint), previous, view, g, newSearch, oldSearch)]
  }

  // ---------- The operations ----------

  /** Without configured groups one default group holds every upstream. */
  function EffectiveGroups(config: Config): seq<Group> {
    if config.groups == [] then
      var ups := config.Built();
      [Group("default", "/mcp", seq(|ups|, i requires 0 <= i < |ups| => ups[i].name), NoFilter)]
    else config.groups
  }

  /** Every enabled upstream can be built, and the limit and the breaker it names, if any,
      are configured. */
  predicate UpstreamsValid(configured: seq<UpstreamConfig>, rateLimits: set<string>, circuitBreakers: set<string>) {
    forall u :: u in configured && u.enabled ==>
      && u.built.Some?
      && (u.rateLimit == "" || u.rateLimit in rateLimits)
      && (u.circuitBreaker == "" || u.circuitBreaker in circuitBreakers)
  }

  predicate ReferencesResolve(entries: seq<Entry>, rateLimits: set<string>, caches: map<string, bool>) {
    forall e :: e in entries ==>
      (e.rateLimit == "" || e.rateLimit in rateLimits) && (e.cacheName == "" || e.cacheName in caches)
  }

  ghost predicate Accepts(config: Config) {
    && config.enforcerBuilt && (config.caches != map[] ==> config.storeOpens)
    && UpstreamsValid(config.upstreams, config.rateLimits, config.circuitBreakers)
    && PrefixesDistinct(config.Built())
    && DistinctNames(Flat(config.Built()))
    && FiltersValid(EffectiveGroups(config))
    && ReferencesResolve(Flat(config.Built()), config.rateLimits, config.caches)
  }

  function SearchState(search: Search, groups: seq<Group>): map<string, nat> {
    if search.SearchOn? then
      map e | e in Endpoints(groups) :: if search.limit <= 0 then 5 else search.limit
    else map[]
  }

  function Endpoints(groups: seq<Group>): set<string> {
    set g | g in groups :: g.endpoint
  }

  ghost function AfterRebuild(s: State, config: Config): State {
    if !Accepts(config) then s
    else
      var groups := EffectiveGroups(config);
      var view := ListView(config.Built(), groups);
      var search := SearchState(config.search, groups);
      State(ApplyServers(s.servers, s.published, view, groups, |groups|, Some(search), s.searchTools),
            Some(view), groups, true, StateOf(config.Built()), search)
  }

  /** Publishes the registry built from the sources, if it can be built. */
  ghost function Republished(s: State): State {
    if !Buildable(s.sources, s.groups) then s
    else
      var view := FullView(s.sources, s.groups);
      s.(servers := ApplyServers(s.servers, s.published, view, s.groups, |s.groups|, None, s.searchTools),
         published := Some(view))
  }

  ghost predicate UpdateSucceeds(s: State, name: string, entries: seq<Entry>, root: Option<nat>) {
    s.initialised && Buildable(s.sources[name := Source(entries, root)], s.groups)
  }

  /** A failed update keeps the new entries in the sources: nothing is rolled back. */
  ghost function AfterUpdate(s: State, name: string, entries: seq<Entry>, root: Option<nat>): State {
    if !s.initialised then s
    else Republished(s.(sources := s.sources[name := Source(entries, root)]))
  }

  ghost predicate RemoveSucceeds(s: State, name: string) {
    s.initialised && Buildable(s.sources - {name}, s.groups)
  }

  /** A failed removal restores the sources. */
  ghost function AfterRemove(s: State, name: string): State {
    if !RemoveSucceeds(s, name) then s
    else Republished(s.(sources := s.sources - {name}))
  }

  ghost function Step(s: State, op: Op): State {
    match op
    case Rebuild(config) => AfterRebuild(s, config)
    case UpdateUpstream(name, entries, root) => AfterUpdate(s, name, entries, root)
    case RemoveUpstream(name) => AfterRemove(s, name)
  }

  ghost function Run(s: State, ops: seq<Op>): State {
    if ops == [] then s else Step(Run(s, ops[..|ops| - 1]), ops[|ops| - 1])
  }

  // ---------- Servers follow the registry ----------

  ghost predicate DistinctEndpoints(groups: seq<Group>) {
    forall i, j :: 0 <= i < j < |groups| ==> groups[i].endpoint != groups[j].endpoint
  }

  function Pairs(groups: seq<Group>): set<(string, string)> {
    set g | g in groups :: (g.name, g.endpoint)
  }

  ghost predicate NotNamedSearch(entries: seq<Entry>) {
    forall e :: e in entries ==> e.name != SEARCH_TOOL
  }

  /** The operation gives the groups distinct endpoints and brings no tool whose name is
      that of the search tool. */
  ghost predicate Plain(op: Op) {
    match op
    case Rebuild(config) => DistinctEndpoints(EffectiveGroups(config)) && NotNamedSearch(Flat(config.Built()))
    case UpdateUpstream(name, entries, root) => NotNamedSearch(entries)
    case RemoveUpstream(name) => true
  }

  /** Besides, it keeps the groups' (name, endpoint) pairs. */
  ghost predicate Respects(op: Op, pairs: set<(string, string)>) {
    Plain(op) && (op.Rebuild? ==> Pairs(EffectiveGroups(op.config)) == pairs)
  }

  ghost predicate ViewOk(view: View) {
    && (forall g :: g in view.members ==> view.members[g] <= view.index.Keys)
    && (forall n :: n in view.index ==> view.index[n].name == n)
    && SEARCH_TOOL !in view.index
  }

  /** The servers are those of the groups, and each holds exactly what it should. */
  ghost predicate InStep(s: State) {
    s.published.Some? ==>
      && s.servers.Keys == Endpoints(s.groups)
      && forall g :: g in s.groups ==> s.servers[g.endpoint] == Expected(s.published.value, g, s.searchTools)
  }

  ghost predicate Sound(s: State) {
    && (s.published.None? ==> s == Init)
    && (s.published.Some? ==>
          && s.initialised && ViewOk(s.published.value) && DistinctEndpoints(s.groups)
          && forall n :: n in s.sources ==> NotNamedSearch(s.sources[n].entries))
  }

  ghost predicate Invariant(s: State, pairs: set<(string, string)>) {
    Sound(s) && InStep(s) && (s.published.Some? ==> Pairs(s.groups) == pairs)
  }

  /** The diff turns the expected server of the old registry, or an empty new server, into
      the expected server of the new one. */
  lemma DiffReachesExpected(srv: Server, previous: Option<View>, view: View, g: Group,
                            newSearch: Option<map<string, nat>>, oldSearch: map<string, nat>)
    requires ViewOk(view)
    requires previous.Some? ==> ViewOk(previous.value) && srv == Expected(previous.value, g, oldSearch)
    requires previous.None? ==> srv == Server(map[], map[]) && g.endpoint !in oldSearch
    ensures ApplyServer(srv, previous, view, g, newSearch, oldSearch) ==
            Expected(view, g, if newSearch.Some? then newSearch.value else oldSearch)
  {
    var after := ApplyServer(srv, previous, view, g, newSearch, oldSearch);
    var want := Expected(view, g, if newSearch.Some? then newSearch.value else oldSearch);
    ToolsReachExpected(srv, previous, view, g, newSearch, oldSearch);
    assert after.resources == want.resources by {
      assert srv.resources.Keys <= UiUris(previous, g.name);
    }
  }

  lemma ToolsReachExpected(srv: Server, previous: Option<View>, view: View, g: Group,
                           newSearch: Option<map<string, nat>>, oldSearch: map<string, nat>)
    requires ViewOk(view)
    requires previous.Some? ==> ViewOk(previous.value) && srv == Expected(previous.value, g, oldSearch)
    requires previous.None? ==> srv == Server(map[], map[]) && g.endpoint !in oldSearch
    ensures ApplyTools(srv.tools, previous, view, g, newSearch, oldSearch) ==
            Expected(view, g, if newSearch.Some? then newSearch.value else oldSearch).tools
  {
    var base := if previous.Some? then Registrations(previous.value, g.name) else map[];
    var search :=
      if g.endpoint in oldSearch then map[SEARCH_TOOL := Searches(g.endpoint, oldSearch[g.endpoint])] else map[];
    var added := Registrations(view, g.name);
    assert srv.tools == base + search;
    assert added.Keys == MembersIn(Some(view), g.name);
    var members := MembersIn(previous, g.name);
    assert base.Keys <= members && SEARCH_TOOL !in members && SEARCH_TOOL !in added;
    hide Registrations, MembersIn, ViewOk;
    DiffKeepsSearch(base, search, members, added);
    SearchToolReplaced(added, search, SEARCH_TOOL);
  }

  /** Removing the names that went away and adding the current ones leaves exactly the
      current ones, beside whatever was kept apart from both. */
  lemma DiffKeepsSearch<V>(base: map<string, V>, apart: map<string, V>, oldNames: set<string>, added: map<string, V>)
    requires base.Keys <= oldNames && apart.Keys !! oldNames && apart.Keys !! added.Keys
    ensures (base + apart) - (oldNames - added.Keys) + added == added + apart
  {
    var after := (base + apart) - (oldNames - added.Keys) + added;
    assert after.Keys == added.Keys + apart.Keys;
    assert forall n :: n in after ==> after[n] == (if n in added then added[n] else apart[n]);
  }

  lemma SearchToolReplaced<V>(added: map<string, V>, search: map<string, V>, name: string)
    requires name !in added && search.Keys <= {name}
    ensures forall v :: (added + search)[name := v] == added + map[name := v]
    ensures (added + search) - {name} == added && added + map[] == added
    ensures search.Keys == {} ==> added + search == added
  {
    forall v: V ensures (added + search)[name := v] == added + map[name := v] {
      assert ((added + search)[name := v]).Keys == (added + map[name := v]).Keys;
    }
    assert ((added + search) - {name}).Keys == added.Keys;
  }

  /** The endpoints of the first `k` groups hold the given servers; no other was touched. */
  ghost predicate DoneUpTo(after: map<string, Server>, servers: map<string, Server>, groups: seq<Group>, k: nat,
                           done: seq<Server>)
    requires k <= |groups| == |done|
  {
    && after.Keys == servers.Keys + Endpoints(groups[..k])
    && (forall i :: 0 <= i < k ==> ServerAt(after, groups[i].endpoint) == done[i])
    && (forall e :: e !in Endpoints(groups[..k]) ==> ServerAt(after, e) == ServerAt(servers, e))
  }

  lemma DoneStep(before: map<string, Server>, servers: map<string, Server>, groups: seq<Group>, k: nat,
                 done: seq<Server>)
    requires DistinctEndpoints(groups) && k < |groups| == |done| && DoneUpTo(before, servers, groups, k, done)
    ensures DoneUpTo(before[groups[k].endpoint := done[k]], servers, groups, k + 1, done)
    ensures ServerAt(before, groups[k].endpoint) == ServerAt(servers, groups[k].endpoint)
  {
    var e := groups[k].endpoint;
    EndpointsStep(groups, k);
    hide DistinctEndpoints, Endpoints;
    var after := before[e := done[k]];
    assert forall x :: x != e ==> ServerAt(after, x) == ServerAt(before, x);
    assert ServerAt(after, e) == done[k];
  }

  lemma EndpointsStep(groups: seq<Group>, k: nat)
    requires DistinctEndpoints(groups) && k < |groups|
    ensures Endpoints(groups[..k + 1]) == Endpoints(groups[..k]) + {groups[k].endpoint}
    ensures groups[k].endpoint !in Endpoints(groups[..k])
    ensures forall i :: 0 <= i < k ==> groups[i].endpoint != groups[k].endpoint
  {
    assert groups[..k + 1] == groups[..k] + [groups[k]];
  }

  ghost function DoneServers(servers: map<string, Server>, previous: Option<View>, view: View, groups: seq<Group>,
                             newSearch: Option<map<string, nat>>, oldSearch: map<string, nat>): seq<Server> {
    seq(|groups|, i requires 0 <= i < |groups| =>
      ApplyServer(ServerAt(servers, groups[i].endpoint), previous, view, groups[i], newSearch, oldSearch))
  }

  lemma {:induction false} EachGroupApplied(servers: map<string, Server>, previous: Option<View>, view: View,
                                            groups: seq<Group>, k: nat,
                                            newSearch: Option<map<string, nat>>, oldSearch: map<string, nat>)
    requires DistinctEndpoints(groups) && k <= |groups|
    ensures DoneUpTo(ApplyServers(servers, previous, view, groups, k, newSearch, oldSearch), servers, groups, k,
                     DoneServers(servers, previous, view, groups, newSearch, oldSearch))
  {
    hide ApplyServer, ServerAt, DoneUpTo, DistinctEndpoints;
    var done := DoneServers(servers, previous, view, groups, newSearch, oldSearch);
    if k == 0 {
      DoneNone(servers, groups, done);
    } else {
      var before := ApplyServers(servers, previous, view, groups, k - 1, newSearch, oldSearch);
      var g := groups[k - 1];
      assert done[k - 1] == ApplyServer(ServerAt(servers, g.endpoint), previous, view, g, newSearch, oldSearch);
      assert ApplyServers(servers, previous, view, groups, k, newSearch, oldSearch) ==
             before[g.endpoint := ApplyServer(ServerAt(before, g.endpoint), previous, view, g, newSearch, oldSearch)];
      hide *;
      EachGroupApplied(servers, previous, view, groups, k - 1, newSearch, oldSearch);
      DoneStep(before, servers, groups, k - 1, done);
    }
  }

  lemma DoneNone(servers: map<string, Server>, groups: seq<Group>, done: seq<Server>)
    requires |groups| == |done|
    ensures DoneUpTo(servers, servers, groups, 0, done)
  {
  }

  /** Applying a new view to servers in step gives servers in step. */
  lemma ApplyKeepsStep(s: State, view: View, groups: seq<Group>, newSearch: Option<map<string, nat>>)
    requires InStep(s) && ViewOk(view) && DistinctEndpoints(groups)
    requires s.published.None? ==> s == Init
    requires s.published.Some? ==> ViewOk(s.published.value) && Pairs(s.groups) == Pairs(groups)
    ensures var servers := ApplyServers(s.servers, s.published, view, groups, |groups|, newSearch, s.searchTools);
            && servers.Keys == Endpoints(groups)
            && forall g :: g in groups ==>
                 servers[g.endpoint] == Expected(view, g, if newSearch.Some? then newSearch.value else s.searchTools)
  {
    hide ApplyServer, ApplyServers, Expected, DistinctEndpoints;
    EachGroupApplied(s.servers, s.published, view, groups, |groups|, newSearch, s.searchTools);
    assert groups[..|groups|] == groups;
    if s.published.Some? {
      SamePairsSameEndpoints(s.groups, groups);
    }
    forall i | 0 <= i < |groups|
      ensures ApplyServer(ServerAt(s.servers, groups[i].endpoint), s.published, view, groups[i], newSearch,
                          s.searchTools) ==
              Expected(view, groups[i], if newSearch.Some? then newSearch.value else s.searchTools)
    {
      ServerBefore(s, groups[i], groups);
      DiffReachesExpected(ServerAt(s.servers, groups[i].endpoint), s.published, view, groups[i], newSearch,
                          s.searchTools);
    }
  }

  lemma ServerBefore(s: State, g: Group, groups: seq<Group>)
    requires InStep(s) && g in groups
    requires s.published.None? ==> s == Init
    requires s.published.Some? ==> Pairs(s.groups) == Pairs(groups)
    ensures s.published.Some? ==> ServerAt(s.servers, g.endpoint) == Expected(s.published.value, g, s.searchTools)
    ensures s.published.None? ==>
              ServerAt(s.servers, g.endpoint) == Server(map[], map[]) && g.endpoint !in s.searchTools
  {
    if s.published.Some? {
      assert (g.name, g.endpoint) in Pairs(groups);
      var h :| h in s.groups && h.name == g.name && h.endpoint == g.endpoint;
      assert s.servers[h.endpoint] == Expected(s.published.value, h, s.searchTools);
    }
  }

  lemma SamePairsSameEndpoints(a: seq<Group>, b: seq<Group>)
    requires Pairs(a) == Pairs(b)
    ensures Endpoints(a) == Endpoints(b)
  {
    forall e ensures e in Endpoints(a) <==> e in Endpoints(b) {
      if e in Endpoints(a) {
        var g :| g in a && g.endpoint == e;
        assert (g.name, g.endpoint) in Pairs(b);
      }
      if e in Endpoints(b) {
        var g :| g in b && g.endpoint == e;
        assert (g.name, g.endpoint) in Pairs(a);
      }
    }
  }

  lemma {:induction false} GroupsOfListWithin(ups: seq<Upstream>, groups: seq<Group>, k: nat)
    requires k <= |groups|
    ensures forall g :: g in GroupsOfList(ups, groups, k) ==> GroupsOfList(ups, groups, k)[g] <= NamesIn(Flat(ups))
  {
    if k > 0 {
      GroupsOfListWithin(ups, groups, k - 1);
      var g := groups[k - 1];
      forall x | x in MembersOfList(ups, g.upstreams, FilterOf(groups, g.name)) ensures x in NamesIn(Flat(ups)) {
        var u, e :| u in ups && e in u.entries && e.name == x;
        InFlat(ups, u, e);
      }
    }
  }

  lemma {:induction false} GroupsOfWithin(src: map<string, Source>, groups: seq<Group>, k: nat)
    requires k <= |groups|
    ensures forall g :: g in GroupsOf(src, groups, k) ==> GroupsOf(src, groups, k)[g] <= SourceNames(src)
  {
    if k > 0 {
      GroupsOfWithin(src, groups, k - 1);
      var g := groups[k - 1];
      forall x | x in Members(src, g.upstreams, FilterOf(groups, g.name)) ensures x in SourceNames(src) {
        var n, e :| n in src && e in src[n].entries && e.name == x;
        assert e in EntrySet(src);
      }
    }
  }

  lemma ListViewOk(ups: seq<Upstream>, groups: seq<Group>)
    requires NotNamedSearch(Flat(ups))
    ensures ViewOk(ListView(ups, groups))
  {
    GroupsOfListWithin(ups, groups, |groups|);
  }

  lemma FullViewOk(src: map<string, Source>, groups: seq<Group>)
    requires forall n :: n in src ==> NotNamedSearch(src[n].entries)
    ensures ViewOk(FullView(src, groups))
  {
    GroupsOfWithin(src, groups, |groups|);
  }

  lemma {:induction false} NamedWithin(ups: seq<Upstream>, name: string)
    ensures forall e :: e in EntriesNamed(ups, name) ==> e in Flat(ups)
  {
    if ups != [] {
      NamedWithin(ups[..|ups| - 1], name);
    }
  }

  lemma RepublishKeepsSound(s: State)
    requires Sound(s) && s.initialised
    ensures Sound(Republished(s)) && Republished(s).groups == s.groups
    ensures InStep(s) ==> InStep(Republished(s))
  {
    if Buildable(s.sources, s.groups) {
      FullViewOk(s.sources, s.groups);
      if InStep(s) {
        ApplyKeepsStep(s, FullView(s.sources, s.groups), s.groups, None);
      }
    }
  }

  /** An update or a removal, successful or not, keeps the servers in step and the groups as
      they are; before the first reload it does nothing. */
  lemma IncrementalKeepsStep(s: State, op: Op)
    requires Sound(s) && Plain(op) && !op.Rebuild?
    ensures Sound(Step(s, op)) && Step(s, op).groups == s.groups
    ensures s.published.Some? <==> Step(s, op).published.Some?
    ensures InStep(s) ==> InStep(Step(s, op))
  {
    match op {
      case UpdateUpstream(name, entries, root) =>
        if s.initialised {
          RepublishKeepsSound(s.(sources := s.sources[name := Source(entries, root)]));
        }
      case RemoveUpstream(name) =>
        if RemoveSucceeds(s, name) {
          RepublishKeepsSound(s.(sources := s.sources - {name}));
        }
    }
  }

  lemma ReloadKeepsSound(s: State, config: Config)
    requires Sound(s) && Plain(Rebuild(config))
    ensures Sound(AfterRebuild(s, config))
  {
    if Accepts(config) {
      ListViewOk(config.Built(), EffectiveGroups(config));
      forall n | n in StateOf(config.Built()) ensures NotNamedSearch(StateOf(config.Built())[n].entries) {
        NamedWithin(config.Built(), n);
      }
    }
  }

  lemma StepKeepsInvariant(s: State, op: Op, pairs: set<(string, string)>)
    requires Invariant(s, pairs) && Respects(op, pairs)
    ensures Invariant(Step(s, op), pairs)
  {
    match op {
      case Rebuild(config) =>
        ReloadKeepsSound(s, config);
        if Accepts(config) {
          var groups := EffectiveGroups(config);
          ListViewOk(config.Built(), groups);
          ApplyKeepsStep(s, ListView(config.Built(), groups), groups, Some(SearchState(config.search, groups)));
        }
      case _ => IncrementalKeepsStep(s, op);
    }
  }

  /** In every run of reloads, updates and removals, successful or not, that keeps the
      groups' pairs, the servers are exactly those of the groups and each holds exactly the
      published tools of its group with their current definitions and limits, the search
      tool exactly when search is on there, and the pages of the tools that have one. */
  lemma {:induction false} ServersFollowRegistry(ops: seq<Op>, pairs: set<(string, string)>)
    requires forall op :: op in ops ==> Respects(op, pairs)
    ensures Invariant(Run(Init, ops), pairs)
  {
    if ops != [] {
      ServersFollowRegistry(ops[..|ops| - 1], pairs);
      StepKeepsInvariant(Run(Init, ops[..|ops| - 1]), ops[|ops| - 1], pairs);
    }
  }
}
