/** What a reload makes of groups that share an endpoint, and so a server
    (pkg/mcp/manager.go): each takes its turn at the diff, and the last one need not win. */
module SharedEndpoints {
  import opened Json
  import opened Registry
  import opened ServerSync
  import opened ReloadSync

  /** What each group has in a registry: its tools, or its pages. */
  function ToolsIn(view: Option<View>): string -> set<string> { group => MembersIn(view, group) }

  function PagesIn(view: Option<View>): string -> set<string> { group => UiUris(view, group) }

  /** What an endpoint's server holds after the groups there took their turns, each removing
      what it lost and adding what it has; the search tool aside. */
  function Held(was: string -> set<string>, now: string -> set<string>, groups: seq<Group>, endpoint: string,
                start: set<string>): set<string> {
    if groups == [] then start
    else
      var g := groups[|groups| - 1];
      var held := Held(was, now, groups[..|groups| - 1], endpoint, start);
      if g.endpoint != endpoint then held else (held - (was(g.name) - now(g.name))) + now(g.name)
  }

  /** A group of the endpoint loses the name. */
  predicate Loses(was: string -> set<string>, now: string -> set<string>, g: Group, endpoint: string, n: string) {
    g.endpoint == endpoint && n in was(g.name) && n !in now(g.name)
  }

  /** A name is held if and only if it was there at the start or some group there has it now,
      and no later group loses it. */
  lemma {:induction false} HeldIff(was: string -> set<string>, now: string -> set<string>, groups: seq<Group>,
                                   endpoint: string,
                                   start: set<string>, n: string)
    ensures n in Held(was, now, groups, endpoint, start) <==>
            || (n in start && forall j :: 0 <= j < |groups| ==> !Loses(was, now, groups[j], endpoint, n))
            || exists i :: 0 <= i < |groups| && groups[i].endpoint == endpoint && n in now(groups[i].name) &&
                           forall j :: i < j < |groups| ==> !Loses(was, now, groups[j], endpoint, n)
  {
    if groups != [] {
      var k := |groups| - 1;
      var init, g := groups[..k], groups[k];
      HeldIff(was, now, init, endpoint, start, n);
      assert forall j :: 0 <= j < k ==> init[j] == groups[j];
      if n in Held(was, now, groups, endpoint, start) && !(g.endpoint == endpoint && n in now(g.name)) {
        assert n in Held(was, now, init, endpoint, start) && !Loses(was, now, g, endpoint, n);
        if i :| 0 <= i < |init| && init[i].endpoint == endpoint && n in now(init[i].name) &&
                forall j :: i < j < |init| ==> !Loses(was, now, init[j], endpoint, n) {
          assert groups[i].endpoint == endpoint && n in now(groups[i].name);
        }
      }
      if i :| 0 <= i < |groups| && groups[i].endpoint == endpoint && n in now(groups[i].name) &&
              forall j :: i < j < |groups| ==> !Loses(was, now, groups[j], endpoint, n) {
        if i < k {
          assert init[i].endpoint == endpoint && n in now(init[i].name);
          assert !Loses(was, now, groups[k], endpoint, n);
        }
      }
    }
  }

  ghost predicate SearchManaged(endpoint: string, search: map<string, nat>, oldSearch: map<string, nat>, n: string) {
    n == SEARCH_TOOL && (endpoint in search || endpoint in oldSearch)
  }

  /** The server of an endpoint after the first `k` groups of a reload. */
  ghost function ServerAfterGroups(s: State, view: View, groups: seq<Group>, k: nat, search: map<string, nat>,
                                   endpoint: string): Server
    requires k <= |groups|
  {
    ServerAt(ApplyServers(s.servers, s.published, view, groups, k, Some(search), s.searchTools), endpoint)
  }

  lemma ServerAfterOneMore(s: State, view: View, groups: seq<Group>, k: nat, search: map<string, nat>, endpoint: string)
    requires 0 < k <= |groups|
    ensures var g, before := groups[k - 1], ServerAfterGroups(s, view, groups, k - 1, search, endpoint);
            ServerAfterGroups(s, view, groups, k, search, endpoint) ==
            if g.endpoint != endpoint then before
            else ApplyServer(before, s.published, view, g, Some(search), s.searchTools)
  {
    hide ApplyServer;
  }

  lemma {:induction false} HeldByServer(s: State, view: View, groups: seq<Group>, k: nat, search: map<string, nat>,
                                        endpoint: string)
    requires ViewOk(view) && k <= |groups|
    ensures var srv, start := ServerAfterGroups(s, view, groups, k, search, endpoint), ServerAt(s.servers, endpoint);
            && (forall n :: !SearchManaged(endpoint, search, s.searchTools, n) ==>
                  (n in srv.tools <==>
                   n in Held(ToolsIn(s.published), ToolsIn(Some(view)), groups[..k], endpoint, start.tools.Keys)))
            && srv.resources.Keys ==
               Held(PagesIn(s.published), PagesIn(Some(view)), groups[..k], endpoint, start.resources.Keys)
  {
    if k > 0 {
      var before := ServerAfterGroups(s, view, groups, k - 1, search, endpoint);
      var g := groups[k - 1];
      assert groups[..k][..k - 1] == groups[..k - 1];
      ServerAfterOneMore(s, view, groups, k, search, endpoint);
      hide ServerAfterGroups, ViewOk;
      HeldByServer(s, view, groups, k - 1, search, endpoint);
      if g.endpoint == endpoint {
        TurnKeys(before, s.published, view, g, search, s.searchTools);
      }
      hide UiUris, MembersIn, ApplyServer;
    }
  }

  lemma TurnKeys(srv: Server, previous: Option<View>, view: View, g: Group, search: map<string, nat>,
                 oldSearch: map<string, nat>)
    requires ViewOk(view)
    ensures var after := ApplyServer(srv, previous, view, g, Some(search), oldSearch);
            && (forall n :: !SearchManaged(g.endpoint, search, oldSearch, n) ==>
                  (n in after.tools <==>
                   n in (srv.tools.Keys - (MembersIn(previous, g.name) - MembersIn(Some(view), g.name))) +
                     MembersIn(Some(view), g.name)))
            && after.resources.Keys ==
               (srv.resources.Keys - (UiUris(previous, g.name) - UiUris(Some(view), g.name))) +
                 UiUris(Some(view), g.name)
  {
    WantedKeys(view, g, search);
    DiffKeys(srv.tools, previous, view, g, search, oldSearch);
    var added := GroupResources(view, g.name);
    assert added.Keys == UiUris(Some(view), g.name);
    hide Registrations, UiUris, GroupResources, ViewOk, MembersIn;
    DiffedKeys(srv.resources, UiUris(previous, g.name) - UiUris(Some(view), g.name), added);
  }

  /** Whatever the servers held before, a reload leaves the server of an endpoint, however
      many groups share it, as the last of them wants it if and only if every tool and page
      still held there after all turns is one of the last group's. */
  lemma SharedServerIff(s: State, view: View, groups: seq<Group>, last: nat, search: map<string, nat>)
    requires ViewOk(view) && last < |groups|
    requires forall j :: last < j < |groups| ==> groups[j].endpoint != groups[last].endpoint
    ensures var g, start := groups[last], ServerAt(s.servers, groups[last].endpoint);
            ServerAfterGroups(s, view, groups, |groups|, search, g.endpoint) == Expected(view, g, search) <==>
            && (forall n ::
                n in Held(ToolsIn(s.published), ToolsIn(Some(view)), groups, g.endpoint, start.tools.Keys) ==>
                  n in MembersIn(Some(view), g.name) || SearchManaged(g.endpoint, search, s.searchTools, n))
            && Held(PagesIn(s.published), PagesIn(Some(view)), groups, g.endpoint, start.resources.Keys) <=
               UiUris(Some(view), g.name)
  {
    var g, start := groups[last], ServerAt(s.servers, groups[last].endpoint);
    var before := ServerAfterGroups(s, view, groups, last, search, g.endpoint);
    LastTurn(s, view, groups, last, |groups|, search);
    HeldAtLast(ToolsIn(s.published), ToolsIn(Some(view)), groups, last, |groups|, start.tools.Keys);
    HeldAtLast(PagesIn(s.published), PagesIn(Some(view)), groups, last, |groups|, start.resources.Keys);
    HeldByServer(s, view, groups, last, search, g.endpoint);
    DiffExact(before.tools, s.published, view, g, search, s.searchTools);
    PagesExact(before.resources, s.published, view, g.name);
    assert groups[..|groups|] == groups;
    hide ServerAfterGroups, ApplyTools, ApplyResources, GroupResources, Registrations, Held, UiUris, MembersIn, ViewOk;
  }

  lemma {:induction false} LastTurn(s: State, view: View, groups: seq<Group>, last: nat, k: nat,
                                    search: map<string, nat>)
    requires last < k <= |groups|
    requires forall j :: last < j < k ==> groups[j].endpoint != groups[last].endpoint
    ensures var g := groups[last];
            ServerAfterGroups(s, view, groups, k, search, g.endpoint) ==
            ApplyServer(ServerAfterGroups(s, view, groups, last, search, g.endpoint), s.published, view, g,
                        Some(search), s.searchTools)
  {
    ServerAfterOneMore(s, view, groups, k, search, groups[last].endpoint);
    hide ServerAfterGroups, ApplyServer;
    if k > last + 1 {
      LastTurn(s, view, groups, last, k - 1, search);
    }
  }

  lemma {:induction false} HeldAtLast(was: string -> set<string>, now: string -> set<string>, groups: seq<Group>,
                                      last: nat, k: nat,
                                      start: set<string>)
    requires last < k <= |groups|
    requires forall j :: last < j < k ==> groups[j].endpoint != groups[last].endpoint
    ensures var g := groups[last];
            Held(was, now, groups[..k], g.endpoint, start) ==
            (Held(was, now, groups[..last], g.endpoint, start) - (was(g.name) - now(g.name))) + now(g.name)
  {
    assert groups[..k][..k - 1] == groups[..k - 1];
    if k > last + 1 {
      HeldAtLast(was, now, groups, last, k - 1, start);
    }
  }

  /** Two groups of one endpoint want the same server if and only if they have one name, or
      neither has a tool. */
  lemma SameWantedIff(view: View, g: Group, h: Group, search: map<string, nat>)
    requires ViewOk(view) && g.endpoint == h.endpoint
    ensures Expected(view, g, search) == Expected(view, h, search) <==>
            g.name == h.name || (MembersIn(Some(view), g.name) == {} && MembersIn(Some(view), h.name) == {})
  {
    var a, b := Expected(view, g, search), Expected(view, h, search);
    WantedKeys(view, g, search);
    WantedKeys(view, h, search);
    if g.name != h.name {
      if n :| n in MembersIn(Some(view), g.name) {
        assert a.tools[n] == Registrations(view, g.name)[n];
        assert n in b.tools ==> b.tools[n] == Registrations(view, h.name)[n];
      }
      if n :| n in MembersIn(Some(view), h.name) {
        assert b.tools[n] == Registrations(view, h.name)[n];
        assert n in a.tools ==> a.tools[n] == Registrations(view, g.name)[n];
      }
      if MembersIn(Some(view), g.name) == {} && MembersIn(Some(view), h.name) == {} {
        assert a.resources.Keys == {} && b.resources.Keys == {};
      }
    }
  }

  /** With nothing held before and nothing lost, what is held is what the groups there have. */
  lemma HeldAtFirst(was: string -> set<string>, now: string -> set<string>, groups: seq<Group>, endpoint: string)
    requires forall g :: was(g) == {}
    ensures forall n :: n in Held(was, now, groups, endpoint, {}) <==>
                        exists h :: h in groups && h.endpoint == endpoint && n in now(h.name)
  {
    forall n
      ensures n in Held(was, now, groups, endpoint, {}) <==>
              exists h :: h in groups && h.endpoint == endpoint && n in now(h.name)
    {
      HeldIff(was, now, groups, endpoint, {}, n);
      if h :| h in groups && h.endpoint == endpoint && n in now(h.name) {
        var i :| 0 <= i < |groups| && groups[i] == h;
        assert forall j :: i < j < |groups| ==> !Loses(was, now, groups[j], endpoint, n);
      }
    }
  }

  /** Every group of the endpoint has only tools of the given one. */
  ghost predicate OnlyToolsOf(view: View, groups: seq<Group>, g: Group) {
    forall h :: h in groups && h.endpoint == g.endpoint ==>
      MembersIn(Some(view), h.name) <= MembersIn(Some(view), g.name)
  }

  lemma FirstTools(view: View, groups: seq<Group>, g: Group, search: map<string, nat>, oldSearch: map<string, nat>)
    requires ViewOk(view)
    ensures (forall n :: n in Held(ToolsIn(None), ToolsIn(Some(view)), groups, g.endpoint, {}) ==>
               n in MembersIn(Some(view), g.name) || SearchManaged(g.endpoint, search, oldSearch, n)) <==>
            OnlyToolsOf(view, groups, g)
  {
    HeldAtFirst(ToolsIn(None), ToolsIn(Some(view)), groups, g.endpoint);
    NotSearch(view);
    var tools := Held(ToolsIn(None), ToolsIn(Some(view)), groups, g.endpoint, {});
    hide Held, MembersIn, ViewOk;
    forall h, n | h in groups && h.endpoint == g.endpoint && n in MembersIn(Some(view), h.name)
      ensures n in tools && n != SEARCH_TOOL
    {
      assert n in ToolsIn(Some(view))(h.name);
    }
  }

  lemma FirstPages(view: View, groups: seq<Group>, g: Group)
    requires OnlyToolsOf(view, groups, g)
    ensures Held(PagesIn(None), PagesIn(Some(view)), groups, g.endpoint, {}) <= UiUris(Some(view), g.name)
  {
    HeldAtFirst(PagesIn(None), PagesIn(Some(view)), groups, g.endpoint);
    PagesFollowTools(view);
    var pages := Held(PagesIn(None), PagesIn(Some(view)), groups, g.endpoint, {});
    hide Held, UiUris, MembersIn;
    forall u | u in pages ensures u in UiUris(Some(view), g.name) {
      var h :| h in groups && h.endpoint == g.endpoint && u in PagesIn(Some(view))(h.name);
      assert UiUris(Some(view), h.name) <= UiUris(Some(view), g.name);
    }
  }

  /** After a first reload, a shared server is as its last group wants it if and only if every
      other group there has only tools of the last one. */
  lemma FirstReloadSharedIff(view: View, groups: seq<Group>, last: nat, search: map<string, nat>)
    requires ViewOk(view) && last < |groups|
    requires forall j :: last < j < |groups| ==> groups[j].endpoint != groups[last].endpoint
    ensures ServerAfterGroups(Init, view, groups, |groups|, search, groups[last].endpoint) ==
            Expected(view, groups[last], search) <==>
            OnlyToolsOf(view, groups, groups[last])
  {
    var g := groups[last];
    var start := ServerAt(Init.servers, g.endpoint);
    assert start.tools.Keys == {} && start.resources.Keys == {};
    assert Init.published == None;
    hide *;
    SharedServerIff(Init, view, groups, last, search);
    FirstTools(view, groups, g, search, Init.searchTools);
    if OnlyToolsOf(view, groups, g) {
      FirstPages(view, groups, g);
    }
  }

  lemma NotSearch(view: View)
    requires ViewOk(view)
    ensures forall g :: SEARCH_TOOL !in MembersIn(Some(view), g)
  {
  }

  lemma PagesFollowTools(view: View)
    ensures forall g, h :: MembersIn(Some(view), h) <= MembersIn(Some(view), g) ==>
              UiUris(Some(view), h) <= UiUris(Some(view), g)
  {
  }

  lemma {:induction false} ServersOfGroups(s: State, view: View, groups: seq<Group>, k: nat,
                                    search: map<string, nat>)
    requires k <= |groups|
    ensures ApplyServers(s.servers, s.published, view, groups, k, Some(search), s.searchTools).Keys ==
            s.servers.Keys + Endpoints(groups[..k])
  {
    hide ApplyServer, Endpoints;
    EndpointsUpTo(groups, k);
    if k > 0 {
      ServersOfGroups(s, view, groups, k - 1, search);
    }
  }

  lemma EndpointsUpTo(groups: seq<Group>, k: nat)
    requires k <= |groups|
    ensures k == 0 ==> Endpoints(groups[..k]) == {}
    ensures k > 0 ==> Endpoints(groups[..k]) == Endpoints(groups[..k - 1]) + {groups[k - 1].endpoint}
  {
    if k > 0 {
      assert groups[..k] == groups[..k - 1] + [groups[k - 1]];
    }
  }

  lemma LastAtEndpoint(groups: seq<Group>, i: nat) returns (last: nat)
    requires i < |groups|
    ensures last < |groups| && groups[last].endpoint == groups[i].endpoint
    ensures forall j :: last < j < |groups| ==> groups[j].endpoint != groups[last].endpoint
    decreases |groups| - i
  {
    last := i;
    if j :| i < j < |groups| && groups[j].endpoint == groups[i].endpoint {
      last := LastAtEndpoint(groups, j);
    }
  }

  /** Groups that share an endpoint have one name, or no tools. */
  ghost predicate SharersAgree(view: View, groups: seq<Group>) {
    forall g, h :: g in groups && h in groups && g.endpoint == h.endpoint ==>
      g.name == h.name || (MembersIn(Some(view), g.name) == {} && MembersIn(Some(view), h.name) == {})
  }

  /** With or without distinct endpoints, a first reload leaves the servers in step if and
      only if the groups that share one have one name, or no tools. */
  lemma FirstReloadInStepIff(config: Config)
    requires Accepts(config) && NotNamedSearch(Flat(config.Built()))
    ensures var groups := EffectiveGroups(config);
            InStep(AfterRebuild(Init, config)) <==> SharersAgree(ListView(config.Built(), groups), groups)
  {
    var groups := EffectiveGroups(config);
    var view, search := ListView(config.Built(), groups), SearchState(config.search, groups);
    var after := AfterRebuild(Init, config);
    ListViewOk(config.Built(), groups);
    ServersOfGroups(Init, view, groups, |groups|, search);
    assert groups[..|groups|] == groups;
    InStepIs(after, view, groups, search);
    assert after.servers ==
           ApplyServers(Init.servers, Init.published, view, groups, |groups|, Some(search), Init.searchTools);
    hide *;
    if SharersAgree(view, groups) {
      forall g | g in groups ensures after.servers[g.endpoint] == Expected(view, g, search) {
        var i :| 0 <= i < |groups| && groups[i] == g;
        var last := LastAtEndpoint(groups, i);
        WantedBySharers(view, groups, groups[last], search);
        FirstReloadSharedIff(view, groups, last, search);
        FoundServer(after.servers, view, groups, search, g.endpoint);
      }
    }
    if InStep(after) {
      WantsAgree(after.servers, view, groups, search);
    }
  }

  lemma WantedBySharers(view: View, groups: seq<Group>, g: Group, search: map<string, nat>)
    requires ViewOk(view) && SharersAgree(view, groups) && g in groups
    ensures OnlyToolsOf(view, groups, g)
    ensures forall h :: h in groups && h.endpoint == g.endpoint ==>
              Expected(view, h, search) == Expected(view, g, search)
  {
    forall h | h in groups && h.endpoint == g.endpoint
      ensures MembersIn(Some(view), h.name) <= MembersIn(Some(view), g.name)
      ensures Expected(view, h, search) == Expected(view, g, search)
    {
      SameWantedIff(view, h, g, search);
    }
  }

  lemma FoundServer(servers: map<string, Server>, view: View, groups: seq<Group>, search: map<string, nat>,
                    endpoint: string)
    requires servers == ApplyServers(map[], None, view, groups, |groups|, Some(search), map[]) && endpoint in servers
    ensures servers[endpoint] == ServerAfterGroups(Init, view, groups, |groups|, search, endpoint)
  {
    hide ApplyServers;
  }

  lemma WantsAgree(servers: map<string, Server>, view: View, groups: seq<Group>, search: map<string, nat>)
    requires ViewOk(view) && forall g :: g in groups ==>
               g.endpoint in servers && servers[g.endpoint] == Expected(view, g, search)
    ensures SharersAgree(view, groups)
  {
    hide Expected, ViewOk, MembersIn;
    forall g, h | g in groups && h in groups && g.endpoint == h.endpoint
      ensures g.name == h.name || (MembersIn(Some(view), g.name) == {} && MembersIn(Some(view), h.name) == {})
    {
      SameWantedIff(view, g, h, search);
    }
  }
}
