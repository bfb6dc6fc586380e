/** The immutable tool registry (pkg/upstream/registry.go): its two constructors, and the
    order-free view on which they agree. */
module Registry {
  import opened Json

  /** A tool as an MCP client sees it. */
  datatype Tool = Tool(name: string, definition: string)

  /** What an upstream contributes for one tool. The MCP tool carries the prefixed name, as
      every builder makes it. `node` is the operation's node in the spec tree, `ui` the
      handler that serves its page, `breaker` the policy of the circuit breaker its calls go
      through. */
  datatype Entry = Entry(name: string, definition: string, path: string, httpMethod: string, node: Option<nat>,
                         ui: Option<string>, rateLimit: string, cacheName: string, breaker: string)
  {
    function AsTool(): Tool {
      Tool(name, definition)
    }
  }

  /** A validated upstream; `root` is its parsed spec tree. */
  datatype Upstream = Upstream(name: string, toolPrefix: string, entries: seq<Entry>, root: Option<nat>)

  /** The same without its name and prefix, as kept for incremental rebuilds. */
  datatype Source = Source(entries: seq<Entry>, root: Option<nat>)

  /** A JSONPath filter, represented by the nodes it selects in each spec tree. */
  datatype Filter = NoFilter | BadFilter | Selects(nodes: map<nat, set<nat>>)

  datatype Group = Group(name: string, endpoint: string, upstreams: seq<string>, filter: Filter)

  datatype GroupData = GroupData(toolList: seq<Tool>, toolSet: set<string>)

  datatype Registry = Registry(byName: map<string, Entry>, byUpstream: map<string, seq<Entry>>,
                               rootByName: map<string, Option<nat>>, toolList: seq<Tool>,
                               groups: map<string, GroupData>)
  {
    function ToolsForGroup(group: string): seq<Tool> {
      if group in groups then groups[group].toolList else []
    }

    function EntriesForUpstream(name: string): seq<Entry> {
      if name in byUpstream then byUpstream[name] else []
    }

    function SpecRootForUpstream(name: string): Option<nat> {
      if name in rootByName then rootByName[name] else None
    }

    /** The tool list names every indexed entry once, and each group lists its own tools
        in that order. */
    ghost predicate Valid() {
      && (forall i, j :: 0 <= i < j < |toolList| ==> toolList[i].name != toolList[j].name)
      && (forall t :: t in toolList ==> t.name in byName && byName[t.name].AsTool() == t)
      && (forall n :: n in byName ==> byName[n].name == n && byName[n].AsTool() in toolList)
      && (forall g :: g in groups ==> groups[g].toolSet <= byName.Keys)
      && (forall g :: g in groups ==> groups[g].toolList == FilterTools(toolList, groups[g].toolSet))
    }

    ghost function AsView(): View {
      View(byName, map g | g in groups :: groups[g].toolSet)
    }
  }

  /** The part of a registry that does not depend on the order maps were walked in. */
  datatype View = View(index: map<string, Entry>, members: map<string, set<string>>)

  datatype Error = SharedPrefix | NameConflict(name: string) | InvalidFilter(group: string)

  datatype Result<+T> = Ok(value: T) | Err(error: Error)

  function FilterTools(tools: seq<Tool>, names: set<string>): seq<Tool> {
    if tools == [] then []
    else FilterTools(tools[..|tools| - 1], names) +
         (if tools[|tools| - 1].name in names then [tools[|tools| - 1]] else [])
  }

  /** Filtering keeps the order: that of a list is that of its parts, one after the other, and
      of one tool it keeps the tool or nothing. */
  lemma {:induction false} FilterKeepsOrder(a: seq<Tool>, b: seq<Tool>, names: set<string>)
    ensures FilterTools(a + b, names) == FilterTools(a, names) + FilterTools(b, names)
    ensures |b| == 1 ==> FilterTools(b, names) == if b[0].name in names then b else []
    decreases |b|
  {
    if b == [] {
      assert a + b == a;
      FilterNothing(names);
    } else {
      hide *;
      var init, last := b[..|b| - 1], b[|b| - 1];
      FilterKeepsOrder(a, init, names);
      FilterLast(a + b, names);
      FilterLast(b, names);
      FilterNothing(names);
      assert (a + b)[..|a + b| - 1] == a + init;
      assert |b| == 1 ==> init == [] && b == [last];
    }
  }

  lemma FilterNothing(names: set<string>)
    ensures FilterTools([], names) == []
  {
  }

  lemma FilterLast(tools: seq<Tool>, names: set<string>)
    requires tools != []
    ensures var init, last := tools[..|tools| - 1], tools[|tools| - 1];
            FilterTools(tools, names) == FilterTools(init, names) + if last.name in names then [last] else []
  {
  }

  // ---------- What the constructors promise ----------

  /** All entries in registration order. */
  function Flat(ups: seq<Upstream>): seq<Entry> {
    if ups == [] then [] else Flat(ups[..|ups| - 1]) + ups[|ups| - 1].entries
  }

  function ToolsOf(entries: seq<Entry>): (tools: seq<Tool>)
    ensures |tools| == |entries|
    ensures forall i :: 0 <= i < |entries| ==> tools[i] == entries[i].AsTool()
  {
    seq(|entries|, i requires 0 <= i < |entries| => entries[i].AsTool())
  }

  function NamesIn(entries: seq<Entry>): set<string> {
    set e | e in entries :: e.name
  }

  ghost predicate DistinctNames(entries: seq<Entry>) {
    forall i, j :: 0 <= i < j < |entries| ==> entries[i].name != entries[j].name
  }

  /** `index` maps the name of every entry to that entry, and nothing else. */
  ghost predicate Indexes(index: map<string, Entry>, entries: set<Entry>) {
    && (forall e :: e in entries ==> e.name in index && index[e.name] == e)
    && (forall n :: n in index ==> index[n] in entries && index[n].name == n)
  }

  predicate Passes(filter: Option<map<nat, set<nat>>>, e: Entry, root: Option<nat>) {
    filter.None? || e.node.None? ||
    (root.Some? && root.value in filter.value && e.node.value in filter.value[root.value])
  }

  /** Filters are compiled into a table keyed by group name, so the last group of a name
      that has a filter decides for all groups of that name. */
  function FilterOf(groups: seq<Group>, name: string): Option<map<nat, set<nat>>> {
    if groups == [] then None
    else
      var g := groups[|groups| - 1];
      if g.name == name && g.filter.Selects? then Some(g.filter.nodes)
      else FilterOf(groups[..|groups| - 1], name)
  }

  predicate FiltersValid(groups: seq<Group>) {
    forall g :: g in groups ==> g.filter != BadFilter
  }

  function MembersOfList(ups: seq<Upstream>, names: seq<string>,
                    filter: Option<map<nat, set<nat>>>): set<string> {
    set u, e | u in ups && u.name in names && e in u.entries && Passes(filter, e, u.root) :: e.name
  }

  function Members(src: map<string, Source>, names: seq<string>,
                    filter: Option<map<nat, set<nat>>>): set<string> {
    set n, e | n in src && n in names && e in src[n].entries && Passes(filter, e, src[n].root) :: e.name
  }

  /** Group membership after the first `k` groups were entered under their names. */
  function GroupsOfList(ups: seq<Upstream>, groups: seq<Group>, k: nat): map<string, set<string>>
    requires k <= |groups|
  {
    if k == 0 then map[]
    else
      var g := groups[k - 1];
      GroupsOfList(ups, groups, k - 1)[g.name := MembersOfList(ups, g.upstreams, FilterOf(groups, g.name))]
  }

  function GroupsOf(src: map<string, Source>, groups: seq<Group>, k: nat): map<string, set<string>>
    requires k <= |groups|
  {
    if k == 0 then map[]
    else
      var g := groups[k - 1];
      GroupsOf(src, groups, k - 1)[g.name := Members(src, g.upstreams, FilterOf(groups, g.name))]
  }

  ghost function EntrySet(src: map<string, Source>): set<Entry> {
    set n, e | n in src && e in src[n].entries :: e
  }

  /** No two entries of the sources share a name. */
  ghost predicate ConflictFree(src: map<string, Source>) {
    && (forall n :: n in src ==> DistinctNames(src[n].entries))
    && (forall m, n :: m in src && n in src && m != n ==> NamesIn(src[m].entries) !! NamesIn(src[n].entries))
  }

  ghost predicate Buildable(src: map<string, Source>, groups: seq<Group>) {
    ConflictFree(src) && FiltersValid(groups)
  }

  ghost function EntryIn(entries: seq<Entry>, name: string): Entry
    requires name in NamesIn(entries)
  {
    var e :| e in entries && e.name == name; e
  }

  /** The index and membership of the registry a reload builds. */
  ghost function ListView(ups: seq<Upstream>, groups: seq<Group>): View {
    View(map n | n in NamesIn(Flat(ups)) :: EntryIn(Flat(ups), n), GroupsOfList(ups, groups, |groups|))
  }

  ghost function SourceNames(src: map<string, Source>): set<string> {
    set e | e in EntrySet(src) :: e.name
  }

  ghost function EntryNamed(src: map<string, Source>, name: string): Entry
    requires name in SourceNames(src)
  {
    var e :| e in EntrySet(src) && e.name == name; e
  }

  ghost function Index(src: map<string, Source>): map<string, Entry> {
    map n | n in SourceNames(src) :: EntryNamed(src, n)
  }

  /** The view of the registry built from scratch out of the sources. */
  ghost function FullView(src: map<string, Source>, groups: seq<Group>): View {
    View(Index(src), GroupsOf(src, groups, |groups|))
  }

  ghost predicate PrefixesDistinct(ups: seq<Upstream>) {
    forall i, j :: 0 <= i < j < |ups| ==> ups[i].toolPrefix != ups[j].toolPrefix
  }

  ghost predicate NamesDistinct(ups: seq<Upstream>) {
    forall i, j :: 0 <= i < j < |ups| ==> ups[i].name != ups[j].name
  }

  /** `ups` lists the sources, each once. */
  ghost predicate Enumerates(ups: seq<Upstream>, src: map<string, Source>) {
    && NamesDistinct(ups)
    && (forall u :: u in ups ==> u.name in src && src[u.name] == Source(u.entries, u.root))
    && (forall n :: n in src ==> exists u :: u in ups && u.name == n)
  }

  // ---------- The constructors ----------

  /** The name index and the tool list hold exactly the entries registered so far. */
  ghost predicate Registered(flat: seq<Entry>, byName: map<string, Entry>, toolList: seq<Tool>) {
    DistinctNames(flat) && Indexes(byName, set e | e in flat) && toolList == ToolsOf(flat)
  }

  lemma RegisterStep(flat: seq<Entry>, byName: map<string, Entry>, toolList: seq<Tool>, e: Entry)
    requires Registered(flat, byName, toolList) && e.name !in byName
    ensures Registered(flat + [e], byName[e.name := e], toolList + [e.AsTool()])
  {
    assert forall x :: x in flat ==> x in (set y | y in flat);
    assert forall i :: 0 <= i < |flat| ==> flat[i] in flat;
  }

  /** Registers the entries in order, refusing a name that is already taken. */
  method IndexEntries(ups: seq<Upstream>)
    returns (r: Result<(map<string, Entry>, seq<Tool>)>)
    ensures r.Ok? <==> DistinctNames(Flat(ups))
    ensures r.Ok? ==> Registered(Flat(ups), r.value.0, r.value.1)
    ensures r.Err? ==> r.error.NameConflict?
  {
    var byName: map<string, Entry> := map[];
    var toolList: seq<Tool> := [];
    ghost var flat: seq<Entry> := [];
    for i := 0 to |ups|
      invariant flat == Flat(ups[..i]) && Registered(flat, byName, toolList)
    {
      var entries := ups[i].entries;
      ghost var start := flat;
      FlatPrefix(ups, i);
      for a := 0 to |entries|
        invariant flat == start + entries[..a] && Registered(flat, byName, toolList)
      {
        hide *;
        var e := entries[a];
        assert flat + [e] == start + entries[..a + 1];
        assert start + entries[..a + 1] <= start + entries;
        if e.name in byName {
          TakenName(flat, byName, toolList, e, Flat(ups));
          return Err(NameConflict(e.name));
        }
        RegisterStep(flat, byName, toolList, e);
        byName, toolList := byName[e.name := e], toolList + [e.AsTool()];
        flat := flat + [e];
      }
      assert entries[..|entries|] == entries;
      assert ups[..i + 1][..i] == ups[..i];
    }
    assert ups[..|ups|] == ups;
    return Ok((byName, toolList));
  }

  lemma TakenName(flat: seq<Entry>, byName: map<string, Entry>, toolList: seq<Tool>, e: Entry, all: seq<Entry>)
    requires Registered(flat, byName, toolList) && e.name in byName && flat + [e] <= all
    ensures !DistinctNames(all)
  {
    NotDistinct(flat, e, all);
  }

  lemma NotDistinct(flat: seq<Entry>, e: Entry, all: seq<Entry>)
    requires flat + [e] <= all && exists x :: x in flat && x.name == e.name
    ensures !DistinctNames(all)
  {
    var x :| x in flat && x.name == e.name;
    var i :| 0 <= i < |flat| && flat[i] == x;
    assert all[i] == (flat + [e])[i] == x && all[|flat|] == (flat + [e])[|flat|] == e;
  }

  lemma {:induction false} FlatPrefix(ups: seq<Upstream>, i: nat)
    requires i < |ups|
    ensures Flat(ups[..i]) + ups[i].entries <= Flat(ups)
    decreases |ups|
  {
    var init := ups[..|ups| - 1];
    if i < |ups| - 1 {
      FlatPrefix(init, i);
      assert init[..i] == ups[..i];
    }
  }

  method CompileFilters(groups: seq<Group>) returns (r: Result<map<string, map<nat, set<nat>>>>)
    ensures r.Ok? <==> FiltersValid(groups)
    ensures r.Ok? ==> forall n :: FilterOf(groups, n) == if n in r.value then Some(r.value[n]) else None
    ensures r.Err? ==> r.error.InvalidFilter?
  {
    var compiled: map<string, map<nat, set<nat>>> := map[];
    for i := 0 to |groups|
      invariant FiltersValid(groups[..i])
      invariant forall n :: FilterOf(groups[..i], n) == if n in compiled then Some(compiled[n]) else None
    {
      var g := groups[i];
      assert groups[..i + 1][..i] == groups[..i];
      if g.filter.NoFilter? {
        continue;
      }
      if g.filter.BadFilter? {
        return Err(InvalidFilter(g.name));
      }
      compiled := compiled[g.name := g.filter.nodes];
    }
    assert groups[..|groups|] == groups;
    return Ok(compiled);
  }

  /** The membership of one group, found by walking its upstreams' entries. */
  method GroupTools(ups: seq<Upstream>, g: Group, filter: Option<map<nat, set<nat>>>, toolList: seq<Tool>)
    returns (gd: GroupData)
    ensures gd.toolSet == MembersOfList(ups, g.upstreams, filter)
    ensures gd.toolList == FilterTools(toolList, gd.toolSet)
  {
    var toolSet: set<string> := {};
    for i := 0 to |ups|
      invariant toolSet == MembersOfList(ups[..i], g.upstreams, filter)
    {
      var u := ups[i];
      ghost var before := toolSet;
      if u.name in g.upstreams {
        for a := 0 to |u.entries|
          invariant toolSet == before + (set e | e in u.entries[..a] && Passes(filter, e, u.root) :: e.name)
        {
          var e := u.entries[a];
          if Passes(filter, e, u.root) {
            toolSet := toolSet + {e.name};
          }
          assert u.entries[..a + 1] == u.entries[..a] + [e];
        }
        assert u.entries[..|u.entries|] == u.entries;
      }
      assert ups[..i + 1] == ups[..i] + [u];
    }
    assert ups[..|ups|] == ups;
    var list: seq<Tool> := [];
    for i := 0 to |toolList|
      invariant list == FilterTools(toolList[..i], toolSet)
    {
      assert toolList[..i + 1][..i] == toolList[..i];
      if toolList[i].name in toolSet {
        list := list + [toolList[i]];
      }
    }
    assert toolList[..|toolList|] == toolList;
    gd := GroupData(list, toolSet);
  }

  method BuildGroups(ups: seq<Upstream>, groups: seq<Group>, compiled: map<string, map<nat, set<nat>>>,
                     toolList: seq<Tool>)
    returns (table: map<string, GroupData>)
    requires forall n :: FilterOf(groups, n) == if n in compiled then Some(compiled[n]) else None
    ensures (map n | n in table :: table[n].toolSet) == GroupsOfList(ups, groups, |groups|)
    ensures forall n :: n in table ==> table[n].toolList == FilterTools(toolList, table[n].toolSet)
    ensures forall n :: n in table ==> exists names, filter :: table[n].toolSet == MembersOfList(ups, names, filter)
  {
    table := map[];
    for k := 0 to |groups|
      invariant (map n | n in table :: table[n].toolSet) == GroupsOfList(ups, groups, k)
      invariant forall n :: n in table ==> table[n].toolList == FilterTools(toolList, table[n].toolSet)
      invariant forall n :: n in table ==> exists names, filter :: table[n].toolSet == MembersOfList(ups, names, filter)
    {
      var g := groups[k];
      var filter := if g.name in compiled then Some(compiled[g.name]) else None;
      var gd := GroupTools(ups, g, filter, toolList);
      ghost var before := map n | n in table :: table[n].toolSet;
      table := table[g.name := gd];
      assert (map n | n in table :: table[n].toolSet) == before[g.name := gd.toolSet];
    }
  }

  lemma TableValid(ups: seq<Upstream>, r: Registry)
    requires Registered(Flat(ups), r.byName, r.toolList)
    requires forall n :: n in r.groups ==> r.groups[n].toolList == FilterTools(r.toolList, r.groups[n].toolSet)
    requires forall n :: n in r.groups ==>
               exists names, filter :: r.groups[n].toolSet == MembersOfList(ups, names, filter)
    ensures r.Valid()
  {
    forall n | n in r.groups ensures r.groups[n].toolSet <= r.byName.Keys {
      var names, filter :| r.groups[n].toolSet == MembersOfList(ups, names, filter);
      forall x | x in r.groups[n].toolSet ensures x in r.byName {
        var u, e :| u in ups && e in u.entries && e.name == x;
        InFlat(ups, u, e);
      }
    }
    forall n | n in r.byName ensures r.byName[n].AsTool() in r.toolList {
      var i :| 0 <= i < |Flat(ups)| && Flat(ups)[i] == r.byName[n];
      assert r.toolList[i] == r.byName[n].AsTool();
    }
    forall t | t in r.toolList ensures t.name in r.byName && r.byName[t.name].AsTool() == t {
      var i :| 0 <= i < |r.toolList| && r.toolList[i] == t;
      assert Flat(ups)[i] in Flat(ups);
    }
  }

  lemma {:induction false} InFlat(ups: seq<Upstream>, u: Upstream, e: Entry)
    requires u in ups && e in u.entries
    ensures e in Flat(ups)
    decreases |ups|
  {
    var last := ups[|ups| - 1];
    if u != last {
      assert ups == ups[..|ups| - 1] + [last];
      InFlat(ups[..|ups| - 1], u, e);
    }
  }

  method CheckPrefixes(ups: seq<Upstream>) returns (distinct: bool)
    ensures distinct <==> PrefixesDistinct(ups)
  {
    var prefixToName: map<string, string> := map[];
    for i := 0 to |ups|
      invariant PrefixesDistinct(ups[..i])
      invariant forall p :: p in prefixToName <==> exists j :: 0 <= j < i && ups[j].toolPrefix == p
    {
      if ups[i].toolPrefix in prefixToName {
        return false;
      }
      prefixToName := prefixToName[ups[i].toolPrefix := ups[i].name];
    }
    assert ups[..|ups|] == ups;
    return true;
  }

  /** The constructor used by a full reload. */
  method New(ups: seq<Upstream>, groups: seq<Group>) returns (r: Result<Registry>)
    ensures r.Ok? <==> PrefixesDistinct(ups) && DistinctNames(Flat(ups)) && FiltersValid(groups)
    ensures r.Ok? ==> r.value.Valid() && r.value.toolList == ToolsOf(Flat(ups))
    ensures r.Ok? ==> r.value.AsView() == ListView(ups, groups)
    ensures r.Ok? ==> forall n :: r.value.EntriesForUpstream(n) == EntriesNamed(ups, n)
    ensures r.Ok? ==> forall n :: r.value.SpecRootForUpstream(n) == RootNamed(ups, n)
  {
    var distinct := CheckPrefixes(ups);
    if !distinct {
      return Err(SharedPrefix);
    }
    var indexed := IndexEntries(ups);
    if indexed.Err? {
      return Err(indexed.error);
    }
    var byUpstream, rootByName := ByUpstream(ups);
    var compiled := CompileFilters(groups);
    if compiled.Err? {
      return Err(compiled.error);
    }
    var table := BuildGroups(ups, groups, compiled.value, indexed.value.1);
    var reg := Registry(indexed.value.0, byUpstream, rootByName, indexed.value.1, table);
    TableValid(ups, reg);
    ListIndexUnique(ups, reg.byName);
    return Ok(reg);
  }

  lemma ListIndexUnique(ups: seq<Upstream>, index: map<string, Entry>)
    requires Indexes(index, set e | e in Flat(ups))
    ensures index == (map n | n in NamesIn(Flat(ups)) :: EntryIn(Flat(ups), n))
  {
    forall n ensures n in index <==> n in NamesIn(Flat(ups)) {
      if n in index {
        assert index[n] in Flat(ups);
      }
    }
  }

  /** With no conflict, the view of a reload indexes exactly the upstreams' entries. */
  lemma ListViewIndexes(ups: seq<Upstream>, groups: seq<Group>)
    requires DistinctNames(Flat(ups))
    ensures Indexes(ListView(ups, groups).index, set e | e in Flat(ups))
  {
    var flat := Flat(ups);
    forall e | e in flat ensures EntryIn(flat, e.name) == e {
      var i :| 0 <= i < |flat| && flat[i] == e;
      var j :| 0 <= j < |flat| && flat[j] == EntryIn(flat, e.name);
    }
  }

  /** The entries of every upstream of that name, in order. */
  function EntriesNamed(ups: seq<Upstream>, name: string): seq<Entry> {
    if ups == [] then []
    else EntriesNamed(ups[..|ups| - 1], name) +
         (if ups[|ups| - 1].name == name then ups[|ups| - 1].entries else [])
  }

  function RootNamed(ups: seq<Upstream>, name: string): Option<nat> {
    if ups == [] then None
    else if ups[|ups| - 1].name == name then ups[|ups| - 1].root
    else RootNamed(ups[..|ups| - 1], name)
  }

  method ByUpstream(ups: seq<Upstream>)
    returns (byUpstream: map<string, seq<Entry>>, rootByName: map<string, Option<nat>>)
    ensures forall n :: EntriesNamed(ups, n) == if n in byUpstream then byUpstream[n] else []
    ensures forall n :: RootNamed(ups, n) == if n in rootByName then rootByName[n] else None
  {
    byUpstream, rootByName := map[], map[];
    for i := 0 to |ups|
      invariant forall n :: EntriesNamed(ups[..i], n) == if n in byUpstream then byUpstream[n] else []
      invariant forall n :: RootNamed(ups[..i], n) == if n in rootByName then rootByName[n] else None
    {
      var u := ups[i];
      assert ups[..i + 1][..i] == ups[..i];
      rootByName := rootByName[u.name := u.root];
      if u.entries != [] {
        byUpstream := byUpstream[u.name := (if u.name in byUpstream then byUpstream[u.name] else []) + u.entries];
      }
    }
    assert ups[..|ups|] == ups;
  }

  /** Lists the sources in whatever order the map yields them. */
  method Enumerate(src: map<string, Source>) returns (ups: seq<Upstream>)
    ensures Enumerates(ups, src)
  {
    ups := [];
    var remaining := src.Keys;
    while remaining != {}
      invariant remaining <= src.Keys && NamesDistinct(ups)
      invariant forall u :: u in ups ==> u.name in src && src[u.name] == Source(u.entries, u.root)
      invariant forall u :: u in ups ==> u.name !in remaining
      invariant forall n :: n in src && n !in remaining ==> exists u :: u in ups && u.name == n
      decreases |remaining|
    {
      var n :| n in remaining;
      ghost var before := ups;
      ups := ups + [Upstream(n, "", src[n].entries, src[n].root)];
      remaining := remaining - {n};
      assert ups[|ups| - 1].name == n;
      assert forall u :: u in before ==> u in ups;
    }
  }

  /** The constructor used by incremental updates; it does not look at prefixes. */
  method NewFromEntries(src: map<string, Source>, groups: seq<Group>) returns (r: Result<Registry>)
    ensures r.Ok? <==> Buildable(src, groups)
    ensures r.Ok? ==> r.value.Valid() && r.value.AsView() == FullView(src, groups)
  {
    var ups := Enumerate(src);
    SameConflicts(ups, src);
    var indexed := IndexEntries(ups);
    if indexed.Err? {
      return Err(indexed.error);
    }
    var compiled := CompileFilters(groups);
    if compiled.Err? {
      return Err(compiled.error);
    }
    var table := BuildGroups(ups, groups, compiled.value, indexed.value.1);
    var byUpstream := map n | n in src :: src[n].entries;
    var rootByName := map n | n in src :: src[n].root;
    var reg := Registry(indexed.value.0, byUpstream, rootByName, indexed.value.1, table);
    TableValid(ups, reg);
    SameIndex(ups, src, reg.byName);
    SameGroups(ups, src, groups, |groups|);
    return Ok(reg);
  }

  // ---------- The list and the map say the same ----------

  lemma {:induction false} FlatElements(ups: seq<Upstream>, e: Entry)
    ensures e in Flat(ups) <==> exists u :: u in ups && e in u.entries
  {
    if ups != [] {
      var init, last := ups[..|ups| - 1], ups[|ups| - 1];
      FlatElements(init, e);
      assert ups == init + [last];
    }
  }

  lemma DistinctConcat(a: seq<Entry>, b: seq<Entry>)
    ensures DistinctNames(a + b) <==> DistinctNames(a) && DistinctNames(b) && NamesIn(a) !! NamesIn(b)
  {
    var c := a + b;
    assert forall i :: 0 <= i < |a| ==> c[i] == a[i] && a[i] in a;
    assert forall i :: 0 <= i < |b| ==> c[|a| + i] == b[i] && b[i] in b;
    if DistinctNames(c) {
      forall i, j | 0 <= i < j < |b| ensures b[i].name != b[j].name {
        assert c[|a| + i] == b[i] && c[|a| + j] == b[j];
      }
      forall x, y | x in a && y in b ensures x.name != y.name {
        var i :| 0 <= i < |a| && a[i] == x;
        var j :| 0 <= j < |b| && b[j] == y;
        assert c[i] == x && c[|a| + j] == y;
      }
    }
    if DistinctNames(a) && DistinctNames(b) && NamesIn(a) !! NamesIn(b) {
      forall i, j | 0 <= i < j < |c| ensures c[i].name != c[j].name {
        if i >= |a| {
          assert c[i] == b[i - |a|] && c[j] == b[j - |a|];
        } else if j >= |a| {
          assert c[i] in a && c[j] in b;
          assert c[i].name in NamesIn(a) && c[j].name in NamesIn(b);
        }
      }
    }
  }

  ghost predicate ListConflictFree(ups: seq<Upstream>) {
    && (forall i :: 0 <= i < |ups| ==> DistinctNames(ups[i].entries))
    && (forall i, j :: 0 <= i < j < |ups| ==> NamesIn(ups[i].entries) !! NamesIn(ups[j].entries))
  }

  lemma {:induction false} DistinctFlat(ups: seq<Upstream>)
    ensures DistinctNames(Flat(ups)) <==> ListConflictFree(ups)
  {
    if ups != [] {
      var init, last := ups[..|ups| - 1], ups[|ups| - 1];
      DistinctFlat(init);
      DistinctConcat(Flat(init), last.entries);
      NamesOfFlat(init, last.entries);
      ConflictFreeStep(ups);
      hide DistinctNames, NamesIn, ListConflictFree;
    }
  }

  lemma ConflictFreeStep(ups: seq<Upstream>)
    requires ups != []
    ensures var init, last := ups[..|ups| - 1], ups[|ups| - 1];
            ListConflictFree(ups) <==>
              && ListConflictFree(init) && DistinctNames(last.entries)
              && forall i :: 0 <= i < |init| ==> NamesIn(init[i].entries) !! NamesIn(last.entries)
  {
    var init, last := ups[..|ups| - 1], ups[|ups| - 1];
    hide DistinctNames, NamesIn;
    assert forall i :: 0 <= i < |init| ==> init[i] == ups[i];
    if ListConflictFree(ups) {
      assert forall i, j :: 0 <= i < j < |init| ==> NamesIn(init[i].entries) !! NamesIn(init[j].entries);
    }
  }

  lemma {:induction false} NamesOfFlat(ups: seq<Upstream>, b: seq<Entry>)
    ensures NamesIn(Flat(ups)) !! NamesIn(b) <==>
            forall i :: 0 <= i < |ups| ==> NamesIn(ups[i].entries) !! NamesIn(b)
  {
    if ups != [] {
      var init, last := ups[..|ups| - 1], ups[|ups| - 1];
      NamesOfFlat(init, b);
      assert NamesIn(Flat(ups)) == NamesIn(Flat(init)) + NamesIn(last.entries);
      assert forall i :: 0 <= i < |init| ==> init[i] == ups[i];
    }
  }

  lemma SameConflicts(ups: seq<Upstream>, src: map<string, Source>)
    requires Enumerates(ups, src)
    ensures DistinctNames(Flat(ups)) <==> ConflictFree(src)
  {
    DistinctFlat(ups);
    if ListConflictFree(ups) {
      forall n | n in src ensures DistinctNames(src[n].entries) {
        var u :| u in ups && u.name == n;
        var i :| 0 <= i < |ups| && ups[i] == u;
      }
      forall m, n | m in src && n in src && m != n ensures NamesIn(src[m].entries) !! NamesIn(src[n].entries) {
        var u :| u in ups && u.name == m;
        var v :| v in ups && v.name == n;
        var i :| 0 <= i < |ups| && ups[i] == u;
        var j :| 0 <= j < |ups| && ups[j] == v;
        assert i != j;
      }
    }
    if ConflictFree(src) {
      forall i | 0 <= i < |ups| ensures DistinctNames(ups[i].entries) {
        assert ups[i] in ups;
      }
      forall i, j | 0 <= i < j < |ups| ensures NamesIn(ups[i].entries) !! NamesIn(ups[j].entries) {
        assert ups[i] in ups && ups[j] in ups;
      }
    }
  }

  /** With no conflict, the index of the sources is the only map that indexes them. */
  lemma IndexUnique(src: map<string, Source>, index: map<string, Entry>)
    requires Indexes(index, EntrySet(src))
    ensures index == Index(src)
  {
    assert forall n :: n in index ==> index[n] in EntrySet(src);
    assert index.Keys == Index(src).Keys;
  }

  lemma SameIndex(ups: seq<Upstream>, src: map<string, Source>, index: map<string, Entry>)
    requires Enumerates(ups, src) && Indexes(index, set e | e in Flat(ups))
    ensures index == Index(src)
  {
    forall e ensures e in EntrySet(src) <==> e in Flat(ups) {
      FlatElements(ups, e);
      if e in EntrySet(src) {
        var n :| n in src && e in src[n].entries;
        var u :| u in ups && u.name == n;
      }
    }
    IndexUnique(src, index);
  }

  lemma SameMembers(ups: seq<Upstream>, src: map<string, Source>, names: seq<string>,
                    filter: Option<map<nat, set<nat>>>)
    requires Enumerates(ups, src)
    ensures MembersOfList(ups, names, filter) == Members(src, names, filter)
  {
    forall x | x in Members(src, names, filter) ensures x in MembersOfList(ups, names, filter) {
      var n, e :| n in src && n in names && e in src[n].entries && Passes(filter, e, src[n].root) && e.name == x;
      var u :| u in ups && u.name == n;
    }
  }

  lemma {:induction false} SameGroups(ups: seq<Upstream>, src: map<string, Source>, groups: seq<Group>, k: nat)
    requires Enumerates(ups, src) && k <= |groups|
    ensures GroupsOfList(ups, groups, k) == GroupsOf(src, groups, k)
  {
    if k > 0 {
      SameGroups(ups, src, groups, k - 1);
      SameMembers(ups, src, groups[k - 1].upstreams, FilterOf(groups, groups[k - 1].name));
    }
  }

  // ---------- A full build and an incremental one agree ----------

  /** The per-upstream state a reload stores: for each upstream name, what the new registry
      says it holds. */
  function StateOf(ups: seq<Upstream>): map<string, Source> {
    map n | n in (set u | u in ups :: u.name) :: Source(EntriesNamed(ups, n), RootNamed(ups, n))
  }

  lemma {:induction false} NamedOnce(ups: seq<Upstream>, i: nat)
    requires NamesDistinct(ups) && i < |ups|
    ensures EntriesNamed(ups, ups[i].name) == ups[i].entries && RootNamed(ups, ups[i].name) == ups[i].root
    decreases |ups|
  {
    var init := ups[..|ups| - 1];
    if i < |ups| - 1 {
      NamedOnce(init, i);
    } else {
      NamedNowhere(init, ups[i].name);
    }
  }

  lemma {:induction false} NamedNowhere(ups: seq<Upstream>, name: string)
    requires forall u :: u in ups ==> u.name != name
    ensures EntriesNamed(ups, name) == [] && RootNamed(ups, name) == None
  {
    if ups != [] {
      NamedNowhere(ups[..|ups| - 1], name);
    }
  }

  /** Every upstream with an operation in its spec has the spec tree that is stored for its
      name, that of the last upstream of the name. */
  ghost predicate RootsAgree(ups: seq<Upstream>) {
    forall u, e :: u in ups && e in u.entries && e.node.Some? ==> u.root == RootNamed(ups, u.name)
  }

  /** So it is where upstreams have distinct names. */
  lemma DistinctNamesAgree(ups: seq<Upstream>)
    requires NamesDistinct(ups)
    ensures RootsAgree(ups)
  {
    forall u | u in ups ensures u.root == RootNamed(ups, u.name) {
      var i :| 0 <= i < |ups| && ups[i] == u;
      NamedOnce(ups, i);
    }
  }

  lemma {:induction false} NamedElements(ups: seq<Upstream>, name: string, e: Entry)
    ensures e in EntriesNamed(ups, name) <==> exists u :: u in ups && u.name == name && e in u.entries
  {
    if ups != [] {
      var init, last := ups[..|ups| - 1], ups[|ups| - 1];
      NamedElements(init, name, e);
      assert ups == init + [last];
    }
  }

  /** What is stored for the upstreams holds the same entries as the upstreams. */
  lemma StateEntries(ups: seq<Upstream>, e: Entry)
    ensures e in EntrySet(StateOf(ups)) <==> e in Flat(ups)
  {
    FlatElements(ups, e);
    hide Flat, EntriesNamed, RootNamed;
    var src := StateOf(ups);
    if n :| n in src && e in src[n].entries {
      NamedElements(ups, n, e);
    }
    if u :| u in ups && e in u.entries {
      NamedElements(ups, u.name, e);
      assert u.name in src && e in src[u.name].entries;
    }
  }

  /** With no conflict an entry's name tells the entry, and the upstream it is from. */
  lemma OneOwner(ups: seq<Upstream>, u: Upstream, e: Entry, v: Upstream, f: Entry)
    requires DistinctNames(Flat(ups)) && u in ups && e in u.entries && v in ups && f in v.entries && e.name == f.name
    ensures u == v && e == f
  {
    DistinctFlat(ups);
    var i :| 0 <= i < |ups| && ups[i] == u;
    var j :| 0 <= j < |ups| && ups[j] == v;
    assert e.name in NamesIn(ups[i].entries) && f.name in NamesIn(ups[j].entries);
    assert i == j;
    var a :| 0 <= a < |u.entries| && u.entries[a] == e;
    var b :| 0 <= b < |u.entries| && u.entries[b] == f;
  }

  /** No conflict among the upstreams is no conflict among what is stored for them. */
  lemma StateConflictFree(ups: seq<Upstream>)
    requires DistinctNames(Flat(ups))
    ensures ConflictFree(StateOf(ups))
  {
    var src := StateOf(ups);
    forall n | n in src ensures DistinctNames(src[n].entries) {
      NamedDistinct(ups, n);
    }
    forall m, n | m in src && n in src && m != n ensures NamesIn(src[m].entries) !! NamesIn(src[n].entries) {
      forall e, f | e in src[m].entries && f in src[n].entries ensures e.name != f.name {
        NamedElements(ups, m, e);
        NamedElements(ups, n, f);
        var u :| u in ups && u.name == m && e in u.entries;
        var v :| v in ups && v.name == n && f in v.entries;
        if e.name == f.name {
          OneOwner(ups, u, e, v, f);
        }
      }
    }
  }

  lemma {:induction false} NamedDistinct(ups: seq<Upstream>, name: string)
    requires DistinctNames(Flat(ups))
    ensures DistinctNames(EntriesNamed(ups, name)) && NamesIn(EntriesNamed(ups, name)) <= NamesIn(Flat(ups))
  {
    if ups != [] {
      var init, last := ups[..|ups| - 1], ups[|ups| - 1];
      var named := if last.name == name then last.entries else [];
      DistinctConcat(Flat(init), last.entries);
      NamedDistinct(init, name);
      DistinctConcat(EntriesNamed(init, name), named);
      assert NamesIn(Flat(ups)) == NamesIn(Flat(init)) + NamesIn(last.entries);
      assert NamesIn(EntriesNamed(init, name) + named) == NamesIn(EntriesNamed(init, name)) + NamesIn(named);
    }
  }

  lemma MembersAgree(ups: seq<Upstream>, names: seq<string>,
                    filter: Option<map<nat, set<nat>>>)
    requires RootsAgree(ups)
    ensures MembersOfList(ups, names, filter) == Members(StateOf(ups), names, filter)
  {
    var src := StateOf(ups);
    hide EntriesNamed, RootNamed;
    forall x | x in MembersOfList(ups, names, filter) ensures x in Members(src, names, filter) {
      var u, e :| u in ups && u.name in names && e in u.entries && Passes(filter, e, u.root) && e.name == x;
      NamedElements(ups, u.name, e);
      assert u.name in src && e in src[u.name].entries && Passes(filter, e, src[u.name].root);
    }
    forall x | x in Members(src, names, filter) ensures x in MembersOfList(ups, names, filter) {
      var n, e :| n in src && n in names && e in src[n].entries && Passes(filter, e, src[n].root) && e.name == x;
      NamedElements(ups, n, e);
      var u :| u in ups && u.name == n && e in u.entries;
    }
  }

  /** The filter that selects one node of one spec tree. */
  function OneNode(root: nat, node: nat): Option<map<nat, set<nat>>> {
    Some(map[root := {node}])
  }

  /** Where the trees differ, the filter that selects the operation in one of them tells the
      two apart. */
  lemma MembersDiffer(ups: seq<Upstream>, u: Upstream, e: Entry)
    requires DistinctNames(Flat(ups)) && u in ups && e in u.entries && e.node.Some?
    requires u.root != RootNamed(ups, u.name)
    ensures var filter := OneNode(if u.root.Some? then u.root.value else RootNamed(ups, u.name).value, e.node.value);
            e.name in MembersOfList(ups, [u.name], filter) <==> e.name !in Members(StateOf(ups), [u.name], filter)
  {
    var src := StateOf(ups);
    var root := if u.root.Some? then u.root.value else RootNamed(ups, u.name).value;
    var filter := OneNode(root, e.node.value);
    hide EntriesNamed, RootNamed;
    NamedElements(ups, u.name, e);
    assert u.name in src && e in src[u.name].entries && src[u.name].root == RootNamed(ups, u.name);
    assert Passes(filter, e, u.root) <==> u.root.Some?;
    assert Passes(filter, e, src[u.name].root) <==> u.root.None?;
    if e.name in MembersOfList(ups, [u.name], filter) {
      var v, f :| v in ups && v.name in [u.name] && f in v.entries && Passes(filter, f, v.root) && f.name == e.name;
      OneOwner(ups, u, e, v, f);
    }
    if e.name in Members(src, [u.name], filter) {
      var n, f :| n in src && n in [u.name] && f in src[n].entries && Passes(filter, f, src[n].root) &&
                  f.name == e.name;
      NamedElements(ups, n, f);
      var v :| v in ups && v.name == n && f in v.entries;
      OneOwner(ups, u, e, v, f);
    }
  }

  /** Incremental membership is that of the reload, for all groups and filters, if and only
      if every upstream with an operation has the spec tree stored for its name. */
  lemma IncrementalMembersIff(ups: seq<Upstream>)
    requires DistinctNames(Flat(ups))
    ensures (forall names, filter :: MembersOfList(ups, names, filter) == Members(StateOf(ups), names, filter))
            <==> RootsAgree(ups)
  {
    if RootsAgree(ups) {
      forall names, filter ensures MembersOfList(ups, names, filter) == Members(StateOf(ups), names, filter) {
        MembersAgree(ups, names, filter);
      }
    } else {
      var u, e :| u in ups && e in u.entries && e.node.Some? && u.root != RootNamed(ups, u.name);
      MembersDiffer(ups, u, e);
    }
  }

  lemma {:induction false} GroupsAgree(ups: seq<Upstream>, groups: seq<Group>, k: nat)
    requires RootsAgree(ups) && k <= |groups|
    ensures GroupsOfList(ups, groups, k) == GroupsOf(StateOf(ups), groups, k)
  {
    if k > 0 {
      GroupsAgree(ups, groups, k - 1);
      MembersAgree(ups, groups[k - 1].upstreams, FilterOf(groups, groups[k - 1].name));
    }
  }

  /** In that case, building a registry from the state a reload stored gives the same index
      and the same group membership, and succeeds whenever the reload did. */
  lemma IncrementalEqualsFull(ups: seq<Upstream>, groups: seq<Group>)
    requires RootsAgree(ups) && DistinctNames(Flat(ups)) && FiltersValid(groups)
    ensures Buildable(StateOf(ups), groups)
    ensures FullView(StateOf(ups), groups) == ListView(ups, groups)
  {
    StateConflictFree(ups);
    ListViewIndexes(ups, groups);
    forall e ensures e in EntrySet(StateOf(ups)) <==> e in Flat(ups) {
      StateEntries(ups, e);
    }
    assert (set e | e in Flat(ups)) == EntrySet(StateOf(ups));
    IndexUnique(StateOf(ups), ListView(ups, groups).index);
    GroupsAgree(ups, groups, |groups|);
  }

  /** Two upstreams of one name keep only the last spec tree, so an entry that the filter
      selected in the first tree can drop out of the group. */
  lemma SharedNameLosesMembers(name: string, e: Entry, p: string, q: string, root: nat, last: nat,
                               filter: map<nat, set<nat>>)
    requires e.node.Some? && root in filter && e.node.value in filter[root] && last !in filter && p != q
    ensures var ups := [Upstream(name, p, [e], Some(root)), Upstream(name, q, [], Some(last))];
            && PrefixesDistinct(ups) && DistinctNames(Flat(ups)) && !NamesDistinct(ups)
            && e.name in MembersOfList(ups, [name], Some(filter))
            && e.name !in Members(StateOf(ups), [name], Some(filter))
  {
    var u, v := Upstream(name, p, [e], Some(root)), Upstream(name, q, [], Some(last));
    var ups := [u, v];
    OneEntry(u, v, e);
    assert u in ups && e in u.entries && Passes(Some(filter), e, u.root);
    assert v in ups && RootNamed(ups, name) == Some(last);
    assert forall n :: n in StateOf(ups) ==> n == name;
    hide Flat, EntriesNamed;
  }

  lemma OneEntry(u: Upstream, v: Upstream, e: Entry)
    requires u.entries == [e] && v.entries == [] && u.name == v.name
    ensures Flat([u, v]) == [e] && EntriesNamed([u, v], u.name) == [e]
  {
    assert [u, v][..1] == [u] && [u][..0] == [];
    assert Flat([u]) == [] + [e] && EntriesNamed([u], u.name) == [] + [e];
    assert Flat([u, v]) == Flat([u]) + [] && EntriesNamed([u, v], u.name) == EntriesNamed([u], u.name) + [];
  }

  /** Dropping sources never makes a registry unbuildable. */
  lemma SubsetBuildable(src: map<string, Source>, name: string, groups: seq<Group>)
    requires Buildable(src, groups)
    ensures Buildable(src - {name}, groups)
  {
  }
}
