/** What a refresh loses (pkg/upstream/http/refresh.go) of what the build and the reload of an
    upstream gave its tools (pkg/upstream/http/builder.go, pkg/mcp/manager.go). */
module RefreshLoss {
  import opened Json
  import opened Registry
  import opened Conflicts
  import opened CacheKey
  import opened ServerSync
  import opened CachedDispatch
  import opened ToolBuild

  ghost function AsSet(entries: seq<Entry>): set<Entry> {
    set e | e in entries
  }

  /** The tool has no limit, cache, page or breaker, of its own or from its upstream. */
  ghost predicate Bare(t: GeneratedTool, settings: Settings, breaker: string) {
    && t.operation.rateLimit == "" && settings.rateLimit == ""
    && (if t.operation.cache.Some? then t.operation.cache.value == "" else settings.cache == "")
    && HandlerOf(t.operation.page) == None
    && breaker == ""
  }

  /** The entry of a tool once a reload has given its upstream a breaker. */
  ghost function LoadedEntryOf(t: GeneratedTool, settings: Settings, breaker: string): Entry {
    if breaker == "" then EntryOf(t, settings) else EntryOf(t, settings).(breaker := breaker)
  }

  lemma BareIff(t: GeneratedTool, settings: Settings, breaker: string)
    ensures LoadedEntryOf(t, settings, breaker) == RefreshedEntryOf(t) <==> Bare(t, settings, breaker)
  {
  }

  /** The entries a reload puts in, if the upstream was built with this order of operations. */
  ghost function LoadedEntries(settings: Settings, breaker: string, order: seq<Operation>, style: NameStyle,
                               resolution: string): Option<set<Entry>> {
    var u := Built(settings, None, order, style, resolution);
    if u.Some? then Some(AsSet(Guarded(u.value.entries, breaker))) else None
  }

  ghost function RefreshedEntries(settings: Settings, order: seq<Operation>, style: NameStyle,
                                  resolution: string): Option<set<Entry>> {
    var entries := Refreshed(order, settings.toolPrefix, style, resolution);
    if entries.Some? then Some(AsSet(entries.value)) else None
  }

  // ---------- Entries as images of the surviving tools ----------

  ghost function LoadedImage(tools: set<GeneratedTool>, settings: Settings, breaker: string): set<Entry> {
    set t | t in tools :: LoadedEntryOf(t, settings, breaker)
  }

  ghost function RefreshedImage(tools: set<GeneratedTool>): set<Entry> {
    set t | t in tools :: RefreshedEntryOf(t)
  }

  lemma EntriesAreImages(settings: Settings, breaker: string, order: seq<Operation>, style: NameStyle,
                         resolution: string)
    ensures var kept := Surviving(order, settings.toolPrefix, style, resolution);
            && LoadedEntries(settings, breaker, order, style, resolution) ==
               (if kept.Some? && forall t :: t in kept.value ==> t.operation.passes && !t.operation.page.PageFails?
                then Some(LoadedImage(kept.value, settings, breaker)) else None)
            && RefreshedEntries(settings, order, style, resolution) ==
               (if kept.Some? && forall t :: t in kept.value ==> t.operation.passes
                then Some(RefreshedImage(kept.value)) else None)
  {
    var tools := Generated(order, settings.toolPrefix, style, resolution);
    hide Generated, LoadedImage, RefreshedImage, AsSet, Guarded, EntriesOf, RefreshedEntriesOf;
    if tools.Some? {
      IsLoadedImage(tools.value, settings, breaker);
      IsRefreshedImage(tools.value);
    }
  }

  lemma IsLoadedImage(tools: seq<GeneratedTool>, settings: Settings, breaker: string)
    ensures AsSet(Guarded(EntriesOf(tools, settings), breaker)) == LoadedImage((set t | t in tools), settings, breaker)
  {
    var entries := Guarded(EntriesOf(tools, settings), breaker);
    forall i | 0 <= i < |tools| ensures entries[i] == LoadedEntryOf(tools[i], settings, breaker) {
    }
    hide LoadedEntryOf, Guarded, EntriesOf;
    forall t | t in tools ensures LoadedEntryOf(t, settings, breaker) in entries {
      var i :| 0 <= i < |tools| && tools[i] == t;
      assert entries[i] == LoadedEntryOf(t, settings, breaker);
    }
    forall e | e in entries ensures exists t :: t in tools && e == LoadedEntryOf(t, settings, breaker) {
      var i :| 0 <= i < |entries| && entries[i] == e;
      assert tools[i] in tools;
    }
  }

  lemma IsRefreshedImage(tools: seq<GeneratedTool>)
    ensures AsSet(RefreshedEntriesOf(tools)) == RefreshedImage((set t | t in tools))
  {
    hide RefreshedEntryOf;
    var entries := RefreshedEntriesOf(tools);
    forall t | t in tools ensures RefreshedEntryOf(t) in entries {
      var i :| 0 <= i < |tools| && tools[i] == t;
      assert entries[i] == RefreshedEntryOf(t);
    }
    forall e | e in entries ensures exists t :: t in tools && e == RefreshedEntryOf(t) {
      var i :| 0 <= i < |entries| && entries[i] == e;
      assert tools[i] in tools;
    }
  }

  /** The images are equal if the tools are bare, and differ as soon as one is not or a tool
      is there that the other side lacks. */
  lemma BareImages(tools: set<GeneratedTool>, settings: Settings, breaker: string)
    requires forall t :: t in tools ==> Bare(t, settings, breaker)
    ensures LoadedImage(tools, settings, breaker) == RefreshedImage(tools)
  {
    hide Bare, LoadedEntryOf, RefreshedEntryOf;
    forall t | t in tools ensures LoadedEntryOf(t, settings, breaker) == RefreshedEntryOf(t) {
      BareIff(t, settings, breaker);
    }
  }

  lemma ImagesDiffer(tools: set<GeneratedTool>, settings: Settings, breaker: string, t: GeneratedTool)
    requires t in tools && !Bare(t, settings, breaker)
    requires forall a, b :: a in tools && b in tools && a.key.name == b.key.name ==> a == b
    ensures LoadedImage(tools, settings, breaker) != RefreshedImage(tools)
  {
    BareIff(t, settings, breaker);
    var e := LoadedEntryOf(t, settings, breaker);
    assert e in LoadedImage(tools, settings, breaker);
    forall u | u in tools ensures RefreshedEntryOf(u) != e {
      assert u.key.name == t.key.name ==> u == t;
    }
  }

  lemma OtherImage(was: set<GeneratedTool>, now: set<GeneratedTool>, ops: set<Operation>, settings: Settings,
                   breaker: string,
                   style: NameStyle, c: Operation)
    requires RoutesDistinct(ops) && c in ops
    requires forall t :: t in was ==> t.operation in ops && t == ToolOf(t.operation, settings.toolPrefix, style)
    requires ToolOf(c, settings.toolPrefix, style) in now && ToolOf(c, settings.toolPrefix, style) !in was
    requires forall t :: t in was ==> t.key.path == t.operation.path && t.key.httpMethod == t.operation.httpMethod
    ensures LoadedImage(was, settings, breaker) != RefreshedImage(now)
  {
    hide ToolName;
    var e := RefreshedEntryOf(ToolOf(c, settings.toolPrefix, style));
    assert e in RefreshedImage(now);
    forall t | t in was ensures LoadedEntryOf(t, settings, breaker) != e {
      assert t.operation != c;
    }
  }

  // ---------- Refreshes of an unchanged spec ----------

  /** Refreshes of an unchanged spec, in whatever order its operations come each time, leave
      the entries of a loaded upstream as they were if and only if the resolution is not
      `first_wins` or no name repeats, and no surviving tool has a limit, a cache, a page or
      a breaker. */
  lemma RefreshKeepsEntriesIff(settings: Settings, breaker: string, ops: set<Operation>, first: seq<Operation>,
                               style: NameStyle, resolution: string)
    requires RoutesDistinct(ops) && IsListing(first, ops)
    requires LoadedEntries(settings, breaker, first, style, resolution).Some?
    ensures Surviving(first, settings.toolPrefix, style, resolution).Some?
    ensures AlwaysTheSame(settings, breaker, ops, first, style, resolution) <==>
            && (resolution != "first_wins" || !NamesRepeat(ops, settings.toolPrefix, style))
            && forall t :: t in Surviving(first, settings.toolPrefix, style, resolution).value ==>
                 Bare(t, settings, breaker)
  {
    hide *;
    var prefix := settings.toolPrefix;
    EntriesAreImages(settings, breaker, first, style, resolution);
    OneOfEachName(first, ops, prefix, style, resolution);
    var kept := Surviving(first, prefix, style, resolution).value;
    if resolution == "first_wins" && NamesRepeat(ops, prefix, style) {
      OtherSurvives(settings, breaker, ops, first, style);
    } else if t :| t in kept && !Bare(t, settings, breaker) {
      ImagesDiffer(kept, settings, breaker, t);
      Differs(settings, breaker, ops, first, first, style, resolution);
    } else {
      forall again | IsListing(again, ops)
        ensures RefreshedEntries(settings, again, style, resolution) ==
                LoadedEntries(settings, breaker, first, style, resolution)
      {
        OrderFreeSurvivors(first, ops, prefix, style, resolution);
        OrderFreeSurvivors(again, ops, prefix, style, resolution);
        EntriesAreImages(settings, breaker, again, style, resolution);
        BareImages(kept, settings, breaker);
      }
      Same(settings, breaker, ops, first, style, resolution);
    }
  }

  ghost predicate AlwaysTheSame(settings: Settings, breaker: string, ops: set<Operation>, first: seq<Operation>,
                                style: NameStyle, resolution: string) {
    forall again :: IsListing(again, ops) ==>
      RefreshedEntries(settings, again, style, resolution) == LoadedEntries(settings, breaker, first, style, resolution)
  }

  lemma Differs(settings: Settings, breaker: string, ops: set<Operation>, first: seq<Operation>, again: seq<Operation>,
                style: NameStyle, resolution: string)
    requires IsListing(again, ops)
    requires RefreshedEntries(settings, again, style, resolution) !=
             LoadedEntries(settings, breaker, first, style, resolution)
    ensures !AlwaysTheSame(settings, breaker, ops, first, style, resolution)
  {
  }

  lemma Same(settings: Settings, breaker: string, ops: set<Operation>, first: seq<Operation>, style: NameStyle,
             resolution: string)
    requires forall again :: IsListing(again, ops) ==>
               RefreshedEntries(settings, again, style, resolution) ==
               LoadedEntries(settings, breaker, first, style, resolution)
    ensures AlwaysTheSame(settings, breaker, ops, first, style, resolution)
  {
  }

  /** Under `first_wins`, an operation of a repeated name that did not survive does so in
      another order. */
  lemma OtherSurvives(settings: Settings, breaker: string, ops: set<Operation>, first: seq<Operation>, style: NameStyle)
    requires RoutesDistinct(ops) && IsListing(first, ops) && NamesRepeat(ops, settings.toolPrefix, style)
    requires LoadedEntries(settings, breaker, first, style, "first_wins").Some?
    ensures !AlwaysTheSame(settings, breaker, ops, first, style, "first_wins")
  {
    hide *;
    var prefix := settings.toolPrefix;
    var a, b := Repeated(ops, prefix, style);
    EntriesAreImages(settings, breaker, first, style, "first_wins");
    var was := Surviving(first, prefix, style, "first_wins").value;
    OneOfEachName(first, ops, prefix, style, "first_wins");
    NotBoth(was, a, b, prefix, style);
    var c, d := if ToolOf(a, prefix, style) in was then b else a, if ToolOf(a, prefix, style) in was then a else b;
    var again := ListingFrom(ops, c);
    FirstWins(again, ops, prefix, style, c, d);
    EntriesAreImages(settings, breaker, again, style, "first_wins");
    var now := Surviving(again, prefix, style, "first_wins").value;
    KeysMatch(was, prefix, style);
    OtherImage(was, now, ops, settings, breaker, style, c);
    Differs(settings, breaker, ops, first, again, style, "first_wins");
  }

  lemma NotBoth(kept: set<GeneratedTool>, a: Operation, b: Operation, prefix: string, style: NameStyle)
    requires a != b && ToolName(a.base, prefix, style) == ToolName(b.base, prefix, style)
    requires forall t, u :: t in kept && u in kept && t.key.name == u.key.name ==> t == u
    ensures ToolOf(a, prefix, style) !in kept || ToolOf(b, prefix, style) !in kept
  {
    hide ToolName;
    assert ToolOf(a, prefix, style).key.name == ToolOf(b, prefix, style).key.name;
    assert ToolOf(a, prefix, style).operation == a && ToolOf(b, prefix, style).operation == b;
  }

  lemma KeysMatch(kept: set<GeneratedTool>, prefix: string, style: NameStyle)
    requires forall t :: t in kept ==> t == ToolOf(t.operation, prefix, style)
    ensures forall t :: t in kept ==> t.key.path == t.operation.path && t.key.httpMethod == t.operation.httpMethod
  {
    hide ToolName;
  }

  /** Two operations of one name, without limits, caches or pages: loaded in one order and
      refreshed in the other, the upstream swaps the one tool for the other. */
  lemma RefreshSwapsTools(a: Operation, b: Operation, settings: Settings, style: NameStyle)
    requires a.enabled && b.enabled && a.passes && b.passes && a.page.NoPage? && b.page.NoPage?
    requires a.path != b.path || a.httpMethod != b.httpMethod
    requires ToolName(a.base, settings.toolPrefix, style) == ToolName(b.base, settings.toolPrefix, style)
    ensures var t, u := ToolOf(a, settings.toolPrefix, style), ToolOf(b, settings.toolPrefix, style);
            && LoadedEntries(settings, "", [a, b], style, "first_wins") == Some({EntryOf(t, settings)})
            && RefreshedEntries(settings, [b, a], style, "first_wins") == Some({RefreshedEntryOf(u)})
  {
    var t, u := ToolOf(a, settings.toolPrefix, style), ToolOf(b, settings.toolPrefix, style);
    hide LoadedEntries, RefreshedEntries, Surviving, EntryOf, RefreshedEntryOf, ToolName;
    TwoTools(a, b, settings.toolPrefix, style);
    TwoTools(b, a, settings.toolPrefix, style);
    EntriesAreImages(settings, "", [a, b], style, "first_wins");
    EntriesAreImages(settings, "", [b, a], style, "first_wins");
    assert LoadedImage({t}, settings, "") == {LoadedEntryOf(t, settings, "")};
    assert RefreshedImage({u}) == {RefreshedEntryOf(u)};
  }

  lemma TwoTools(a: Operation, b: Operation, prefix: string, style: NameStyle)
    requires a.enabled && b.enabled && (a.path != b.path || a.httpMethod != b.httpMethod)
    requires ToolName(a.base, prefix, style) == ToolName(b.base, prefix, style)
    ensures Surviving([a, b], prefix, style, "first_wins") == Some({ToolOf(a, prefix, style)})
  {
    var ops, order := {a, b}, [a, b];
    assert IsListing(order, ops) && RoutesDistinct(ops);
    assert order != [] && order[0] == a;
    hide *;
    FirstWins(order, ops, prefix, style, a, b);
    OneOfEachName(order, ops, prefix, style, "first_wins");
    var kept := Surviving(order, prefix, style, "first_wins").value;
    forall t | t in kept ensures t == ToolOf(a, prefix, style) {
      assert t.operation == a || t.operation == b;
    }
    assert kept == {ToolOf(a, prefix, style)};
  }

  /** Once the manager has accepted refreshed entries, no tool of that upstream is limited,
      cached, served a page or guarded by a breaker, whatever the spec and the configuration
      say. */
  lemma RefreshLosesPolicies(s: State, name: string, tools: seq<GeneratedTool>, root: Option<nat>, cache: CacheState,
                             t: GeneratedTool)
    requires s.initialised && UpdateSucceeds(s, name, RefreshedEntriesOf(tools), root) && t in tools
    requires cache.view == AfterUpdate(s, name, RefreshedEntriesOf(tools), root).published
    ensures var view := cache.view.value;
            && cache.view.Some? && t.key.name in view.index
            && view.index[t.key.name] == RefreshedEntryOf(t) && view.index[t.key.name].breaker == ""
            && !HasUi(view, t.key.name)
            && Policy(cache, t.key.name) == None
            && forall g :: t.key.name in Registrations(view, g) ==> Registrations(view, g)[t.key.name].rateLimit == ""
  {
    var entries := RefreshedEntriesOf(tools);
    var src := s.sources[name := Source(entries, root)];
    var i :| 0 <= i < |tools| && tools[i] == t;
    var e := entries[i];
    assert e in src[name].entries;
    assert cache.view == Some(FullView(src, s.groups));
    IndexedEntry(src, s.groups, name, e);
  }

  lemma IndexedEntry(src: map<string, Source>, groups: seq<Group>, name: string, e: Entry)
    requires Buildable(src, groups) && name in src && e in src[name].entries
    ensures e.name in FullView(src, groups).index && FullView(src, groups).index[e.name] == e
  {
    assert e in EntrySet(src) && e.name in SourceNames(src);
    var x := EntryNamed(src, e.name);
    var n :| n in src && x in src[n].entries;
    assert x.name in NamesIn(src[n].entries) && e.name in NamesIn(src[name].entries);
    assert n == name;
    var i :| 0 <= i < |src[name].entries| && src[name].entries[i] == e;
    var j :| 0 <= j < |src[name].entries| && src[name].entries[j] == x;
    assert src[name].entries[i].name == src[name].entries[j].name;
  }
}
