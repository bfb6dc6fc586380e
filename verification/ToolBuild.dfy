/** From the operations of a spec to registry entries: tool generation
    (pkg/openapi/generator.go), the build of an upstream (pkg/upstream/http/builder.go), and
    the rebuild by its refresher (pkg/upstream/http/refresh.go), for every order in which the
    spec's maps may yield the operations. */
module ToolBuild {
  import opened Json
  import opened Registry
  import opened Conflicts

  /** The upstream's own settings: its default limit and default cache for tools that name
      none. */
  datatype Settings = Settings(name: string, toolPrefix: string, rateLimit: string, cache: string)

  // ---------- Generation ----------

  /** The spec has one operation for each path and method. */
  ghost predicate RoutesDistinct(ops: set<Operation>) {
    forall a, b :: a in ops && b in ops && a != b ==> a.path != b.path || a.httpMethod != b.httpMethod
  }

  /** An order in which the maps of paths and of methods may yield the operations. */
  ghost predicate IsListing(order: seq<Operation>, ops: set<Operation>) {
    && (forall op :: op in order <==> op in ops)
    && (forall i, j :: 0 <= i < j < |order| ==> order[i] != order[j])
  }

  function ToolOf(op: Operation, prefix: string, style: NameStyle): GeneratedTool {
    GeneratedTool(PrefixedTool(ToolName(op.base, prefix, style), op.path, op.httpMethod), op)
  }

  function AllTools(ops: seq<Operation>, prefix: string, style: NameStyle): seq<GeneratedTool> {
    if ops == [] then []
    else
      var last := ops[|ops| - 1];
      AllTools(ops[..|ops| - 1], prefix, style) + (if last.enabled then [ToolOf(last, prefix, style)] else [])
  }

  /** The tools generated when the operations come in this order. */
  ghost function Generated(order: seq<Operation>, prefix: string, style: NameStyle,
                           resolution: string): Option<seq<GeneratedTool>> {
    Filtered(AllTools(order, prefix, style), resolution)
  }

  method GenerateTools(ops: set<Operation>, prefix: string, style: NameStyle, resolution: string)
    returns (r: Option<seq<GeneratedTool>>)
    ensures exists order :: IsListing(order, ops) && r == Generated(order, prefix, style, resolution)
  {
    var tools: seq<GeneratedTool> := [];
    var remaining := ops;
    ghost var order: seq<Operation> := [];
    while remaining != {}
      invariant remaining <= ops && IsListing(order, ops - remaining)
      invariant tools == AllTools(order, prefix, style)
      decreases |remaining|
    {
      var op :| op in remaining;
      assert (order + [op])[..|order|] == order;
      order := order + [op];
      remaining := remaining - {op};
      if op.enabled {
        tools := tools + [ToolOf(op, prefix, style)];
      }
    }
    r := FilterSurvivors(tools, resolution);
    assert IsListing(order, ops) && r == Generated(order, prefix, style, resolution);
  }

  /** Generated tools are the enabled operations, each once, under the name its prefix
      gives. */
  lemma {:induction false} AllToolsFacts(order: seq<Operation>, ops: set<Operation>, prefix: string, style: NameStyle)
    requires RoutesDistinct(ops) && IsListing(order, ops)
    ensures OperationsDistinct(AllTools(order, prefix, style))
    ensures forall t :: t in AllTools(order, prefix, style) <==>
            t.operation in ops && t.operation.enabled && t == ToolOf(t.operation, prefix, style)
    decreases |order|
  {
    if order != [] {
      var init, last := order[..|order| - 1], order[|order| - 1];
      var before := AllTools(init, prefix, style);
      assert AllTools(order, prefix, style) == before + (if last.enabled then [ToolOf(last, prefix, style)] else []);
      assert order == init + [last];
      hide AllTools, ToolName;
      ListingWithoutLast(order, ops);
      AllToolsFacts(init, ops - {last}, prefix, style);
      forall i | 0 <= i < |before|
        ensures before[i].key.path != last.path || before[i].key.httpMethod != last.httpMethod
      {
        assert before[i] in before;
        assert before[i].operation in ops && before[i].operation != last && last in ops;
      }
    }
  }

  lemma ListingWithoutLast(order: seq<Operation>, ops: set<Operation>)
    requires IsListing(order, ops) && order != []
    ensures var last := order[|order| - 1];
            last in ops && IsListing(order[..|order| - 1], ops - {last})
  {
    var init, last := order[..|order| - 1], order[|order| - 1];
    assert order == init + [last];
    forall op ensures op in init <==> op in ops - {last} {
      if op in init {
        var i :| 0 <= i < |init| && init[i] == op;
        assert order[i] == op;
      }
    }
  }

  // ---------- The order of the operations ----------

  lemma {:induction false} SomeListing(ops: set<Operation>) returns (order: seq<Operation>)
    ensures IsListing(order, ops)
    decreases |ops|
  {
    order := [];
    if ops != {} {
      var op :| op in ops;
      var rest := SomeListing(ops - {op});
      order := [op] + rest;
    }
  }

  lemma ListingFrom(ops: set<Operation>, op: Operation) returns (order: seq<Operation>)
    requires op in ops
    ensures IsListing(order, ops) && order != [] && order[0] == op
  {
    var rest := SomeListing(ops - {op});
    order := [op] + rest;
  }

  /** The tools that survive when the operations come in this order, if generation succeeds. */
  ghost function Surviving(order: seq<Operation>, prefix: string, style: NameStyle,
                           resolution: string): Option<set<GeneratedTool>> {
    var tools := Generated(order, prefix, style, resolution);
    if tools.Some? then Some(set t | t in tools.value) else None
  }

  ghost predicate Enabled(op: Operation, ops: set<Operation>) {
    op in ops && op.enabled
  }

  /** Another enabled operation gets the same name. */
  ghost predicate Shares(op: Operation, ops: set<Operation>, prefix: string, style: NameStyle) {
    exists b :: Enabled(b, ops) && b != op && ToolName(b.base, prefix, style) == ToolName(op.base, prefix, style)
  }

  ghost predicate NamesRepeat(ops: set<Operation>, prefix: string, style: NameStyle) {
    exists a :: Enabled(a, ops) && Shares(a, ops, prefix, style)
  }

  lemma KeyIndex(tools: seq<GeneratedTool>, t: GeneratedTool) returns (i: nat)
    requires t in tools
    ensures i < |tools| && tools[i] == t && KeysOf(tools)[i] == t.key
  {
    i :| 0 <= i < |tools| && tools[i] == t;
  }

  /** A name occurs more than once among the generated tools exactly when operations share it. */
  lemma CountIffShares(order: seq<Operation>, ops: set<Operation>, prefix: string, style: NameStyle, op: Operation)
    requires RoutesDistinct(ops) && IsListing(order, ops) && Enabled(op, ops)
    ensures Count(KeysOf(AllTools(order, prefix, style)), ToolName(op.base, prefix, style)) > 1 <==>
            Shares(op, ops, prefix, style)
  {
    var tools := AllTools(order, prefix, style);
    var keys, name := KeysOf(tools), ToolName(op.base, prefix, style);
    AllToolsFacts(order, ops, prefix, style);
    CountFacts(keys, name);
    hide AllTools, ToolName, Count, IsListing;
    if i, j :| 0 <= i < j < |keys| && keys[i].name == name && keys[j].name == name {
      assert tools[i] in tools && tools[j] in tools;
      var b := if tools[i].operation == op then tools[j].operation else tools[i].operation;
      assert Enabled(b, ops) && b != op && ToolName(b.base, prefix, style) == name;
    }
    if Shares(op, ops, prefix, style) {
      var b :| Enabled(b, ops) && b != op && ToolName(b.base, prefix, style) == name;
      assert ToolOf(op, prefix, style) in tools && ToolOf(b, prefix, style) in tools;
      var i := KeyIndex(tools, ToolOf(op, prefix, style));
      var j := KeyIndex(tools, ToolOf(b, prefix, style));
      assert i != j && keys[i].name == name && keys[j].name == name;
      if i < j {
        assert Count(keys, name) > 1;
      } else {
        assert j < i && Count(keys, name) > 1;
      }
    }
  }

  lemma UnrepeatedIff(order: seq<Operation>, ops: set<Operation>, prefix: string, style: NameStyle)
    requires RoutesDistinct(ops) && IsListing(order, ops)
    ensures Unrepeated(KeysOf(AllTools(order, prefix, style))) <==> !NamesRepeat(ops, prefix, style)
  {
    var tools := AllTools(order, prefix, style);
    var keys := KeysOf(tools);
    AllToolsFacts(order, ops, prefix, style);
    NoRepeatIff(keys);
    hide AllTools, ToolName, Count, IsListing, Shares, Unrepeated;
    if n :| Count(keys, n) > 1 {
      CountFacts(keys, n);
      var i, j :| 0 <= i < j < |keys| && keys[i].name == n && keys[j].name == n;
      assert tools[i] in tools;
      CountIffShares(order, ops, prefix, style, tools[i].operation);
      assert Enabled(tools[i].operation, ops);
    }
    if a :| Enabled(a, ops) && Shares(a, ops, prefix, style) {
      CountIffShares(order, ops, prefix, style, a);
    }
  }

  ghost function ToolsOfAll(ops: set<Operation>, prefix: string, style: NameStyle): set<GeneratedTool> {
    set op | op in ops :: ToolOf(op, prefix, style)
  }

  /** A set of generated tools is that of some operations if it has theirs and no others. */
  lemma ToolsAre(tools: set<GeneratedTool>, ops: set<Operation>, prefix: string, style: NameStyle)
    requires forall t :: t in tools <==> t.operation in ops && t == ToolOf(t.operation, prefix, style)
    ensures tools == ToolsOfAll(ops, prefix, style)
  {
    hide ToolName;
    forall op | op in ops ensures ToolOf(op, prefix, style) in tools {
      assert ToolOf(op, prefix, style).operation == op;
    }
  }

  /** The operations whose tools survive when no name repeats or the resolution is not
      `first_wins`; None if generation fails. */
  ghost function SurvivingAnyhow(ops: set<Operation>, prefix: string, style: NameStyle,
                                 resolution: string): Option<set<Operation>> {
    if !NamesRepeat(ops, prefix, style) then Some(set op | op in ops && op.enabled)
    else if resolution == "skip" then Some(set op | op in ops && op.enabled && !Shares(op, ops, prefix, style))
    else None
  }

  lemma OrderFreeSurvivors(order: seq<Operation>, ops: set<Operation>, prefix: string, style: NameStyle,
                           resolution: string)
    requires RoutesDistinct(ops) && IsListing(order, ops)
    requires resolution != "first_wins" || !NamesRepeat(ops, prefix, style)
    ensures var kept := SurvivingAnyhow(ops, prefix, style, resolution);
            Surviving(order, prefix, style, resolution) ==
            if kept.Some? then Some(ToolsOfAll(kept.value, prefix, style)) else None
  {
    var tools := AllTools(order, prefix, style);
    var keys := KeysOf(tools);
    AllToolsFacts(order, ops, prefix, style);
    UnrepeatedIff(order, ops, prefix, style);
    hide AllTools, ToolName, NamesRepeat, Shares, Singles, Kept, Count, ToolsOfAll, IsListing;
    var kept := SurvivingAnyhow(ops, prefix, style, resolution);
    if kept.Some? {
      FilteredFacts(tools, resolution);
      if !Unrepeated(keys) {
        forall op | Enabled(op, ops)
          ensures ToolOf(op, prefix, style).key in Singles(keys, |keys|) <==> !Shares(op, ops, prefix, style)
        {
          SingleIff(order, ops, prefix, style, op);
        }
      }
      var got := Surviving(order, prefix, style, resolution).value;
      forall t ensures t in got <==> t.operation in kept.value && t == ToolOf(t.operation, prefix, style) {
        assert t in tools ==> Enabled(t.operation, ops);
      }
      ToolsAre(got, kept.value, prefix, style);
    }
  }

  lemma SingleIff(order: seq<Operation>, ops: set<Operation>, prefix: string, style: NameStyle, op: Operation)
    requires RoutesDistinct(ops) && IsListing(order, ops) && Enabled(op, ops)
    ensures var keys := KeysOf(AllTools(order, prefix, style));
            ToolOf(op, prefix, style).key in Singles(keys, |keys|) <==> !Shares(op, ops, prefix, style)
  {
    var tools, t := AllTools(order, prefix, style), ToolOf(op, prefix, style);
    var keys := KeysOf(tools);
    AllToolsFacts(order, ops, prefix, style);
    CountIffShares(order, ops, prefix, style, op);
    hide AllTools, ToolName, Shares, Singles, Count, IsListing;
    SkipFacts(keys, |keys|);
    CountFacts(keys, t.key.name);
    var i := KeyIndex(tools, t);
    assert keys[i] in keys;
    assert Count(keys, t.key.name) >= 1;
  }

  lemma {:induction false} FirstSurvives(tools: seq<PrefixedTool>)
    requires tools != []
    ensures tools[0] in FirstOccurrences(tools)
  {
    var init := tools[..|tools| - 1];
    if init != [] {
      FirstSurvives(init);
    }
  }

  lemma {:induction false} HeadTool(order: seq<Operation>, prefix: string, style: NameStyle)
    requires order != [] && order[0].enabled
    ensures AllTools(order, prefix, style) != [] && AllTools(order, prefix, style)[0] == ToolOf(order[0], prefix, style)
  {
    hide ToolOf;
    if |order| > 1 {
      HeadTool(order[..|order| - 1], prefix, style);
    }
  }

  lemma NamedOnce(kept: seq<GeneratedTool>, t: GeneratedTool, u: GeneratedTool)
    requires Unrepeated(KeysOf(kept)) && t in kept && u in kept && t.key.name == u.key.name
    ensures t == u
  {
    var i := KeyIndex(kept, t);
    var j := KeyIndex(kept, u);
    assert KeysOf(kept)[i].name == KeysOf(kept)[j].name;
  }

  /** Of two tools of one name only one survives, and each is made from an operation. */
  lemma OneOfEachName(order: seq<Operation>, ops: set<Operation>, prefix: string, style: NameStyle, resolution: string)
    requires RoutesDistinct(ops) && IsListing(order, ops) && Surviving(order, prefix, style, resolution).Some?
    ensures var kept := Surviving(order, prefix, style, resolution).value;
            && (forall t, u :: t in kept && u in kept && t.key.name == u.key.name ==> t == u)
            && (forall t :: t in kept ==> t.operation in ops && t == ToolOf(t.operation, prefix, style))
  {
    var tools := AllTools(order, prefix, style);
    var kept := Generated(order, prefix, style, resolution).value;
    AllToolsFacts(order, ops, prefix, style);
    FilteredFacts(tools, resolution);
    hide AllTools, ToolName, Resolve, IsListing, Unrepeated, KeysOf, Filtered, RoutesDistinct, OperationsDistinct;
    forall t, u | t in kept && u in kept && t.key.name == u.key.name ensures t == u {
      NamedOnce(kept, t, u);
    }
  }

  /** Under `first_wins` the tool that comes first in the order survives. */
  lemma FirstKept(order: seq<Operation>, ops: set<Operation>, prefix: string, style: NameStyle)
    requires RoutesDistinct(ops) && IsListing(order, ops) && order != [] && order[0].enabled
    ensures var kept := Surviving(order, prefix, style, "first_wins");
            kept.Some? && ToolOf(order[0], prefix, style) in kept.value
  {
    var tools := AllTools(order, prefix, style);
    AllToolsFacts(order, ops, prefix, style);
    FilteredFacts(tools, "first_wins");
    HeadTool(order, prefix, style);
    hide AllTools, ToolName, Kept, FirstOccurrences, IsListing, RoutesDistinct, OperationsDistinct, Unrepeated;
    FirstSurvives(KeysOf(tools));
    assert tools[0] in tools && KeysOf(tools)[0] == tools[0].key;
  }

  /** The same tools survive in whatever order the maps yield the operations if and only if
      the resolution is not `first_wins` or no two enabled operations get one name. */
  lemma SurvivorsOrderFreeIff(ops: set<Operation>, prefix: string, style: NameStyle, resolution: string)
    requires RoutesDistinct(ops)
    ensures (forall o, p :: IsListing(o, ops) && IsListing(p, ops) ==>
               Surviving(o, prefix, style, resolution) == Surviving(p, prefix, style, resolution)) <==>
            (resolution != "first_wins" || !NamesRepeat(ops, prefix, style))
  {
    hide IsListing, Surviving, NamesRepeat, RoutesDistinct, ToolName;
    if resolution != "first_wins" || !NamesRepeat(ops, prefix, style) {
      forall o | IsListing(o, ops)
        ensures var kept := SurvivingAnyhow(ops, prefix, style, resolution);
                Surviving(o, prefix, style, resolution) ==
                if kept.Some? then Some(ToolsOfAll(kept.value, prefix, style)) else None
      {
        OrderFreeSurvivors(o, ops, prefix, style, resolution);
      }
    } else {
      var a, b := Repeated(ops, prefix, style);
      var o := ListingFrom(ops, a);
      var p := ListingFrom(ops, b);
      FirstWins(o, ops, prefix, style, a, b);
      FirstWins(p, ops, prefix, style, b, a);
      assert Surviving(o, prefix, style, resolution) != Surviving(p, prefix, style, resolution);
    }
  }

  lemma Repeated(ops: set<Operation>, prefix: string, style: NameStyle) returns (a: Operation, b: Operation)
    requires NamesRepeat(ops, prefix, style)
    ensures a in ops && a.enabled && b in ops && b.enabled && a != b
    ensures ToolName(a.base, prefix, style) == ToolName(b.base, prefix, style)
  {
    hide ToolName;
    a :| Enabled(a, ops) && Shares(a, ops, prefix, style);
    b :| Enabled(b, ops) && b != a && ToolName(b.base, prefix, style) == ToolName(a.base, prefix, style);
  }

  /** Of two operations of one name the one that comes first of all survives, not the other. */
  lemma FirstWins(order: seq<Operation>, ops: set<Operation>, prefix: string, style: NameStyle, a: Operation,
                  b: Operation)
    requires RoutesDistinct(ops) && IsListing(order, ops) && order != [] && order[0] == a && a.enabled && a != b
    requires ToolName(a.base, prefix, style) == ToolName(b.base, prefix, style)
    ensures var kept := Surviving(order, prefix, style, "first_wins");
            kept.Some? && ToolOf(a, prefix, style) in kept.value && ToolOf(b, prefix, style) !in kept.value
  {
    FirstKept(order, ops, prefix, style);
    OneOfEachName(order, ops, prefix, style, "first_wins");
    hide Surviving, IsListing, RoutesDistinct, ToolName;
  }

  // ---------- Entries ----------

  function HandlerOf(page: Page): Option<string> {
    if page.Page? then page.handler else None
  }

  /** A tool's own limit and cache come before the upstream's; a tool may name the empty
      cache to have none. */
  function EntryOf(t: GeneratedTool, settings: Settings): Entry {
    var op := t.operation;
    Entry(t.key.name, op.definition, op.path, op.httpMethod, op.node, HandlerOf(op.page),
          if op.rateLimit == "" then settings.rateLimit else op.rateLimit,
          if op.cache.Some? then op.cache.value else settings.cache, "")
  }

  /** What the refresher makes of the same tool. */
  function RefreshedEntryOf(t: GeneratedTool): Entry {
    var op := t.operation;
    Entry(t.key.name, op.definition, op.path, op.httpMethod, op.node, None, "", "", "")
  }

  function EntriesOf(tools: seq<GeneratedTool>, settings: Settings): (entries: seq<Entry>)
    ensures |entries| == |tools| && forall i :: 0 <= i < |tools| ==> entries[i] == EntryOf(tools[i], settings)
  {
    seq(|tools|, i requires 0 <= i < |tools| => EntryOf(tools[i], settings))
  }

  function RefreshedEntriesOf(tools: seq<GeneratedTool>): (entries: seq<Entry>)
    ensures |entries| == |tools| && forall i :: 0 <= i < |tools| ==> entries[i] == RefreshedEntryOf(tools[i])
  {
    seq(|tools|, i requires 0 <= i < |tools| => RefreshedEntryOf(tools[i]))
  }

  /** The upstream a successful build gives: every tool that survives conflict resolution
      must pass validation, and its page, if it has one, must load. */
  ghost function Built(settings: Settings, root: Option<nat>, order: seq<Operation>, style: NameStyle,
                       resolution: string): Option<Upstream> {
    var tools := Generated(order, settings.toolPrefix, style, resolution);
    if tools.Some? && forall t :: t in tools.value ==> t.operation.passes && !t.operation.page.PageFails?
    then Some(Upstream(settings.name, settings.toolPrefix, EntriesOf(tools.value, settings), root))
    else None
  }

  method Build(settings: Settings, root: Option<nat>, ops: set<Operation>, style: NameStyle, resolution: string)
    returns (r: Option<Upstream>)
    ensures exists order :: IsListing(order, ops) && r == Built(settings, root, order, style, resolution)
  {
    hide Generated;
    var tools := GenerateTools(ops, settings.toolPrefix, style, resolution);
    ghost var order :| IsListing(order, ops) && tools == Generated(order, settings.toolPrefix, style, resolution);
    hide IsListing;
    if tools.None? {
      assert Built(settings, root, order, style, resolution) == None;
      return None;
    }
    for i := 0 to |tools.value|
      invariant forall j :: 0 <= j < i ==> tools.value[j].operation.passes
    {
      if !tools.value[i].operation.passes {
        assert tools.value[i] in tools.value;
        assert Built(settings, root, order, style, resolution) == None;
        return None;
      }
    }
    var entries := EntriesWithPages(tools.value, settings);
    if entries.None? {
      assert Built(settings, root, order, style, resolution) == None;
      return None;
    }
    r := Some(Upstream(settings.name, settings.toolPrefix, entries.value, root));
    assert r == Built(settings, root, order, style, resolution);
  }

  method EntriesWithPages(tools: seq<GeneratedTool>, settings: Settings) returns (r: Option<seq<Entry>>)
    ensures r.Some? <==> forall t :: t in tools ==> !t.operation.page.PageFails?
    ensures r.Some? ==> r.value == EntriesOf(tools, settings)
  {
    var entries: seq<Entry> := [];
    for i := 0 to |tools|
      invariant |entries| == i && forall j :: 0 <= j < i ==> entries[j] == EntryOf(tools[j], settings)
      invariant forall j :: 0 <= j < i ==> !tools[j].operation.page.PageFails?
    {
      var op := tools[i].operation;
      var rateLimit := op.rateLimit;
      if rateLimit == "" {
        rateLimit := settings.rateLimit;
      }
      var cacheName := if op.cache.Some? then op.cache.value else settings.cache;
      var ui := None;
      if op.page != NoPage {
        if op.page.PageFails? {
          assert tools[i] in tools;
          return None;
        }
        ui := op.page.handler;
      }
      var e := Entry(tools[i].key.name, op.definition, op.path, op.httpMethod, op.node, ui, rateLimit, cacheName, "");
      entries := entries + [e];
    }
    assert entries == EntriesOf(tools, settings);
    return Some(entries);
  }

  /** What a refresh builds; the page of a tool plays no part in it. */
  ghost function Refreshed(order: seq<Operation>, prefix: string, style: NameStyle,
                           resolution: string): Option<seq<Entry>> {
    var tools := Generated(order, prefix, style, resolution);
    if tools.Some? && forall t :: t in tools.value ==> t.operation.passes
    then Some(RefreshedEntriesOf(tools.value)) else None
  }

  method BuildRefreshed(ops: set<Operation>, prefix: string, style: NameStyle, resolution: string)
    returns (r: Option<seq<Entry>>)
    ensures exists order :: IsListing(order, ops) && r == Refreshed(order, prefix, style, resolution)
  {
    hide Generated;
    var tools := GenerateTools(ops, prefix, style, resolution);
    ghost var order :| IsListing(order, ops) && tools == Generated(order, prefix, style, resolution);
    hide IsListing;
    if tools.None? {
      assert Refreshed(order, prefix, style, resolution) == None;
      return None;
    }
    var entries: seq<Entry> := [];
    for i := 0 to |tools.value|
      invariant |entries| == i && forall j :: 0 <= j < i ==> entries[j] == RefreshedEntryOf(tools.value[j])
      invariant forall j :: 0 <= j < i ==> tools.value[j].operation.passes
    {
      var t := tools.value[i];
      var op := t.operation;
      if !op.passes {
        assert t in tools.value;
        assert Refreshed(order, prefix, style, resolution) == None;
        return None;
      }
      entries := entries + [Entry(t.key.name, op.definition, op.path, op.httpMethod, op.node, None, "", "", "")];
    }
    assert entries == RefreshedEntriesOf(tools.value);
    r := Some(entries);
    assert r == Refreshed(order, prefix, style, resolution);
  }

  // ---------- No conflicts ----------

  /** Whatever the operations, their order and the resolution, a built upstream's entries are
      named from its prefix, none of them twice; and so are refreshed ones. */
  lemma BuiltIsNamedBy(settings: Settings, root: Option<nat>, ops: set<Operation>, order: seq<Operation>,
                       style: NameStyle,
                       resolution: string)
    requires RoutesDistinct(ops) && IsListing(order, ops)
    ensures var built := Built(settings, root, order, style, resolution);
            built.Some? ==> NamedBy(built.value, style)
    ensures var refreshed := Refreshed(order, settings.toolPrefix, style, resolution);
            refreshed.Some? ==> NamedBy(Upstream(settings.name, settings.toolPrefix, refreshed.value, root), style)
  {
    if Generated(order, settings.toolPrefix, style, resolution).Some? {
      var tools := Generated(order, settings.toolPrefix, style, resolution).value;
      AllToolsFacts(order, ops, settings.toolPrefix, style);
      FilteredFacts(AllTools(order, settings.toolPrefix, style), resolution);
      hide Generated, Filtered, AllTools, ToolName, OperationsDistinct, RoutesDistinct, Resolve, IsListing;
      NamedLike(tools, EntriesOf(tools, settings), settings, root, style);
      NamedLike(tools, RefreshedEntriesOf(tools), settings, root, style);
    }
  }

  lemma NamedLike(tools: seq<GeneratedTool>, entries: seq<Entry>, settings: Settings, root: Option<nat>,
                  style: NameStyle)
    requires |entries| == |tools| && forall i :: 0 <= i < |tools| ==> entries[i].name == tools[i].key.name
    requires Unrepeated(KeysOf(tools))
    requires forall t :: t in tools ==> t == ToolOf(t.operation, settings.toolPrefix, style)
    ensures NamedBy(Upstream(settings.name, settings.toolPrefix, entries, root), style)
  {
    hide ToolName;
    forall e | e in entries ensures exists base :: e.name == ToolName(base, settings.toolPrefix, style) {
      var i :| 0 <= i < |entries| && entries[i] == e;
      assert tools[i] in tools;
      assert e.name == ToolName(tools[i].operation.base, settings.toolPrefix, style);
    }
    forall i, j | 0 <= i < j < |entries| ensures entries[i].name != entries[j].name {
      assert KeysOf(tools)[i].name != KeysOf(tools)[j].name;
    }
  }

  datatype Spec = Spec(settings: Settings, root: Option<nat>, ops: set<Operation>, resolution: string)

  /** The upstream is what building the spec gives, for some order of its operations. */
  ghost predicate BuiltFrom(u: Upstream, spec: Spec, style: NameStyle) {
    exists order ::
      IsListing(order, spec.ops) && Built(spec.settings, spec.root, order, style, spec.resolution) == Some(u)
  }

  /** Upstreams built from any specs whatever, whose cut stems do not begin one another, can
      be loaded together, and go on being rebuildable from the stored state. */
  lemma BuiltTogether(specs: seq<Spec>, ups: seq<Upstream>, style: NameStyle, groups: seq<Group>)
    requires |specs| == |ups|
    requires forall i :: 0 <= i < |specs| ==> RoutesDistinct(specs[i].ops) && BuiltFrom(ups[i], specs[i], style)
    requires CutsApart(ups, style)
    ensures PrefixesDistinct(ups) && DistinctNames(Flat(ups))
    ensures FiltersValid(groups) ==> Buildable(StateOf(ups), groups)
  {
    hide Built, RoutesDistinct, IsListing, NamedBy;
    forall u | u in ups ensures NamedBy(u, style) {
      var i :| 0 <= i < |ups| && ups[i] == u;
      var spec := specs[i];
      var order :| IsListing(order, spec.ops) &&
                   Built(spec.settings, spec.root, order, style, spec.resolution) == Some(u);
      BuiltIsNamedBy(spec.settings, spec.root, spec.ops, order, style, spec.resolution);
    }
    NoCrossConflicts(ups, style, groups);
  }
}
