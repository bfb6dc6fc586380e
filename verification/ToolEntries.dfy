/** What the entries of a built upstream are made of, in terms of the spec's operations and the
    upstream's settings (pkg/openapi/generator.go, pkg/openapi/naming.go,
    pkg/upstream/http/builder.go:66-128). */
module ToolEntries {
  import opened Json
  import opened Registry
  import opened Conflicts
  import opened ToolBuild

  /** The text, cut to the length a name may have. */
  function Shortened(text: string, maxLength: int): string {
    if maxLength > 0 && |text| > maxLength then text[..maxLength] else text
  }

  /** Prefix, separator and base name in one, cut at the end. */
  function FullName(op: Operation, prefix: string, style: NameStyle): string {
    Shortened(prefix + style.separator + op.base, style.maxLength)
  }

  /** A tool's name is the whole text of its parts up to the allowed length. */
  lemma NameIsCutText(op: Operation, prefix: string, style: NameStyle)
    ensures ToolName(op.base, prefix, style) == FullName(op, prefix, style)
  {
    var p := prefix + style.separator;
    var whole := p + op.base;
    if style.maxLength > 0 && |p| >= style.maxLength {
      assert whole[..style.maxLength] == p[..style.maxLength];
    } else if style.maxLength > 0 && |op.base| > style.maxLength - |p| {
      assert whole[..style.maxLength] == p + op.base[..style.maxLength - |p|];
    }
  }

  // ---------- What is in an entry ----------

  /** The entry is the operation under its name, with the limit and the cache that the operation
      asks for, and otherwise those of the upstream. */
  ghost predicate MadeFrom(e: Entry, op: Operation, settings: Settings, style: NameStyle) {
    && e.name == FullName(op, settings.toolPrefix, style)
    && e.definition == op.definition && e.path == op.path && e.httpMethod == op.httpMethod && e.node == op.node
    && (op.rateLimit != "" ==> e.rateLimit == op.rateLimit)
    && (op.rateLimit == "" ==> e.rateLimit == settings.rateLimit)
    && (op.cache.Some? ==> e.cacheName == op.cache.value)
    && (op.cache.None? ==> e.cacheName == settings.cache)
    && (op.page.Page? ==> e.ui == op.page.handler)
    && (op.page.NoPage? ==> e.ui == None)
    && e.breaker == ""
  }

  /** After a refresh the entry has neither limit nor cache nor page. */
  ghost predicate RemadeFrom(e: Entry, op: Operation, prefix: string, style: NameStyle) {
    && e.name == FullName(op, prefix, style)
    && e.definition == op.definition && e.path == op.path && e.httpMethod == op.httpMethod && e.node == op.node
    && e.rateLimit == "" && e.cacheName == "" && e.ui == None && e.breaker == ""
  }

  /** No other enabled operation has the operation's name. */
  ghost predicate Alone(op: Operation, ops: set<Operation>, prefix: string, style: NameStyle) {
    forall b :: Enabled(b, ops) && FullName(b, prefix, style) == FullName(op, prefix, style) ==> b == op
  }

  /** None that comes before it in the order has its name. */
  ghost predicate First(order: seq<Operation>, i: nat, prefix: string, style: NameStyle)
    requires i < |order|
  {
    forall j :: 0 <= j < i && order[j].enabled ==>
      FullName(order[j], prefix, style) != FullName(order[i], prefix, style)
  }

  ghost predicate Lonely(ops: set<Operation>, prefix: string, style: NameStyle) {
    forall op :: Enabled(op, ops) ==> Alone(op, ops, prefix, style)
  }

  /** The operations that get a tool: all enabled ones if no two have one name; otherwise, by the
      resolution, the first of each name or those that are alone with theirs. */
  ghost predicate Gets(order: seq<Operation>, i: nat, ops: set<Operation>, prefix: string, style: NameStyle,
                       resolution: string)
    requires i < |order|
  {
    order[i].enabled &&
      if resolution == "first_wins" then First(order, i, prefix, style) else Alone(order[i], ops, prefix, style)
  }

  // ---------- Survivors ----------

  lemma AloneIff(op: Operation, ops: set<Operation>, prefix: string, style: NameStyle)
    ensures Alone(op, ops, prefix, style) <==> !Shares(op, ops, prefix, style)
  {
    forall b: Operation ensures ToolName(b.base, prefix, style) == FullName(b, prefix, style) {
      NameIsCutText(b, prefix, style);
    }
    hide ToolName, FullName;
  }

  lemma LonelyIff(ops: set<Operation>, prefix: string, style: NameStyle)
    ensures Lonely(ops, prefix, style) <==> !NamesRepeat(ops, prefix, style)
  {
    forall op ensures Alone(op, ops, prefix, style) <==> !Shares(op, ops, prefix, style) {
      AloneIff(op, ops, prefix, style);
    }
    hide Alone, Shares;
  }

  lemma {:induction false} FirstOccursAt(tools: seq<PrefixedTool>, i: nat)
    requires i < |tools| && forall j :: 0 <= j < i ==> tools[j].name != tools[i].name
    ensures tools[i] in FirstOccurrences(tools)
  {
    var init, last := tools[..|tools| - 1], tools[|tools| - 1];
    if i < |init| {
      FirstOccursAt(init, i);
    } else {
      assert last.name !in NamesOf(init);
    }
  }

  ghost predicate Before(t: GeneratedTool, order: seq<Operation>, i: nat, prefix: string, style: NameStyle)
    requires i <= |order|
  {
    exists h :: 0 <= h < i && order[h].enabled && t == ToolOf(order[h], prefix, style)
  }

  lemma LongerOrder(t: GeneratedTool, init: seq<Operation>, order: seq<Operation>, i: nat, prefix: string,
                    style: NameStyle)
    requires i <= |init| && init <= order && Before(t, init, i, prefix, style)
    ensures Before(t, order, i, prefix, style)
  {
    hide ToolOf;
    var h :| 0 <= h < i && init[h].enabled && t == ToolOf(init[h], prefix, style);
    assert order[h] == init[h];
  }

  lemma {:induction false} ToolAt(order: seq<Operation>, i: nat, prefix: string, style: NameStyle) returns (k: nat)
    requires i < |order| && order[i].enabled
    ensures var tools := AllTools(order, prefix, style);
            && k < |tools| && tools[k] == ToolOf(order[i], prefix, style)
            && forall j :: 0 <= j < k ==> Before(tools[j], order, i, prefix, style)
    decreases |order|
  {
    var init := order[..|order| - 1];
    hide ToolOf;
    if i < |init| {
      k := ToolAt(init, i, prefix, style);
      var before := AllTools(init, prefix, style);
      forall j | 0 <= j < k ensures Before(AllTools(order, prefix, style)[j], order, i, prefix, style) {
        assert AllTools(order, prefix, style)[j] == before[j];
        LongerOrder(before[j], init, order, i, prefix, style);
      }
    } else {
      k := |AllTools(init, prefix, style)|;
      AllFrom(init, prefix, style);
      var before := AllTools(init, prefix, style);
      forall j | 0 <= j < k ensures Before(AllTools(order, prefix, style)[j], order, i, prefix, style) {
        assert AllTools(order, prefix, style)[j] == before[j] && before[j] in before;
        LongerOrder(before[j], init, order, i, prefix, style);
      }
    }
  }

  lemma {:induction false} AllFrom(order: seq<Operation>, prefix: string, style: NameStyle)
    ensures forall t :: t in AllTools(order, prefix, style) ==>
              Before(t, order, |order|, prefix, style)
  {
    hide ToolOf;
    if order != [] {
      var init := order[..|order| - 1];
      AllFrom(init, prefix, style);
      forall t | Before(t, init, |init|, prefix, style) ensures Before(t, order, |order|, prefix, style) {
        LongerOrder(t, init, order, |init|, prefix, style);
      }
    }
  }

  lemma ToolIsOfOperation(op: Operation, prefix: string, style: NameStyle)
    ensures var t := ToolOf(op, prefix, style);
            t.operation == op && t.key.name == ToolName(op.base, prefix, style) == FullName(op, prefix, style)
  {
    NameIsCutText(op, prefix, style);
  }

  /** Under `first_wins` the operation that is the first of its name gets a tool. */
  lemma FirstGets(order: seq<Operation>, i: nat, ops: set<Operation>, prefix: string, style: NameStyle)
    requires RoutesDistinct(ops) && IsListing(order, ops) && i < |order| && order[i].enabled
    requires First(order, i, prefix, style)
    ensures var kept := Surviving(order, prefix, style, "first_wins");
            kept.Some? && ToolOf(order[i], prefix, style) in kept.value
  {
    var tools := AllTools(order, prefix, style);
    var keys := KeysOf(tools);
    var k := ToolAt(order, i, prefix, style);
    AllToolsFacts(order, ops, prefix, style);
    FilteredFacts(tools, "first_wins");
    hide AllTools, ToolOf, ToolName, FullName, Kept, FirstOccurrences, IsListing, RoutesDistinct, OperationsDistinct;
    ToolIsOfOperation(order[i], prefix, style);
    forall j | 0 <= j < k ensures keys[j].name != keys[k].name {
      var h :| 0 <= h < i && order[h].enabled && tools[j] == ToolOf(order[h], prefix, style);
      ToolIsOfOperation(order[h], prefix, style);
    }
    FirstOccursAt(keys, k);
    assert keys[k] in keys;
  }

  lemma EarlierGets(order: seq<Operation>, i: nat, ops: set<Operation>, prefix: string, style: NameStyle)
    returns (j: nat)
    requires i < |order| && order[i].enabled && !First(order, i, prefix, style)
    ensures j < i && order[j].enabled && First(order, j, prefix, style)
    ensures FullName(order[j], prefix, style) == FullName(order[i], prefix, style)
  {
    hide FullName;
    j :| 0 <= j < i && order[j].enabled && FullName(order[j], prefix, style) == FullName(order[i], prefix, style);
    if !First(order, j, prefix, style) {
      j := EarlierGets(order, j, ops, prefix, style);
    }
  }

  /** Of each name, exactly the first operation gets a tool under `first_wins`. */
  lemma FirstGetsIff(order: seq<Operation>, i: nat, ops: set<Operation>, prefix: string, style: NameStyle)
    requires RoutesDistinct(ops) && IsListing(order, ops) && i < |order| && order[i].enabled
    ensures var kept := Surviving(order, prefix, style, "first_wins");
            kept.Some? && (ToolOf(order[i], prefix, style) in kept.value <==> First(order, i, prefix, style))
  {
    hide *;
    if First(order, i, prefix, style) {
      FirstGets(order, i, ops, prefix, style);
    } else {
      var j := EarlierGets(order, i, ops, prefix, style);
      FirstGets(order, j, ops, prefix, style);
      OneOfEachName(order, ops, prefix, style, "first_wins");
      ToolIsOfOperation(order[i], prefix, style);
      ToolIsOfOperation(order[j], prefix, style);
      ListedOnce(order, ops, j, i);
    }
  }

  lemma ListedOnce(order: seq<Operation>, ops: set<Operation>, i: nat, j: nat)
    requires IsListing(order, ops) && i < j < |order|
    ensures order[i] != order[j]
  {
  }

  /** Generation fails exactly if names repeat and neither resolution that copes is chosen. */
  lemma GenerationIff(order: seq<Operation>, ops: set<Operation>, prefix: string, style: NameStyle, resolution: string)
    requires RoutesDistinct(ops) && IsListing(order, ops)
    ensures Generated(order, prefix, style, resolution).Some? <==>
            Lonely(ops, prefix, style) || resolution == "first_wins" || resolution == "skip"
  {
    LonelyIff(ops, prefix, style);
    UnrepeatedIff(order, ops, prefix, style);
    hide Lonely, NamesRepeat, AllTools, Unrepeated, IsListing, RoutesDistinct, KeysOf, Kept;
  }

  /** The tools that are generated are those of the operations that get one. */
  lemma GeneratedIff(order: seq<Operation>, ops: set<Operation>, prefix: string, style: NameStyle, resolution: string,
                     i: nat)
    requires RoutesDistinct(ops) && IsListing(order, ops) && i < |order|
    requires Generated(order, prefix, style, resolution).Some?
    ensures ToolOf(order[i], prefix, style) in Generated(order, prefix, style, resolution).value <==>
            Gets(order, i, ops, prefix, style, resolution)
  {
    var tools := Generated(order, prefix, style, resolution).value;
    assert forall t :: t in tools <==> t in Surviving(order, prefix, style, resolution).value;
    ToolIsOfOperation(order[i], prefix, style);
    hide ToolOf, ToolName, FullName, IsListing, RoutesDistinct, Generated, Surviving, First, Alone;
    assert order[i] in ops by { Listed(order, ops, i); }
    if !order[i].enabled {
      OnlyEnabled(order, ops, prefix, style, resolution);
    } else if resolution == "first_wins" {
      FirstGetsIff(order, i, ops, prefix, style);
    } else {
      OtherGets(order, i, ops, prefix, style, resolution);
    }
  }

  lemma Listed(order: seq<Operation>, ops: set<Operation>, i: nat)
    requires IsListing(order, ops) && i < |order|
    ensures order[i] in ops
  {
  }

  lemma OnlyEnabled(order: seq<Operation>, ops: set<Operation>, prefix: string, style: NameStyle, resolution: string)
    requires RoutesDistinct(ops) && IsListing(order, ops) && Generated(order, prefix, style, resolution).Some?
    ensures forall t :: t in Generated(order, prefix, style, resolution).value ==>
              Enabled(t.operation, ops) && t == ToolOf(t.operation, prefix, style)
  {
    AllToolsFacts(order, ops, prefix, style);
    FilteredFacts(AllTools(order, prefix, style), resolution);
    hide AllTools, Filtered, ToolOf, Resolve, KeysOf, IsListing, RoutesDistinct, OperationsDistinct, Unrepeated;
  }

  lemma OtherGets(order: seq<Operation>, i: nat, ops: set<Operation>, prefix: string, style: NameStyle,
                  resolution: string)
    requires RoutesDistinct(ops) && IsListing(order, ops) && i < |order| && order[i].enabled && order[i] in ops
    requires resolution != "first_wins" && Surviving(order, prefix, style, resolution).Some?
    ensures ToolOf(order[i], prefix, style) in Surviving(order, prefix, style, resolution).value <==>
            Alone(order[i], ops, prefix, style)
  {
    var op := order[i];
    OrderFreeSurvivors(order, ops, prefix, style, resolution);
    AloneIff(op, ops, prefix, style);
    hide Surviving, Alone, Shares, IsListing, RoutesDistinct, ToolOf;
    var kept := SurvivingAnyhow(ops, prefix, style, resolution).value;
    assert op in kept <==> !Shares(op, ops, prefix, style);
    ToolOfIn(op, kept, prefix, style);
  }

  lemma ToolOfIn(op: Operation, ops: set<Operation>, prefix: string, style: NameStyle)
    ensures ToolOf(op, prefix, style) in ToolsOfAll(ops, prefix, style) <==> op in ops
  {
    hide ToolName;
    assert ToolOf(op, prefix, style).operation == op;
  }

  // ---------- Entries ----------

  lemma EntryMade(op: Operation, settings: Settings, style: NameStyle)
    ensures MadeFrom(EntryOf(ToolOf(op, settings.toolPrefix, style), settings), op, settings, style)
    ensures RemadeFrom(RefreshedEntryOf(ToolOf(op, settings.toolPrefix, style)), op, settings.toolPrefix, style)
  {
    NameIsCutText(op, settings.toolPrefix, style);
    hide ToolName, FullName;
  }

  /** The entries are exactly those of the operations that get a tool. */
  ghost predicate EntriesMade(entries: seq<Entry>, order: seq<Operation>, ops: set<Operation>, settings: Settings,
                              style: NameStyle, resolution: string) {
    && (forall e :: e in entries ==>
          exists i :: 0 <= i < |order| && Gets(order, i, ops, settings.toolPrefix, style, resolution)
            && MadeFrom(e, order[i], settings, style))
    && (forall i :: 0 <= i < |order| && Gets(order, i, ops, settings.toolPrefix, style, resolution) ==>
          exists e :: e in entries && MadeFrom(e, order[i], settings, style))
  }

  ghost predicate EntriesRemade(entries: seq<Entry>, order: seq<Operation>, ops: set<Operation>, prefix: string,
                                style: NameStyle, resolution: string) {
    && (forall e :: e in entries ==>
          exists i :: 0 <= i < |order| && Gets(order, i, ops, prefix, style, resolution)
            && RemadeFrom(e, order[i], prefix, style))
    && (forall i :: 0 <= i < |order| && Gets(order, i, ops, prefix, style, resolution) ==>
          exists e :: e in entries && RemadeFrom(e, order[i], prefix, style))
  }

  ghost predicate ToolsMatch(tools: seq<GeneratedTool>, order: seq<Operation>, ops: set<Operation>, prefix: string,
                             style: NameStyle, resolution: string) {
    && (forall t :: t in tools ==> exists i :: Owns(t, order, i, ops, prefix, style, resolution))
    && (forall i :: 0 <= i < |order| && Gets(order, i, ops, prefix, style, resolution) ==>
          exists t :: t in tools && Owns(t, order, i, ops, prefix, style, resolution))
  }

  ghost predicate Owns(t: GeneratedTool, order: seq<Operation>, i: int, ops: set<Operation>, prefix: string,
                       style: NameStyle, resolution: string) {
    && 0 <= i < |order| && Gets(order, i, ops, prefix, style, resolution)
    && t == ToolOf(order[i], prefix, style) && t.operation == order[i]
  }

  /** The generated tools are those of the operations that get one, in both directions. */
  lemma ToolsAreOfThoseThatGet(order: seq<Operation>, ops: set<Operation>, prefix: string, style: NameStyle,
                               resolution: string)
    requires RoutesDistinct(ops) && IsListing(order, ops) && Generated(order, prefix, style, resolution).Some?
    ensures ToolsMatch(Generated(order, prefix, style, resolution).value, order, ops, prefix, style, resolution)
  {
    var tools := Generated(order, prefix, style, resolution).value;
    forall i | 0 <= i < |order|
      ensures ToolOf(order[i], prefix, style) in tools <==> Gets(order, i, ops, prefix, style, resolution)
      ensures ToolOf(order[i], prefix, style).operation == order[i]
    {
      GeneratedIff(order, ops, prefix, style, resolution, i);
      ToolIsOfOperation(order[i], prefix, style);
    }
    OnlyEnabled(order, ops, prefix, style, resolution);
    hide Generated, ToolOf, Gets, RoutesDistinct;
    forall t | t in tools ensures exists i :: Owns(t, order, i, ops, prefix, style, resolution) {
      var i :| 0 <= i < |order| && order[i] == t.operation;
      assert Owns(t, order, i, ops, prefix, style, resolution);
    }
    forall i | 0 <= i < |order| && Gets(order, i, ops, prefix, style, resolution)
      ensures exists t :: t in tools && Owns(t, order, i, ops, prefix, style, resolution)
    {
      assert Owns(ToolOf(order[i], prefix, style), order, i, ops, prefix, style, resolution);
    }
  }

  /** Every operation that gets a tool passes validation. */
  ghost predicate AllPass(order: seq<Operation>, ops: set<Operation>, prefix: string, style: NameStyle,
                          resolution: string) {
    forall i :: 0 <= i < |order| && Gets(order, i, ops, prefix, style, resolution) ==> order[i].passes
  }

  ghost predicate AllPagesLoad(order: seq<Operation>, ops: set<Operation>, prefix: string, style: NameStyle,
                               resolution: string) {
    forall i :: 0 <= i < |order| && Gets(order, i, ops, prefix, style, resolution) ==> !order[i].page.PageFails?
  }

  /** A build succeeds exactly if the names can be resolved and every operation that gets a tool
      passes validation and has its page. The entries are then those operations, each under its
      whole name cut to length, with its own limit and cache before the upstream's. */
  lemma BuiltEntriesAre(settings: Settings, root: Option<nat>, ops: set<Operation>, order: seq<Operation>,
                        style: NameStyle, resolution: string)
    requires RoutesDistinct(ops) && IsListing(order, ops)
    ensures var p, built := settings.toolPrefix, Built(settings, root, order, style, resolution);
            && (built.Some? <==>
                  && (Lonely(ops, p, style) || resolution == "first_wins" || resolution == "skip")
                  && AllPass(order, ops, p, style, resolution) && AllPagesLoad(order, ops, p, style, resolution))
            && (built.Some? ==>
                  && built.value.name == settings.name && built.value.toolPrefix == settings.toolPrefix
                  && built.value.root == root
                  && EntriesMade(built.value.entries, order, ops, settings, style, resolution))
  {
    hide *;
    var p := settings.toolPrefix;
    GenerationIff(order, ops, p, style, resolution);
    BuiltIs(settings, root, order, style, resolution);
    if Generated(order, p, style, resolution).Some? {
      var tools := Generated(order, p, style, resolution).value;
      ToolsAreOfThoseThatGet(order, ops, p, style, resolution);
      PassesMatch(tools, order, ops, p, style, resolution);
      EntriesAreMade(tools, order, ops, settings, style, resolution);
    }
  }

  lemma BuiltIs(settings: Settings, root: Option<nat>, order: seq<Operation>, style: NameStyle, resolution: string)
    ensures var tools := Generated(order, settings.toolPrefix, style, resolution);
            var built := Built(settings, root, order, style, resolution);
            var refreshed := Refreshed(order, settings.toolPrefix, style, resolution);
            && (built.Some? <==>
                  && tools.Some? && (forall t :: t in tools.value ==> t.operation.passes)
                  && (forall t :: t in tools.value ==> !t.operation.page.PageFails?))
            && (built.Some? ==>
                  built.value == Upstream(settings.name, settings.toolPrefix, EntriesOf(tools.value, settings), root))
            && (refreshed.Some? <==> tools.Some? && (forall t :: t in tools.value ==> t.operation.passes))
            && (refreshed.Some? ==> refreshed.value == RefreshedEntriesOf(tools.value))
  {
    hide Generated, EntriesOf, RefreshedEntriesOf;
  }

  lemma PassesMatch(tools: seq<GeneratedTool>, order: seq<Operation>, ops: set<Operation>, p: string, style: NameStyle,
                    resolution: string)
    requires ToolsMatch(tools, order, ops, p, style, resolution)
    ensures (forall t :: t in tools ==> t.operation.passes) <==> AllPass(order, ops, p, style, resolution)
    ensures (forall t :: t in tools ==> !t.operation.page.PageFails?) <==>
            AllPagesLoad(order, ops, p, style, resolution)
  {
    hide Gets, ToolOf;
  }

  lemma EntriesAreMade(tools: seq<GeneratedTool>, order: seq<Operation>, ops: set<Operation>, settings: Settings,
                       style: NameStyle, resolution: string)
    requires ToolsMatch(tools, order, ops, settings.toolPrefix, style, resolution)
    ensures EntriesMade(EntriesOf(tools, settings), order, ops, settings, style, resolution)
  {
    hide Gets, MadeFrom, RemadeFrom, ToolOf, EntryOf, RefreshedEntryOf, ToolsMatch, Owns;
    var p := settings.toolPrefix;
    var entries := EntriesOf(tools, settings);
    forall e | e in entries
      ensures exists i :: 0 <= i < |order| && Gets(order, i, ops, p, style, resolution)
                && MadeFrom(e, order[i], settings, style)
    {
      var k :| 0 <= k < |tools| && entries[k] == e;
      var i := OwnerOf(tools, k, order, ops, p, style, resolution);
      OwnerMade(tools[k], order, i, ops, settings, style, resolution);
    }
    forall i | 0 <= i < |order| && Gets(order, i, ops, p, style, resolution)
      ensures exists e :: e in entries && MadeFrom(e, order[i], settings, style)
    {
      var k := ToolOwned(tools, order, i, ops, p, style, resolution);
      OwnerMade(tools[k], order, i, ops, settings, style, resolution);
      assert entries[k] in entries;
    }
  }

  lemma EntriesAreRemade(tools: seq<GeneratedTool>, order: seq<Operation>, ops: set<Operation>, settings: Settings,
                         style: NameStyle, resolution: string)
    requires ToolsMatch(tools, order, ops, settings.toolPrefix, style, resolution)
    ensures EntriesRemade(RefreshedEntriesOf(tools), order, ops, settings.toolPrefix, style, resolution)
  {
    hide Gets, MadeFrom, RemadeFrom, ToolOf, EntryOf, RefreshedEntryOf, ToolsMatch, Owns;
    var p := settings.toolPrefix;
    var entries := RefreshedEntriesOf(tools);
    forall e | e in entries
      ensures exists i ::
                0 <= i < |order| && Gets(order, i, ops, p, style, resolution) && RemadeFrom(e, order[i], p, style)
    {
      var k :| 0 <= k < |tools| && entries[k] == e;
      var i := OwnerOf(tools, k, order, ops, p, style, resolution);
      OwnerMade(tools[k], order, i, ops, settings, style, resolution);
    }
    forall i | 0 <= i < |order| && Gets(order, i, ops, p, style, resolution)
      ensures exists e :: e in entries && RemadeFrom(e, order[i], p, style)
    {
      var k := ToolOwned(tools, order, i, ops, p, style, resolution);
      OwnerMade(tools[k], order, i, ops, settings, style, resolution);
      assert entries[k] in entries;
    }
  }

  lemma OwnerOf(tools: seq<GeneratedTool>, k: nat, order: seq<Operation>, ops: set<Operation>, p: string,
                style: NameStyle, resolution: string) returns (i: int)
    requires ToolsMatch(tools, order, ops, p, style, resolution) && k < |tools|
    ensures Owns(tools[k], order, i, ops, p, style, resolution)
    ensures 0 <= i < |order| && Gets(order, i, ops, p, style, resolution)
  {
    hide Gets, ToolOf;
    assert tools[k] in tools;
    i :| Owns(tools[k], order, i, ops, p, style, resolution);
  }

  lemma ToolOwned(tools: seq<GeneratedTool>, order: seq<Operation>, i: nat, ops: set<Operation>, p: string,
                  style: NameStyle, resolution: string) returns (k: nat)
    requires ToolsMatch(tools, order, ops, p, style, resolution)
    requires i < |order| && Gets(order, i, ops, p, style, resolution)
    ensures k < |tools| && Owns(tools[k], order, i, ops, p, style, resolution)
  {
    hide Gets, ToolOf;
    var t :| t in tools && Owns(t, order, i, ops, p, style, resolution);
    k :| 0 <= k < |tools| && tools[k] == t;
  }

  lemma OwnerMade(t: GeneratedTool, order: seq<Operation>, i: nat, ops: set<Operation>, settings: Settings,
                  style: NameStyle, resolution: string)
    requires i < |order| && Owns(t, order, i, ops, settings.toolPrefix, style, resolution)
    ensures MadeFrom(EntryOf(t, settings), order[i], settings, style)
    ensures RemadeFrom(RefreshedEntryOf(t), order[i], settings.toolPrefix, style)
  {
    EntryMade(order[i], settings, style);
    hide MadeFrom, RemadeFrom, Gets, ToolOf, EntryOf, RefreshedEntryOf;
  }

  /** The same of a refresh, whose entries keep none of the policies; pages play no part. */
  lemma RefreshedEntriesAre(settings: Settings, ops: set<Operation>, order: seq<Operation>, style: NameStyle,
                            resolution: string)
    requires RoutesDistinct(ops) && IsListing(order, ops)
    ensures var p := settings.toolPrefix;
            var refreshed := Refreshed(order, p, style, resolution);
            && (refreshed.Some? <==>
                  && (Lonely(ops, p, style) || resolution == "first_wins" || resolution == "skip")
                  && AllPass(order, ops, p, style, resolution))
            && (refreshed.Some? ==> EntriesRemade(refreshed.value, order, ops, p, style, resolution))
  {
    hide *;
    var p := settings.toolPrefix;
    GenerationIff(order, ops, p, style, resolution);
    BuiltIs(settings, None, order, style, resolution);
    if Generated(order, p, style, resolution).Some? {
      var tools := Generated(order, p, style, resolution).value;
      ToolsAreOfThoseThatGet(order, ops, p, style, resolution);
      PassesMatch(tools, order, ops, p, style, resolution);
      EntriesAreRemade(tools, order, ops, settings, style, resolution);
    }
  }
}
