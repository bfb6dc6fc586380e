/** Prefixed names and conflict resolution (pkg/openapi/naming.go, pkg/openapi/generator.go),
    up to the registry constructors finding no conflict (pkg/upstream/registry.go). */
module Conflicts {
  import opened Json
  import opened Registry

  datatype PrefixedTool = PrefixedTool(name: string, path: string, httpMethod: string)

  datatype Resolved = Survivors(tools: seq<PrefixedTool>) | Conflicting | UnknownResolution

  /** Prefix, separator and base name, cut so that the whole has at most `maxLength`
      characters; a prefix that fills the length is cut itself. */
  function PrefixedName(base: string, prefix: string, separator: string, maxLength: int): string {
    var p := prefix + separator;
    if maxLength > 0 && |p| >= maxLength then p[..maxLength]
    else if maxLength > 0 && |base| > maxLength - |p| then p + base[..maxLength - |p|]
    else p + base
  }

  lemma PrefixedNameFacts(base: string, prefix: string, separator: string, maxLength: int)
    ensures maxLength > 0 ==> |PrefixedName(base, prefix, separator, maxLength)| <= maxLength
    ensures maxLength <= 0 || |prefix + separator| < maxLength ==>
              prefix + separator <= PrefixedName(base, prefix, separator, maxLength)
  {
  }

  // ---------- Conflict detection ----------

  function NamesOf(tools: seq<PrefixedTool>): set<string> {
    set t | t in tools :: t.name
  }

  ghost predicate Unrepeated(tools: seq<PrefixedTool>) {
    forall i, j :: 0 <= i < j < |tools| ==> tools[i].name != tools[j].name
  }

  function Count(tools: seq<PrefixedTool>, name: string): nat {
    if tools == [] then 0
    else Count(tools[..|tools| - 1], name) + (if tools[|tools| - 1].name == name then 1 else 0)
  }

  /** The tools whose name no earlier tool has. */
  function FirstOccurrences(tools: seq<PrefixedTool>): seq<PrefixedTool> {
    if tools == [] then []
    else
      var init, last := tools[..|tools| - 1], tools[|tools| - 1];
      FirstOccurrences(init) + (if last.name in NamesOf(init) then [] else [last])
  }

  /** The tools among the first `k` whose name occurs once in the whole list. */
  function Singles(tools: seq<PrefixedTool>, k: nat): seq<PrefixedTool>
    requires k <= |tools|
  {
    if k == 0 then []
    else Singles(tools, k - 1) + (if Count(tools, tools[k - 1].name) > 1 then [] else [tools[k - 1]])
  }

  lemma {:induction false} CountFacts(tools: seq<PrefixedTool>, name: string)
    ensures Count(tools, name) > 0 <==> name in NamesOf(tools)
    ensures Count(tools, name) > 1 <==>
            exists i, j :: 0 <= i < j < |tools| && tools[i].name == name && tools[j].name == name
  {
    if tools != [] {
      var init, last := tools[..|tools| - 1], tools[|tools| - 1];
      CountFacts(init, name);
      assert tools == init + [last];
      if last.name == name && Count(init, name) > 0 {
        var t :| t in init && t.name == name;
        var i :| 0 <= i < |init| && init[i] == t;
        assert tools[i].name == name && tools[|tools| - 1].name == name;
      }
      if Count(init, name) > 1 {
        var i, j :| 0 <= i < j < |init| && init[i].name == name && init[j].name == name;
        assert tools[i].name == name && tools[j].name == name;
      }
      if i, j :| 0 <= i < j < |tools| && tools[i].name == name && tools[j].name == name {
        if j < |init| {
          assert init[i].name == name && init[j].name == name;
        } else {
          assert init[i] in init;
        }
      }
    }
  }

  lemma NoRepeatIff(tools: seq<PrefixedTool>)
    ensures Unrepeated(tools) ==> forall n :: Count(tools, n) <= 1
    ensures !Unrepeated(tools) ==> exists n :: Count(tools, n) > 1
  {
    if Unrepeated(tools) {
      forall n ensures Count(tools, n) <= 1 {
        CountFacts(tools, n);
      }
    } else {
      var i, j :| 0 <= i < j < |tools| && tools[i].name == tools[j].name;
      CountFacts(tools, tools[i].name);
      assert Count(tools, tools[i].name) > 1;
    }
  }

  method CountNames(tools: seq<PrefixedTool>) returns (counts: map<string, nat>)
    ensures forall n :: Count(tools, n) == if n in counts then counts[n] else 0
  {
    counts := map[];
    for i := 0 to |tools|
      invariant forall n :: Count(tools[..i], n) == if n in counts then counts[n] else 0
    {
      assert tools[..i + 1][..i] == tools[..i];
      var n := tools[i].name;
      counts := counts[n := (if n in counts then counts[n] else 0) + 1];
    }
    assert tools[..|tools|] == tools;
  }

  /** With no repeated name the tools come back as they are, whatever the resolution asked
      for; otherwise the resolution decides. */
  ghost function Resolve(tools: seq<PrefixedTool>, resolution: string): Resolved {
    if Unrepeated(tools) then Survivors(tools)
    else if resolution == "error" then Conflicting
    else if resolution == "first_wins" then Survivors(FirstOccurrences(tools))
    else if resolution == "skip" then Survivors(Singles(tools, |tools|))
    else UnknownResolution
  }

  method DetectConflicts(tools: seq<PrefixedTool>, resolution: string) returns (r: Resolved)
    ensures r == Resolve(tools, resolution)
  {
    var counts := CountNames(tools);
    NoRepeatIff(tools);
    var conflicts := set n | n in counts && counts[n] > 1;
    if conflicts == {} {
      assert forall n :: n in counts ==> n !in conflicts;
      return Survivors(tools);
    }
    var c :| c in conflicts;
    assert Count(tools, c) > 1;
    if resolution == "error" {
      return Conflicting;
    } else if resolution == "first_wins" {
      var kept := KeepFirst(tools, conflicts);
      return Survivors(kept);
    } else if resolution == "skip" {
      var kept: seq<PrefixedTool> := [];
      for i := 0 to |tools|
        invariant kept == Singles(tools, i)
      {
        CountFacts(tools, tools[i].name);
        if tools[i].name !in conflicts {
          kept := kept + [tools[i]];
        }
      }
      return Survivors(kept);
    }
    return UnknownResolution;
  }

  method KeepFirst(tools: seq<PrefixedTool>, conflicts: set<string>) returns (kept: seq<PrefixedTool>)
    requires forall n :: n in conflicts <==> Count(tools, n) > 1
    ensures kept == FirstOccurrences(tools)
  {
    kept := [];
    var seen: set<string> := {};
    for i := 0 to |tools|
      invariant kept == FirstOccurrences(tools[..i])
      invariant seen == NamesOf(tools[..i]) * conflicts
    {
      var t := tools[i];
      FirstStep(tools, i);
      SeenBefore(tools, i, conflicts);
      hide *;
      if t.name in conflicts && t.name in seen {
        continue;
      }
      if t.name in conflicts {
        seen := seen + {t.name};
      }
      kept := kept + [t];
    }
    assert tools[..|tools|] == tools;
  }

  lemma FirstStep(tools: seq<PrefixedTool>, i: nat)
    requires i < |tools|
    ensures FirstOccurrences(tools[..i + 1]) ==
            FirstOccurrences(tools[..i]) + (if tools[i].name in NamesOf(tools[..i]) then [] else [tools[i]])
    ensures NamesOf(tools[..i + 1]) == NamesOf(tools[..i]) + {tools[i].name}
  {
    assert tools[..i + 1] == tools[..i] + [tools[i]] && tools[..i + 1][..i] == tools[..i];
  }

  lemma SeenBefore(tools: seq<PrefixedTool>, i: nat, conflicts: set<string>)
    requires i < |tools| && forall n :: n in conflicts <==> Count(tools, n) > 1
    ensures tools[i].name in NamesOf(tools[..i]) ==> tools[i].name in conflicts
  {
    CountFacts(tools, tools[i].name);
    if tools[i].name in NamesOf(tools[..i]) {
      var t :| t in tools[..i] && t.name == tools[i].name;
      var j :| 0 <= j < i && tools[j] == t;
      assert tools[j].name == tools[i].name;
    }
  }

  // ---------- What survives ----------

  lemma NamesStep(tools: seq<PrefixedTool>, t: PrefixedTool)
    ensures NamesOf(tools + [t]) == NamesOf(tools) + {t.name}
    ensures Unrepeated(tools) && t.name !in NamesOf(tools) ==> Unrepeated(tools + [t])
  {
    assert forall i :: 0 <= i < |tools| ==> tools[i].name in NamesOf(tools);
  }

  /** The first of each name survives: no name twice, and none lost. */
  lemma {:induction false} FirstWinsFacts(tools: seq<PrefixedTool>)
    ensures Unrepeated(FirstOccurrences(tools))
    ensures NamesOf(FirstOccurrences(tools)) == NamesOf(tools)
    ensures forall t :: t in FirstOccurrences(tools) ==> t in tools
  {
    if tools != [] {
      var init, last := tools[..|tools| - 1], tools[|tools| - 1];
      var before := FirstOccurrences(init);
      assert FirstOccurrences(tools) == before + (if last.name in NamesOf(init) then [] else [last]);
      assert tools == init + [last];
      hide *;
      FirstWinsFacts(init);
      NamesStep(init, last);
      NamesStep(before, last);
      if last.name in NamesOf(init) {
        assert before + [] == before;
      }
    }
  }

  /** Exactly the tools whose name occurs once survive. */
  lemma {:induction false} SkipFacts(tools: seq<PrefixedTool>, k: nat)
    requires k <= |tools|
    ensures Unrepeated(Singles(tools, k))
    ensures forall t :: t in Singles(tools, k) <==> exists i :: 0 <= i < k && tools[i] == t && Count(tools, t.name) == 1
  {
    if k > 0 {
      SkipFacts(tools, k - 1);
      var before := Singles(tools, k - 1);
      CountFacts(tools, tools[k - 1].name);
      assert tools[k - 1] in tools;
      assert Count(tools, tools[k - 1].name) >= 1;
      forall i | 0 <= i < |before|
        ensures Count(tools, tools[k - 1].name) == 1 ==> before[i].name != tools[k - 1].name
      {
        assert before[i] in before;
        var j :| 0 <= j < k - 1 && tools[j] == before[i];
        CountFacts(tools, before[i].name);
      }
    }
  }

  /** Whatever the resolution, survivors have no repeated name and were there before. */
  lemma SurvivorsUnrepeated(tools: seq<PrefixedTool>, resolution: string)
    ensures var r := Resolve(tools, resolution);
            r.Survivors? ==> Unrepeated(r.tools) && forall t :: t in r.tools ==> t in tools
  {
    FirstWinsFacts(tools);
    SkipFacts(tools, |tools|);
  }

  // ---------- The generator's filter ----------

  /** What the page of an operation comes to: none configured; one whose handler could be
      built, or is missing because pages are not linked in; or one that cannot be loaded. */
  datatype Page = NoPage | Page(handler: Option<string>) | PageFails

  /** An operation of the spec: the base name the naming rules give it, its route, its
      settings, what an MCP client is shown of it, and whether its transforms pass their
      validation. */
  datatype Operation = Operation(
    base: string,
    path: string,
    httpMethod: string,
    enabled: bool,
    definition: string,
    node: Option<nat>,
    page: Page,
    rateLimit: string,
    cache: Option<string>,
    passes: bool)

  /** A tool made from an operation, known by its name, path and method. */
  datatype GeneratedTool = GeneratedTool(key: PrefixedTool, operation: Operation)

  function KeysOf(tools: seq<GeneratedTool>): (keys: seq<PrefixedTool>)
    ensures |keys| == |tools| && forall i :: 0 <= i < |tools| ==> keys[i] == tools[i].key
  {
    seq(|tools|, i requires 0 <= i < |tools| => tools[i].key)
  }

  /** No operation is listed twice. */
  ghost predicate OperationsDistinct(tools: seq<GeneratedTool>) {
    forall i, j :: 0 <= i < j < |tools| ==>
      tools[i].key.path != tools[j].key.path || tools[i].key.httpMethod != tools[j].key.httpMethod
  }

  /** The tools whose name, path and method survived, in their order. */
  function Kept(tools: seq<GeneratedTool>, survivors: seq<PrefixedTool>): seq<GeneratedTool> {
    if tools == [] then []
    else
      var last := tools[|tools| - 1];
      Kept(tools[..|tools| - 1], survivors) + (if last.key in survivors then [last] else [])
  }

  /** The end of tool generation: resolve conflicts, then keep what survived. */
  ghost function Filtered(tools: seq<GeneratedTool>, resolution: string): Option<seq<GeneratedTool>> {
    var r := Resolve(KeysOf(tools), resolution);
    if r.Survivors? then Some(Kept(tools, r.tools)) else None
  }

  method FilterSurvivors(tools: seq<GeneratedTool>, resolution: string) returns (r: Option<seq<GeneratedTool>>)
    ensures r == Filtered(tools, resolution)
  {
    hide FirstOccurrences, Singles;
    var keys := KeysOf(tools);
    var resolved := DetectConflicts(keys, resolution);
    if !resolved.Survivors? {
      return None;
    }
    if |resolved.tools| == |keys| {
      AllSurvived(keys, |keys|);
      KeptAll(tools, keys);
      return Some(tools);
    }
    var surviving := set t | t in resolved.tools;
    var filtered: seq<GeneratedTool> := [];
    for i := 0 to |tools|
      invariant filtered == Kept(tools[..i], resolved.tools)
    {
      KeptStep(tools, i, resolved.tools);
      if tools[i].key in surviving {
        filtered := filtered + [tools[i]];
      }
    }
    assert tools[..|tools|] == tools;
    return Some(filtered);
  }

  lemma KeptStep(tools: seq<GeneratedTool>, i: nat, survivors: seq<PrefixedTool>)
    requires i < |tools|
    ensures Kept(tools[..i + 1], survivors) ==
            Kept(tools[..i], survivors) + (if tools[i].key in survivors then [tools[i]] else [])
  {
    assert tools[..i + 1][..i] == tools[..i];
  }

  lemma {:induction false} KeptAll(tools: seq<GeneratedTool>, survivors: seq<PrefixedTool>)
    requires forall i :: 0 <= i < |tools| ==> tools[i].key in survivors
    ensures Kept(tools, survivors) == tools
  {
    if tools != [] {
      KeptAll(tools[..|tools| - 1], survivors);
      assert tools == tools[..|tools| - 1] + [tools[|tools| - 1]];
    }
  }

  lemma {:induction false} KeptFacts(tools: seq<GeneratedTool>, survivors: seq<PrefixedTool>)
    requires OperationsDistinct(tools) && Unrepeated(survivors)
    ensures Unrepeated(KeysOf(Kept(tools, survivors)))
    ensures forall g :: g in Kept(tools, survivors) <==> g in tools && g.key in survivors
  {
    if tools != [] {
      var n := |tools| - 1;
      var before := Kept(tools[..n], survivors);
      assert tools[..n + 1] == tools == tools[..n] + [tools[n]];
      KeptStep(tools, n, survivors);
      KeptFacts(tools[..n], survivors);
      hide Kept;
      if tools[n].key in survivors {
        AppendUnrepeated(tools, n, before, survivors);
      } else {
        assert before + [] == before;
      }
    }
  }

  lemma AppendUnrepeated(tools: seq<GeneratedTool>, i: nat, filtered: seq<GeneratedTool>, survivors: seq<PrefixedTool>)
    requires OperationsDistinct(tools) && i < |tools| && Unrepeated(survivors)
    requires tools[i].key in survivors && Unrepeated(KeysOf(filtered))
    requires forall g :: g in filtered ==> g in tools[..i] && g.key in survivors
    ensures Unrepeated(KeysOf(filtered + [tools[i]]))
  {
    forall a | 0 <= a < |filtered| ensures filtered[a].key.name != tools[i].key.name {
      assert filtered[a] in filtered;
      var j :| 0 <= j < i && tools[j] == filtered[a];
      var x :| 0 <= x < |survivors| && survivors[x] == tools[i].key;
      var y :| 0 <= y < |survivors| && survivors[y] == filtered[a].key;
      assert survivors[x] != survivors[y];
    }
  }

  /** What the filter leaves has no repeated name, was there before, and is everything if
      nothing was repeated. */
  lemma FilteredFacts(tools: seq<GeneratedTool>, resolution: string)
    requires OperationsDistinct(tools) && Filtered(tools, resolution).Some?
    ensures var kept := Filtered(tools, resolution).value;
            && Unrepeated(KeysOf(kept))
            && (forall g :: g in kept <==> g in tools && g.key in Resolve(KeysOf(tools), resolution).tools)
            && (Unrepeated(KeysOf(tools)) ==> kept == tools)
  {
    SurvivorsUnrepeated(KeysOf(tools), resolution);
    KeptFacts(tools, Resolve(KeysOf(tools), resolution).tools);
    if Unrepeated(KeysOf(tools)) {
      KeptAll(tools, KeysOf(tools));
    }
  }

  /** As many survivors as tools means no conflict. */
  lemma AllSurvived(tools: seq<PrefixedTool>, n: nat)
    requires n == |tools|
    ensures |FirstOccurrences(tools)| <= |tools| &&
            (|FirstOccurrences(tools)| == |tools| ==> FirstOccurrences(tools) == tools)
    ensures |Singles(tools, n)| <= |tools| && (|Singles(tools, n)| == |tools| ==> Singles(tools, n) == tools)
    ensures |FirstOccurrences(tools)| == |tools| ==> Unrepeated(tools)
    ensures |Singles(tools, n)| == |tools| ==> Unrepeated(tools)
  {
    FirstShorter(tools);
    SinglesShorter(tools, n);
    FirstWinsFacts(tools);
    SkipFacts(tools, n);
    assert tools[..n] == tools;
  }

  lemma {:induction false} FirstShorter(tools: seq<PrefixedTool>)
    ensures |FirstOccurrences(tools)| <= |tools|
    ensures |FirstOccurrences(tools)| == |tools| ==> FirstOccurrences(tools) == tools
  {
    if tools != [] {
      var init, last := tools[..|tools| - 1], tools[|tools| - 1];
      assert FirstOccurrences(tools) == FirstOccurrences(init) + (if last.name in NamesOf(init) then [] else [last]);
      hide FirstOccurrences;
      FirstShorter(init);
      assert tools == init + [last];
    }
  }

  lemma {:induction false} SinglesShorter(tools: seq<PrefixedTool>, k: nat)
    requires k <= |tools|
    ensures |Singles(tools, k)| <= k
    ensures |Singles(tools, k)| == k ==> Singles(tools, k) == tools[..k]
  {
    if k > 0 {
      SinglesShorter(tools, k - 1);
      assert tools[..k] == tools[..k - 1] + [tools[k - 1]];
    }
  }

  // ---------- Across upstreams ----------

  /** How all tools are named: what stands between prefix and base name, and the length a
      name may have, if it is limited. */
  datatype NameStyle = NameStyle(separator: string, maxLength: int)

  /** The prefix and the separator, cut to the length a name may have. */
  function Cut(prefix: string, style: NameStyle): string {
    var stem := prefix + style.separator;
    if style.maxLength > 0 && |stem| >= style.maxLength then stem[..style.maxLength] else stem
  }

  function ToolName(base: string, prefix: string, style: NameStyle): string {
    PrefixedName(base, prefix, style.separator, style.maxLength)
  }

  /** The names an upstream can have begin with its cut stem, and are that stem if it fills
      the length. */
  lemma NamesBeginWithCut(base: string, prefix: string, style: NameStyle)
    ensures Cut(prefix, style) <= ToolName(base, prefix, style)
    ensures style.maxLength > 0 ==> |ToolName(base, prefix, style)| <= style.maxLength
  {
  }

  /** Every name of allowed length that begins with the cut stem can arise. */
  lemma NamesFromCut(name: string, prefix: string, style: NameStyle)
    requires Cut(prefix, style) <= name && (style.maxLength > 0 ==> |name| <= style.maxLength)
    ensures ToolName(name[|Cut(prefix, style)|..], prefix, style) == name
  {
    var stem := prefix + style.separator;
    if style.maxLength > 0 && |stem| >= style.maxLength {
      assert name == Cut(prefix, style);
    } else {
      assert stem + name[|stem|..] == name;
    }
  }

  /** Exactly when two prefixes can lead to one tool name: one of the two stems, cut to the
      allowed length, begins the other. */
  lemma SharedNameIff(a: string, b: string, style: NameStyle)
    ensures (exists base1, base2 :: ToolName(base1, a, style) == ToolName(base2, b, style)) <==>
            Cut(a, style) <= Cut(b, style) || Cut(b, style) <= Cut(a, style)
  {
    hide ToolName, Cut;
    forall base1, base2 | ToolName(base1, a, style) == ToolName(base2, b, style)
      ensures Cut(a, style) <= Cut(b, style) || Cut(b, style) <= Cut(a, style)
    {
      NamesBeginWithCut(base1, a, style);
      NamesBeginWithCut(base2, b, style);
      OneBeginsTheOther(Cut(a, style), Cut(b, style), ToolName(base1, a, style));
    }
    if Cut(a, style) <= Cut(b, style) {
      LongerCutIsShared(a, b, style);
      var name := ToolName("", b, style);
      assert ToolName(name[|Cut(a, style)|..], a, style) == ToolName("", b, style);
    } else if Cut(b, style) <= Cut(a, style) {
      LongerCutIsShared(b, a, style);
      var name := ToolName("", a, style);
      assert ToolName("", a, style) == ToolName(name[|Cut(b, style)|..], b, style);
    }
  }

  /** With an empty base name the longer stem gives a name the shorter one can give too. */
  lemma LongerCutIsShared(a: string, b: string, style: NameStyle)
    requires Cut(a, style) <= Cut(b, style)
    ensures |Cut(a, style)| <= |ToolName("", b, style)|
    ensures ToolName(ToolName("", b, style)[|Cut(a, style)|..], a, style) == ToolName("", b, style)
  {
    NamesBeginWithCut("", b, style);
    NamesFromCut(ToolName("", b, style), a, style);
  }

  /** Of two texts a name begins with, one begins the other. */
  lemma OneBeginsTheOther(a: string, b: string, name: string)
    ensures a <= name && b <= name ==> a <= b || b <= a
  {
  }

  /** The upstream's entries carry names made from its prefix, none of them twice. */
  ghost predicate NamedBy(u: Upstream, style: NameStyle) {
    && DistinctNames(u.entries)
    && forall e :: e in u.entries ==> exists base :: e.name == ToolName(base, u.toolPrefix, style)
  }

  /** No upstream's cut stem begins another's. */
  ghost predicate CutsApart(ups: seq<Upstream>, style: NameStyle) {
    forall i, j :: 0 <= i < |ups| && 0 <= j < |ups| && i != j ==>
      !(Cut(ups[i].toolPrefix, style) <= Cut(ups[j].toolPrefix, style))
  }

  /** If no upstream's cut stem begins another's, the names of all tools of all upstreams
      are distinct, so neither a reload nor an incremental update finds a conflict. */
  lemma NoCrossConflicts(ups: seq<Upstream>, style: NameStyle, groups: seq<Group>)
    requires forall u :: u in ups ==> NamedBy(u, style)
    requires CutsApart(ups, style)
    ensures PrefixesDistinct(ups) && DistinctNames(Flat(ups))
    ensures FiltersValid(groups) ==> Buildable(StateOf(ups), groups)
  {
    hide ToolName, Cut;
    forall i, j | 0 <= i < j < |ups| ensures NamesIn(ups[i].entries) !! NamesIn(ups[j].entries) {
      assert ups[i] in ups && ups[j] in ups;
      forall x, y | x in ups[i].entries && y in ups[j].entries ensures x.name != y.name {
        var a, b := ups[i].toolPrefix, ups[j].toolPrefix;
        var base1 :| x.name == ToolName(base1, a, style);
        var base2 :| y.name == ToolName(base2, b, style);
        SharedNameIff(a, b, style);
        assert !(Cut(a, style) <= Cut(b, style)) && !(Cut(b, style) <= Cut(a, style));
      }
    }
    assert forall i :: 0 <= i < |ups| ==> ups[i] in ups && DistinctNames(ups[i].entries);
    DistinctFlat(ups);
    forall i, j | 0 <= i < j < |ups| ensures ups[i].toolPrefix != ups[j].toolPrefix {
      assert !(Cut(ups[i].toolPrefix, style) <= Cut(ups[j].toolPrefix, style));
    }
    StateConflictFree(ups);
  }

  /** Distinct prefixes alone are not enough: under `a` and `a_b` two different base names
      give the same tool name. */
  lemma NestedPrefixesCollide(base: string)
    ensures PrefixedName("b_" + base, "a", "_", 0) == PrefixedName(base, "a_b", "_", 0)
  {
    assert "a" + "_" + ("b_" + base) == "a_b" + "_" + base;
  }

  /** Nor are they once they fill the allowed length: both names are cut to the same text
      whatever the base names are. */
  lemma LongPrefixesCollide(stem: string, a: string, b: string, base1: string, base2: string)
    requires stem != ""
    ensures PrefixedName(base1, stem + a, "_", |stem|) == PrefixedName(base2, stem + b, "_", |stem|)
  {
    assert (stem + a + "_")[..|stem|] == stem && (stem + b + "_")[..|stem|] == stem;
  }
}
