/** Which upstreams a proxy has, and which prefix conflicts are reported for them, in terms of
    labels and namespaces (pkg/operator/controller/mcpproxy_controller.go:136-159, 825-935). */
module Selection {
  import opened Json
  import opened ConfigGen
  import opened UpstreamWatch

  /** A selector's requirements, as Kubernetes defines them: an absent label meets NotIn. */
  predicate Fits(labels: map<string, string>, rs: seq<Requirement>) {
    forall i :: 0 <= i < |rs| ==>
      && (rs[i].In? ==>
          exists k :: 0 <= k < |rs[i].values| && rs[i].key in labels && labels[rs[i].key] == rs[i].values[k])
      && (rs[i].NotIn? ==>
            !exists k :: 0 <= k < |rs[i].values| && rs[i].key in labels && labels[rs[i].key] == rs[i].values[k])
      && (rs[i].Exists? ==> rs[i].key in labels)
      && (rs[i].DoesNotExist? ==> rs[i].key !in labels)
  }

  lemma FitsIff(labels: map<string, string>, rs: seq<Requirement>)
    ensures Matches(rs, labels) <==> Fits(labels, rs)
  {
    forall i | 0 <= i < |rs|
      ensures rs[i].In? ==>
                (Meets(labels, rs[i]) <==>
                 exists k :: 0 <= k < |rs[i].values| && rs[i].key in labels && labels[rs[i].key] == rs[i].values[k])
    {
    }
  }

  /** The namespaces that a proxy looks in: those it names, and its own if it names none. */
  predicate LooksIn(p: Proxy, ns: string) {
    ns in p.matchNames || (|p.matchNames| == 0 && ns == p.ns)
  }

  /** A proxy has exactly the upstreams of its namespaces that fit its selector; a selector that
      lists no values is an error. */
  lemma ListedAre(all: seq<Upstream>, p: Proxy)
    ensures Listed(all, p).None? <==>
            exists i ::
              0 <= i < |p.selector| && (p.selector[i].In? || p.selector[i].NotIn?) && |p.selector[i].values| == 0
    ensures Listed(all, p).Some? ==>
              forall up :: up in Listed(all, p).value <==> up in all && LooksIn(p, up.ns) && Fits(up.labels, p.selector)
  {
    if Listed(all, p).Some? {
      forall up ensures up in Listed(all, p).value <==> up in all && LooksIn(p, up.ns) && Fits(up.labels, p.selector) {
        FitsIff(up.labels, p.selector);
        ListedInHas(all, Namespaces(p), p.selector, up);
        hide Matches, Fits, ListedIn;
      }
    }
  }

  lemma {:induction false} CountIn(all: seq<Upstream>, ns: string, rs: seq<Requirement>, up: Upstream)
    requires Matches(rs, up.labels)
    ensures multiset(InNamespace(all, ns, rs))[up] == if up.ns == ns then multiset(all)[up] else 0
  {
    hide Matches;
    if all != [] {
      var init, last := all[..|all| - 1], all[|all| - 1];
      CountIn(init, ns, rs, up);
      assert all == init + [last];
      assert multiset(all)[up] == multiset(init)[up] + if last == up then 1 else 0;
    }
  }

  /** An upstream is listed as often as its namespace is named. */
  lemma {:induction false} ListedOncePerMention(all: seq<Upstream>, namespaces: seq<string>, rs: seq<Requirement>,
                                                up: Upstream)
    requires Matches(rs, up.labels)
    ensures multiset(ListedIn(all, namespaces, rs))[up] == multiset(namespaces)[up.ns] * multiset(all)[up]
  {
    hide Matches, InNamespace;
    if namespaces != [] {
      var init, last := namespaces[..|namespaces| - 1], namespaces[|namespaces| - 1];
      ListedOncePerMention(all, init, rs, up);
      CountIn(all, last, rs, up);
      var before, more := ListedIn(all, init, rs), InNamespace(all, last, rs);
      assert ListedIn(all, namespaces, rs) == before + more;
      hide ListedIn;
      assert namespaces == init + [last];
      assert multiset(namespaces)[up.ns] == multiset(init)[up.ns] + if last == up.ns then 1 else 0;
      Adds(multiset(init)[up.ns], multiset(all)[up], last == up.ns);
      assert multiset(before + more)[up] == multiset(before)[up] + multiset(more)[up];
    }
  }

  lemma Adds(m: nat, n: nat, more: bool)
    ensures (m + if more then 1 else 0) * n == m * n + if more then n else 0
  {
  }

  /** Namespace by namespace, each in the order of the list. */
  lemma {:induction false} ListsInOrder(all: seq<Upstream>, a: seq<string>, b: seq<string>, rs: seq<Requirement>)
    ensures ListedIn(all, a + b, rs) == ListedIn(all, a, rs) + ListedIn(all, b, rs)
    decreases |b|
  {
    if b == [] {
      assert a + b == a;
    } else {
      var init := b[..|b| - 1];
      ListsInOrder(all, a, init, rs);
      assert (a + b)[..|a + b| - 1] == a + init;
    }
  }

  lemma {:induction false} KeepsListOrder(x: seq<Upstream>, y: seq<Upstream>, ns: string, rs: seq<Requirement>)
    ensures InNamespace(x + y, ns, rs) == InNamespace(x, ns, rs) + InNamespace(y, ns, rs)
    decreases |y|
  {
    hide Matches;
    if y == [] {
      assert x + y == x;
    } else {
      var init := y[..|y| - 1];
      KeepsListOrder(x, init, ns, rs);
      assert (x + y)[..|x + y| - 1] == x + init;
    }
  }

  /** Naming a namespace twice makes each of its upstreams conflict with itself. */
  lemma TwiceNamedConflicts(all: seq<Upstream>, ns: string, rs: seq<Requirement>, up: Upstream)
    requires up in all && up.ns == ns && up.toolPrefix != "" && Matches(rs, up.labels)
    ensures Conflicts(ListedIn(all, [ns, ns], rs), |ListedIn(all, [ns, ns], rs)|) != []
  {
    var once := ListedIn(all, [ns], rs);
    ListsInOrder(all, [ns], [ns], rs);
    ListedInHas(all, [ns], rs, up);
    assert [ns] + [ns] == [ns, ns];
    hide ListedIn, Matches;
    var i :| 0 <= i < |once| && once[i] == up;
    var twice := once + once;
    assert twice[i] == up && twice[|once| + i] == up;
    ConflictsIff(twice, |twice|);
  }

  // ---------- Prefix conflicts ----------

  /** `i` is the first upstream with its prefix. */
  predicate FirstWith(ups: seq<Upstream>, i: int, prefix: string) {
    0 <= i < |ups| && ups[i].toolPrefix == prefix && forall j :: 0 <= j < i ==> ups[j].toolPrefix != prefix
  }

  /** The conflict of the `j`-th upstream with the first one of its prefix. */
  ghost predicate Reports(c: Conflict, ups: seq<Upstream>, crds: nat, i: int, j: nat) {
    && 0 <= i < j < |ups| && ups[j].toolPrefix != "" && FirstWith(ups, i, ups[j].toolPrefix)
    && c.prefix == ups[j].toolPrefix
    && c.first.id == (ups[i].ns, ups[i].name) && (c.first.source == "crd" <==> i < crds)
    && c.second.id == (ups[j].ns, ups[j].name) && (c.second.source == "crd" <==> j < crds)
    && c.first.source in ["crd", "service"] && c.second.source in ["crd", "service"]
  }

  lemma {:induction false} ClaimedFirst(ups: seq<Upstream>, prefix: string, crds: nat)
    ensures var c := Claimed(ups, prefix, crds);
            c.Some? ==> exists i :: FirstWith(ups, i, prefix) && c.value == ClaimOf(ups[i], i, crds)
    ensures Claimed(ups, prefix, crds).None? ==> forall i :: 0 <= i < |ups| ==> ups[i].toolPrefix != prefix
  {
    if ups != [] {
      var n := |ups| - 1;
      var init := ups[..n];
      ClaimedFirst(init, prefix, crds);
      if i :| FirstWith(init, i, prefix) && Claimed(init, prefix, crds) == Some(ClaimOf(init[i], i, crds)) {
        assert FirstWith(ups, i, prefix);
      } else if ups[n].toolPrefix == prefix {
        assert forall i :: 0 <= i < n ==> ups[i] == init[i];
        assert FirstWith(ups, n, prefix);
      }
    }
  }

  /** The conflict is that of the `j`-th upstream with the first one of its prefix. */
  ghost predicate Reported(c: Conflict, ups: seq<Upstream>, crds: nat, j: nat) {
    j < |ups| && exists i :: Reports(c, ups, crds, i, j)
  }

  /** The `k`-th conflict is that of the upstream at `at[k]`; those upstreams come in order. */
  ghost predicate Tracks(at: seq<nat>, cs: seq<Conflict>, ups: seq<Upstream>, crds: nat) {
    && |at| == |cs|
    && (forall k :: 0 <= k < |at| ==> Reported(cs[k], ups, crds, at[k]))
    && (forall k, l :: 0 <= k < l < |at| ==> at[k] < at[l])
  }

  lemma TracksOn(at: seq<nat>, cs: seq<Conflict>, ups: seq<Upstream>, crds: nat)
    requires ups != [] && Tracks(at, cs, ups[..|ups| - 1], crds)
    ensures Tracks(at, cs, ups, crds)
  {
    forall k | 0 <= k < |at| ensures Reported(cs[k], ups, crds, at[k]) {
      StillReported(cs[k], ups, crds, at[k]);
    }
    hide Reported;
  }

  lemma TracksLast(at: seq<nat>, cs: seq<Conflict>, ups: seq<Upstream>, crds: nat, i: int, c: Conflict)
    requires ups != [] && Tracks(at, cs, ups[..|ups| - 1], crds) && Reports(c, ups, crds, i, |ups| - 1)
    ensures Tracks(at + [|ups| - 1], cs + [c], ups, crds)
  {
    TracksOn(at, cs, ups, crds);
    InsideInit(at, cs, ups, crds);
    assert Reported(c, ups, crds, |ups| - 1);
    hide Reported, Reports;
  }

  lemma InsideInit(at: seq<nat>, cs: seq<Conflict>, ups: seq<Upstream>, crds: nat)
    requires ups != [] && Tracks(at, cs, ups[..|ups| - 1], crds)
    ensures forall k :: 0 <= k < |at| ==> at[k] < |ups| - 1
  {
    hide Reports;
  }

  lemma ConflictsStep(ups: seq<Upstream>, crds: nat)
    requires ups != []
    ensures var n := |ups| - 1;
            if Later(ups, n)
            then exists i, c :: Reports(c, ups, crds, i, n) && Conflicts(ups, crds) == Conflicts(ups[..n], crds) + [c]
            else Conflicts(ups, crds) == Conflicts(ups[..n], crds)
  {
    var n := |ups| - 1;
    var init, last := ups[..n], ups[n];
    ClaimedFirst(init, last.toolPrefix, crds);
    LastLater(ups);
    ClaimedIff(init, last.toolPrefix, crds);
    hide Reports, Claimed, ClaimOf, FirstWith;
    if Later(ups, n) {
      var i :| FirstWith(init, i, last.toolPrefix) &&
               Claimed(init, last.toolPrefix, crds).value == ClaimOf(init[i], i, crds);
      LastReports(ups, crds, i);
      assert ups[i] == init[i];
    }
  }

  /** Each conflict is that of an upstream with the first of its prefix, in the order of the
      upstreams, and each that is not the first of its prefix has one. */
  lemma {:induction false} ConflictsAre(ups: seq<Upstream>, crds: nat) returns (at: seq<nat>)
    ensures Tracks(at, Conflicts(ups, crds), ups, crds)
    ensures forall j :: 0 <= j < |ups| && Later(ups, j) ==> j in at
  {
    if ups == [] {
      at := [];
    } else {
      hide Conflicts, Tracks, Reports, Later;
      var n := |ups| - 1;
      var before := ConflictsAre(ups[..n], crds);
      forall j | 0 <= j < n && Later(ups, j) ensures j in before {
        StillLater(ups, j);
      }
      ConflictsStep(ups, crds);
      if Later(ups, n) {
        var i, c :| Reports(c, ups, crds, i, n) && Conflicts(ups, crds) == Conflicts(ups[..n], crds) + [c];
        at := before + [n];
        TracksLast(before, Conflicts(ups[..n], crds), ups, crds, i, c);
      } else {
        at := before;
        TracksOn(before, Conflicts(ups, crds), ups, crds);
      }
    }
  }

  /** An earlier upstream has its prefix. */
  predicate Later(ups: seq<Upstream>, j: nat)
    requires j < |ups|
  {
    ups[j].toolPrefix != "" && exists i :: 0 <= i < j && ups[i].toolPrefix == ups[j].toolPrefix
  }

  lemma StillLater(ups: seq<Upstream>, j: nat)
    requires j < |ups| - 1 && Later(ups, j)
    ensures Later(ups[..|ups| - 1], j)
  {
    var init := ups[..|ups| - 1];
    var i :| 0 <= i < j && ups[i].toolPrefix == ups[j].toolPrefix;
    assert init[i].toolPrefix == init[j].toolPrefix;
  }

  lemma LastLater(ups: seq<Upstream>)
    requires ups != []
    ensures var n := |ups| - 1;
            Later(ups, n) ==>
              ups[n].toolPrefix != "" && exists i :: 0 <= i < n && ups[..n][i].toolPrefix == ups[n].toolPrefix
  {
    var n := |ups| - 1;
    if Later(ups, n) {
      var i :| 0 <= i < n && ups[i].toolPrefix == ups[n].toolPrefix;
      assert ups[..n][i] == ups[i];
    }
  }

  lemma StillReported(c: Conflict, ups: seq<Upstream>, crds: nat, j: nat)
    requires ups != [] && Reported(c, ups[..|ups| - 1], crds, j)
    ensures Reported(c, ups, crds, j)
  {
    var i :| Reports(c, ups[..|ups| - 1], crds, i, j);
    assert Reports(c, ups, crds, i, j);
  }

  lemma LastReports(ups: seq<Upstream>, crds: nat, i: nat)
    requires ups != [] && ups[|ups| - 1].toolPrefix != ""
    requires FirstWith(ups[..|ups| - 1], i, ups[|ups| - 1].toolPrefix)
    ensures var n := |ups| - 1;
            Reports(Conflict(ups[n].toolPrefix, ClaimOf(ups[i], i, crds), ClaimOf(ups[n], n, crds)), ups, crds, i, n)
  {
  }
}
