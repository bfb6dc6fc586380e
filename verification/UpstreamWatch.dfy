/** Which upstreams a proxy selects, and which proxies an upstream's change triggers
    (pkg/operator/controller/mcpproxy_controller.go:136-159, 936-969). */
module UpstreamWatch {
  import opened Json
  import opened ConfigGen

  type Key = (string, string)

  datatype Requirement = In(key: string, values: seq<string>) | NotIn(key: string, values: seq<string>)
                       | Exists(key: string) | DoesNotExist(key: string)

  predicate Meets(labels: map<string, string>, r: Requirement) {
    match r
    case In(key, values) => key in labels && labels[key] in values
    case NotIn(key, values) => key !in labels || labels[key] !in values
    case Exists(key) => key in labels
    case DoesNotExist(key) => key !in labels
  }

  predicate IsValidSelector(rs: seq<Requirement>) {
    forall i :: 0 <= i < |rs| ==> (rs[i].In? || rs[i].NotIn? ==> rs[i].values != [])
  }

  predicate Matches(rs: seq<Requirement>, labels: map<string, string>) {
    forall i :: 0 <= i < |rs| ==> Meets(labels, rs[i])
  }

  datatype GatewayRef = GatewayRef(name: string, ns: string, hostname: string)

  /** An MCPProxy; `discovered` are the upstreams made of annotated Services. */
  datatype Proxy = Proxy(ns: string, name: string, generation: nat, selector: seq<Requirement>, matchNames: seq<string>,
                         discovered: seq<Upstream>, port: nat, image: string, replicas: Option<nat>, resources: string,
                         settings: ProxySettings, gatewayRef: Option<GatewayRef>)

  function Namespaces(p: Proxy): seq<string> {
    if p.matchNames == [] then [p.ns] else p.matchNames
  }

  /** The upstreams of one namespace that match, in the order of the list. */
  function InNamespace(all: seq<Upstream>, ns: string, rs: seq<Requirement>): seq<Upstream> {
    if all == [] then []
    else
      var last := all[|all| - 1];
      InNamespace(all[..|all| - 1], ns, rs) + if last.ns == ns && Matches(rs, last.labels) then [last] else []
  }

  function ListedIn(all: seq<Upstream>, namespaces: seq<string>, rs: seq<Requirement>): seq<Upstream> {
    if namespaces == [] then []
    else ListedIn(all, namespaces[..|namespaces| - 1], rs) + InNamespace(all, namespaces[|namespaces| - 1], rs)
  }

  function Listed(all: seq<Upstream>, p: Proxy): Option<seq<Upstream>> {
    if !IsValidSelector(p.selector) then None else Some(ListedIn(all, Namespaces(p), p.selector))
  }

  method ListNamespace(all: seq<Upstream>, ns: string, rs: seq<Requirement>) returns (items: seq<Upstream>)
    ensures items == InNamespace(all, ns, rs)
  {
    items := [];
    for i := 0 to |all|
      invariant items == InNamespace(all[..i], ns, rs)
    {
      assert all[..i + 1][..i] == all[..i];
      if all[i].ns == ns && Matches(rs, all[i].labels) {
        items := items + [all[i]];
      }
    }
    assert all[..|all|] == all;
  }

  method ListUpstreams(all: seq<Upstream>, p: Proxy) returns (r: Option<seq<Upstream>>)
    ensures r == Listed(all, p)
  {
    if !IsValidSelector(p.selector) {
      return None;
    }
    var namespaces := p.matchNames;
    if |namespaces| == 0 {
      namespaces := [p.ns];
    }
    var listed: seq<Upstream> := [];
    for i := 0 to |namespaces|
      invariant listed == ListedIn(all, namespaces[..i], p.selector)
    {
      assert namespaces[..i + 1][..i] == namespaces[..i];
      var items := ListNamespace(all, namespaces[i], p.selector);
      listed := listed + items;
    }
    assert namespaces[..|namespaces|] == namespaces;
    return Some(listed);
  }

  /** A proxy is triggered by an upstream: its selector is valid and matches, in one of its
      namespaces. */
  predicate Triggers(p: Proxy, up: Upstream) {
    IsValidSelector(p.selector) && up.ns in Namespaces(p) && Matches(p.selector, up.labels)
  }

  function Triggered(proxies: seq<Proxy>, up: Upstream): seq<Key> {
    if proxies == [] then []
    else
      var last := proxies[|proxies| - 1];
      Triggered(proxies[..|proxies| - 1], up) + if Triggers(last, up) then [(last.ns, last.name)] else []
  }

  method ProxiesForUpstream(proxies: seq<Proxy>, up: Upstream) returns (requests: seq<Key>)
    ensures requests == Triggered(proxies, up)
  {
    requests := [];
    hide IsValidSelector, Matches;
    for i := 0 to |proxies|
      invariant requests == Triggered(proxies[..i], up)
    {
      assert proxies[..i + 1][..i] == proxies[..i];
      var p := proxies[i];
      if !IsValidSelector(p.selector) {
        continue;
      }
      var namespaces := if |p.matchNames| == 0 then [p.ns] else p.matchNames;
      var n := 0;
      while n < |namespaces| && !(namespaces[n] == up.ns && Matches(p.selector, up.labels))
        invariant n <= |namespaces|
        invariant forall k :: 0 <= k < n ==> !(namespaces[k] == up.ns && Matches(p.selector, up.labels))
      {
        n := n + 1;
      }
      if n < |namespaces| {
        requests := requests + [(p.ns, p.name)];
      }
    }
    assert proxies[..|proxies|] == proxies;
  }

  lemma {:induction false} InNamespaceHas(all: seq<Upstream>, ns: string, rs: seq<Requirement>, up: Upstream)
    ensures up in InNamespace(all, ns, rs) <==> up in all && up.ns == ns && Matches(rs, up.labels)
  {
    hide Matches;
    if all != [] {
      InNamespaceHas(all[..|all| - 1], ns, rs, up);
      assert all == all[..|all| - 1] + [all[|all| - 1]];
    }
  }

  lemma {:induction false} ListedInHas(all: seq<Upstream>, namespaces: seq<string>, rs: seq<Requirement>, up: Upstream)
    ensures up in ListedIn(all, namespaces, rs) <==> up in all && up.ns in namespaces && Matches(rs, up.labels)
  {
    hide Matches;
    if namespaces != [] {
      var last := namespaces[|namespaces| - 1];
      ListedInHas(all, namespaces[..|namespaces| - 1], rs, up);
      InNamespaceHas(all, last, rs, up);
      assert namespaces == namespaces[..|namespaces| - 1] + [last];
    }
  }

  lemma {:induction false} TriggeredHas(proxies: seq<Proxy>, up: Upstream, k: Key)
    ensures k in Triggered(proxies, up) <==> exists p :: p in proxies && (p.ns, p.name) == k && Triggers(p, up)
  {
    hide Triggers;
    if proxies != [] {
      var init, last := proxies[..|proxies| - 1], proxies[|proxies| - 1];
      assert proxies == init + [last];
      TriggeredHas(init, up, k);
      assert last in proxies;
    }
  }

  /** An upstream's change triggers exactly the proxies whose list of upstreams has it. */
  lemma TriggerExact(all: seq<Upstream>, proxies: seq<Proxy>, up: Upstream, k: Key)
    requires up in all
    ensures k in Triggered(proxies, up) <==>
            exists p :: p in proxies && (p.ns, p.name) == k && Listed(all, p).Some? && up in Listed(all, p).value
  {
    TriggeredHas(proxies, up, k);
    forall p | p in proxies ensures Triggers(p, up) <==> Listed(all, p).Some? && up in Listed(all, p).value {
      ListedInHas(all, Namespaces(p), p.selector, up);
    }
  }

  // ---------- Prefix conflicts ----------

  /** Who has a prefix, and whether it is an MCPUpstream or an annotated Service. */
  datatype Claim = Claim(id: Key, source: string)

  datatype Conflict = Conflict(prefix: string, first: Claim, second: Claim)

  /** The claim of the `i`-th upstream, when the first `crds` are MCPUpstreams. */
  function ClaimOf(up: Upstream, i: nat, crds: nat): Claim {
    Claim((up.ns, up.name), if i < crds then "crd" else "service")
  }

  /** The first upstream with a prefix. */
  function Claimed(ups: seq<Upstream>, prefix: string, crds: nat): Option<Claim> {
    if ups == [] then None
    else
      var n := |ups| - 1;
      var before := Claimed(ups[..n], prefix, crds);
      if before.Some? then before else if ups[n].toolPrefix == prefix then Some(ClaimOf(ups[n], n, crds)) else None
  }

  /** One conflict for each upstream whose prefix an earlier one has. */
  function Conflicts(ups: seq<Upstream>, crds: nat): seq<Conflict> {
    if ups == [] then []
    else
      var n := |ups| - 1;
      var init, last := ups[..n], ups[n];
      if last.toolPrefix == "" || Claimed(init, last.toolPrefix, crds).None? then Conflicts(init, crds)
      else
        var claimed := Claimed(init, last.toolPrefix, crds).value;
        Conflicts(init, crds) + [Conflict(last.toolPrefix, claimed, ClaimOf(last, n, crds))]
  }

  ghost predicate Seen(seen: map<string, Claim>, ups: seq<Upstream>, crds: nat) {
    && (forall prefix :: prefix in seen <==> prefix != "" && Claimed(ups, prefix, crds).Some?)
    && (forall prefix :: prefix in seen ==> Claimed(ups, prefix, crds) == Some(seen[prefix]))
  }

  lemma NothingSeen(crds: nat)
    ensures Conflicts([], crds) == [] && Seen(map[], [], crds)
  {
  }

  method DetectPrefixConflicts(crds: seq<Upstream>, services: seq<Upstream>) returns (conflicts: seq<Conflict>)
    ensures conflicts == Conflicts(crds + services, |crds|)
  {
    hide Conflicts, Claimed, Seen;
    ghost var all := crds + services;
    NothingSeen(|crds|);
    conflicts := [];
    var seen: map<string, Claim> := map[];
    assert all[..0] == [];
    for i := 0 to |crds|
      invariant conflicts == Conflicts(all[..i], |crds|) && Seen(seen, all[..i], |crds|)
    {
      assert all[i] == crds[i];
      conflicts, seen := Record(all, i, |crds|, conflicts, seen, crds[i], "crd");
    }
    for i := 0 to |services|
      invariant conflicts == Conflicts(all[..|crds| + i], |crds|) && Seen(seen, all[..|crds| + i], |crds|)
    {
      assert all[|crds| + i] == services[i];
      conflicts, seen := Record(all, |crds| + i, |crds|, conflicts, seen, services[i], "service");
    }
    assert all[..|all|] == all;
  }

  method Record(ghost all: seq<Upstream>, ghost i: nat, ghost crds: nat,
                conflicts: seq<Conflict>, seen: map<string, Claim>, up: Upstream, source: string)
    returns (conflicts': seq<Conflict>, seen': map<string, Claim>)
    requires i < |all| && all[i] == up && source == ClaimOf(up, i, crds).source
    requires conflicts == Conflicts(all[..i], crds) && Seen(seen, all[..i], crds)
    ensures conflicts' == Conflicts(all[..i + 1], crds) && Seen(seen', all[..i + 1], crds)
  {
    conflicts', seen' := conflicts, seen;
    assert all[..i + 1][..i] == all[..i];
    if up.toolPrefix == "" {
      return;
    }
    var claim := Claim((up.ns, up.name), source);
    if up.toolPrefix in seen {
      conflicts' := conflicts + [Conflict(up.toolPrefix, seen[up.toolPrefix], claim)];
    } else {
      seen' := seen[up.toolPrefix := claim];
    }
  }

  lemma {:induction false} ClaimedIff(ups: seq<Upstream>, prefix: string, crds: nat)
    ensures Claimed(ups, prefix, crds).Some? <==> exists i :: 0 <= i < |ups| && ups[i].toolPrefix == prefix
  {
    if ups != [] {
      var init := ups[..|ups| - 1];
      ClaimedIff(init, prefix, crds);
      if i :| 0 <= i < |init| && init[i].toolPrefix == prefix {
        assert ups[i].toolPrefix == prefix;
      }
      if i :| 0 <= i < |ups| && ups[i].toolPrefix == prefix {
        assert i < |init| ==> init[i].toolPrefix == prefix;
      }
    }
  }

  predicate SharedPrefix(ups: seq<Upstream>) {
    exists i, j :: 0 <= i < j < |ups| && ups[i].toolPrefix == ups[j].toolPrefix != ""
  }

  lemma SharedStep(ups: seq<Upstream>)
    requires ups != []
    ensures var n := |ups| - 1;
            SharedPrefix(ups) <==>
              SharedPrefix(ups[..n]) ||
              (ups[n].toolPrefix != "" && exists i :: 0 <= i < n && ups[..n][i].toolPrefix == ups[n].toolPrefix)
  {
    var init, last := ups[..|ups| - 1], ups[|ups| - 1];
    if SharedPrefix(init) {
      var i, j :| 0 <= i < j < |init| && init[i].toolPrefix == init[j].toolPrefix != "";
      assert ups[i].toolPrefix == ups[j].toolPrefix != "";
    }
    if SharedPrefix(ups) {
      var i, j :| 0 <= i < j < |ups| && ups[i].toolPrefix == ups[j].toolPrefix != "";
      assert init[i] == ups[i] && (j < |init| ==> init[j] == ups[j]);
    }
  }

  /** A conflict is reported if and only if two upstreams claim one prefix. */
  lemma {:induction false} ConflictsIff(ups: seq<Upstream>, crds: nat)
    ensures Conflicts(ups, crds) != [] <==> SharedPrefix(ups)
  {
    if ups != [] {
      var n := |ups| - 1;
      ConflictsIff(ups[..n], crds);
      ClaimedIff(ups[..n], ups[n].toolPrefix, crds);
      SharedStep(ups);
      hide SharedPrefix, Claimed, ClaimOf;
    }
  }
}
