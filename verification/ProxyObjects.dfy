/** What a successful reconciliation leaves in the cluster, in terms of the proxy
    (pkg/operator/controller/mcpproxy_controller.go:56-133, 299-593, 779-823, and
    pkg/operator/configgen/generator.go). */
module ProxyObjects {
  import opened Json
  import opened ConfigGen
  import opened UpstreamWatch
  import opened ConfigMapSync
  import opened Operator

  /** The Deployment runs the proxy's image, on its port, with its replicas and resources, and
      mounts the configuration, and specs and overlays exactly if an upstream that is no
      command has one. */
  predicate Runs(d: Deployment, p: Proxy, ups: seq<Upstream>) {
    && d.image == (if p.image == "" then "ghcr.io/lega4e/mcp-auto:latest" else p.image)
    && d.port == (if p.port == 0 then 8080 else p.port)
    && d.replicas == (match p.replicas case None => 1 case Some(n) => n)
    && d.resources == p.resources
    && ("proxy-config", p.name + "-config") in d.volumes && ("proxy-config", "/etc/mcp-auto") in d.mounts
    && (("upstream-specs", p.name + "-specs") in d.volumes <==>
        exists up :: up in ups && up.kind != "command" && up.specRef.Some?)
    && (("upstream-specs", "/etc/mcp-auto/specs") in d.mounts <==>
        exists up :: up in ups && up.kind != "command" && up.specRef.Some?)
    && (("upstream-overlays", p.name + "-overlays") in d.volumes <==>
          exists up :: up in ups && up.kind != "command" && up.overlayRef.Some?)
    && (("upstream-overlays", "/etc/mcp-auto/overlays") in d.mounts <==>
          exists up :: up in ups && up.kind != "command" && up.overlayRef.Some?)
  }

  /** The Service forwards the same port to the proxy's pods. */
  predicate Forwards(s: Service, p: Proxy) {
    s.port == (if p.port == 0 then 8080 else p.port) && s.instance == p.name
  }

  /** The Route leads from the gateway, in the proxy's namespace unless another is named, to
      the Service on its port; without a gateway there is none. */
  predicate Leads(r: Option<Route>, p: Proxy, routeKind: bool) {
    match p.gatewayRef
    case None => routeKind ==> r == None
    case Some(g) =>
      && r.Some? && r.value.gateway == g.name && r.value.gatewayNs == (if g.ns == "" then p.ns else g.ns)
      && r.value.hostname == g.hostname && r.value.backend == p.name
      && r.value.port == (if p.port == 0 then 8080 else p.port)
  }

  /** The status counts both kinds of upstreams, is of the proxy's generation, and says that it
      was reconciled and whether two upstreams share a prefix. */
  ghost predicate Tells(s: Status, p: Proxy, crds: seq<Upstream>) {
    && s.upstreams == |crds| && s.services == |p.discovered| && s.generation == p.generation
    && s.reconciled.Some? && s.reconciled.value.holds
    && s.reconciled.value.message == Configured(|crds| + |p.discovered|, |crds|, |p.discovered|)
    && s.conflict.Some?
    && (s.conflict.value.holds <==>
          exists i, j :: 0 <= i < j < |crds + p.discovered| &&
                         (crds + p.discovered)[i].toolPrefix == (crds + p.discovered)[j].toolPrefix != "")
  }

  /** The configuration has the proxy's port and settings, and its upstreams one by one. */
  ghost predicate Configures(c: GenConfig, p: Proxy, ups: seq<Upstream>) {
    && c.port == (if p.port == 0 then 8080 else p.port)
    && c.naming == p.settings.naming && c.rateLimits == p.settings.rateLimits && c.inboundAuth == p.settings.inboundAuth
    && c.telemetry == (if p.settings.otlpEndpoint == "" then None else Some(p.settings.otlpEndpoint))
    && |c.upstreams| == |ups| && forall i :: 0 <= i < |ups| ==> Describes(c.upstreams[i], ups[i])
  }

  /** A command upstream keeps its commands. Another one has the address of its Service, if it
      names one, or its own, and reads its spec from the mounted file, if it names a ConfigMap,
      or from a URL, or from itself. */
  ghost predicate Describes(gen: GenUpstream, up: Upstream) {
    if up.kind == "command" then
      gen == CommandUpstream(up.ns + "-" + up.name, up.toolPrefix, up.commands) && up.commands != []
    else
      && gen.HttpUpstream? && gen.name == up.ns + "-" + up.name && gen.toolPrefix == up.toolPrefix
      && gen.settings == up.settings
      && (match up.serviceRef
          case Some((name, port)) => Addresses(gen.baseUrl, name, up.ns, port)
          case None => gen.baseUrl == up.baseUrl != "")
      && (up.specRef.Some? ==> gen.openapi == "/etc/mcp-auto/specs/" + up.ns + "_" + up.name + ".yaml")
      && (up.specRef.None? && up.specUrl != "" ==> gen.openapi == up.specUrl)
      && (up.specRef.None? && up.specUrl == "" ==>
            up.autoDiscover.Some? &&
            gen.openapi ==
              gen.baseUrl + (if up.autoDiscover.value == "" then "/openapi.json" else up.autoDiscover.value))
      && gen.overlay ==
         (if up.overlayRef.Some? then Some("/etc/mcp-auto/overlays/" + up.ns + "_" + up.name + ".yaml") else None)
  }

  // ---------- Addresses ----------

  /** The number that decimal digits spell, most significant first. */
  function Spelled(digits: string): int
  {
    if digits == "" then 0 else 10 * Spelled(digits[..|digits| - 1]) + (digits[|digits| - 1] as int - '0' as int)
  }

  /** The address of a Service inside the cluster, with the port in decimal digits, the first of
      them no zero unless it is the only one. */
  ghost predicate Addresses(url: string, name: string, ns: string, port: nat) {
    exists digits :: url == "http://" + name + "." + ns + ".svc.cluster.local:" + digits && Spells(digits, port)
  }

  predicate Spells(digits: string, n: nat) {
    && digits != "" && (forall i :: 0 <= i < |digits| ==> '0' <= digits[i] <= '9')
    && (|digits| > 1 ==> digits[0] != '0') && Spelled(digits) == n
  }

  lemma {:induction false} DecimalSpells(n: nat)
    ensures Spells(Decimal(n), n) && (n > 0 ==> Decimal(n)[0] != '0')
  {
    if n < 10 {
      assert Decimal(n) == ['0' + n as char];
      assert Decimal(n)[..0] == "";
    } else {
      DecimalSpells(n / 10);
      var before, last := Decimal(n / 10), '0' + (n % 10) as char;
      assert Decimal(n) == before + [last] && (before + [last])[..|before|] == before;
    }
  }

  /** Services whose names and namespaces have no dot (they are DNS labels, RFC 1123) have
      different addresses. */
  lemma AddressesDiffer(url: string, name: string, ns: string, port: nat, name2: string, ns2: string, port2: nat)
    requires Addresses(url, name, ns, port) && Addresses(url, name2, ns2, port2)
    requires '.' !in name && '.' !in ns && '.' !in name2 && '.' !in ns2
    ensures name == name2 && ns == ns2 && port == port2
  {
    var d :| url == "http://" + name + "." + ns + ".svc.cluster.local:" + d && Spells(d, port);
    var e :| url == "http://" + name2 + "." + ns2 + ".svc.cluster.local:" + e && Spells(e, port2);
    var tail, tail2 := "svc.cluster.local:" + d, "svc.cluster.local:" + e;
    AddressParts(name, ns, d);
    AddressParts(name2, ns2, e);
    hide Spells;
    SamePrefix("http://", name + "." + (ns + "." + tail), name2 + "." + (ns2 + "." + tail2));
    FirstDot(name, ns + "." + tail, name2, ns2 + "." + tail2);
    FirstDot(ns, tail, ns2, tail2);
    SamePrefix("svc.cluster.local:", d, e);
    SpelledOnce(d, port, port2);
  }

  lemma SpelledOnce(d: string, m: nat, n: nat)
    requires Spells(d, m) && Spells(d, n)
    ensures m == n
  {
  }

  lemma SamePrefix(a: string, x: string, y: string)
    requires a + x == a + y
    ensures x == y
  {
    assert x == (a + x)[|a|..] && y == (a + y)[|a|..];
  }

  lemma AddressParts(name: string, ns: string, d: string)
    ensures "http://" + name + "." + ns + ".svc.cluster.local:" + d ==
            "http://" + (name + "." + (ns + "." + ("svc.cluster.local:" + d)))
  {
    assert ".svc.cluster.local:" == "." + "svc.cluster.local:";
    Regroup("http://", name, ".", ns, ".", "svc.cluster.local:", d);
  }

  lemma Regroup(a: string, b: string, c: string, d: string, e: string, f: string, g: string)
    ensures a + b + c + d + (e + f) + g == a + (b + c + (d + e + (f + g)))
  {
  }

  lemma FirstDot(a: string, x: string, b: string, y: string)
    requires '.' !in a && '.' !in b && a + "." + x == b + "." + y
    ensures a == b && x == y
  {
    var s := a + "." + x;
    assert s == b + "." + y && s[|a|] == '.' && s[|b|] == '.';
    assert forall i :: 0 <= i < |a| ==> s[i] == a[i] && a[i] in a;
    assert forall i :: 0 <= i < |b| ==> s[i] == b[i] && b[i] in b;
    assert |a| == |b|;
    assert a == s[..|a|] && b == s[..|b|] && x == s[|a| + 1..] && y == s[|b| + 1..];
  }

  // ---------- One object at a time ----------

  lemma DeploymentRuns(p: Proxy, ups: seq<Upstream>)
    ensures Runs(DesiredDeployment(p, ups), p, ups)
  {
    var d := DesiredDeployment(p, ups);
    assert d.volumes[0] == ("proxy-config", p.name + "-config") && d.mounts[0] == ("proxy-config", "/etc/mcp-auto");
    NeedsAre(ups);
    VolumesAre(p, NeedsSpecs(ups), NeedsOverlays(ups));
    hide NeedsSpecs, NeedsOverlays, Volumes, Mounts;
  }

  lemma NeedsAre(ups: seq<Upstream>)
    ensures NeedsSpecs(ups) <==> exists up :: up in ups && up.kind != "command" && up.specRef.Some?
    ensures NeedsOverlays(ups) <==> exists up :: up in ups && up.kind != "command" && up.overlayRef.Some?
  {
    if up :| up in ups && up.kind != "command" && up.specRef.Some? {
      var i :| 0 <= i < |ups| && ups[i] == up;
    }
    if up :| up in ups && up.kind != "command" && up.overlayRef.Some? {
      var i :| 0 <= i < |ups| && ups[i] == up;
    }
  }

  lemma VolumesAre(p: Proxy, specs: bool, overlays: bool)
    ensures var v, m := Volumes(p, specs, overlays), Mounts(specs, overlays);
            && v != [] && m != []
            && (("upstream-specs", p.name + "-specs") in v <==> specs)
            && (("upstream-specs", "/etc/mcp-auto/specs") in m <==> specs)
            && (("upstream-overlays", p.name + "-overlays") in v <==> overlays)
            && (("upstream-overlays", "/etc/mcp-auto/overlays") in m <==> overlays)
  {
    NamesDiffer();
  }

  lemma NamesDiffer()
    ensures "proxy-config" != "upstream-specs" && "proxy-config" != "upstream-overlays"
    ensures "upstream-specs" != "upstream-overlays"
  {
    assert "proxy-config"[0] != "upstream-specs"[0] && "upstream-specs"[9] != "upstream-overlays"[9];
  }

  lemma StatusTells(s: Option<Status>, p: Proxy, crds: seq<Upstream>)
    requires StatusIsCurrent(s, p, crds)
    ensures s.Some? && Tells(s.value, p, crds)
  {
    var ups := crds + p.discovered;
    ConflictsIff(ups, |crds|);
    hide Conflicts;
  }

  lemma UpstreamDescribed(up: Upstream)
    requires BuildUpstream(up).Some?
    ensures Describes(BuildUpstream(up).value, up)
  {
    if up.serviceRef.Some? {
      DecimalSpells(up.serviceRef.value.1);
      hide Decimal, Spells;
    }
    PathsRegroup(up);
  }

  lemma PathsRegroup(up: Upstream)
    ensures "/etc/mcp-auto/specs" + "/" + FileKey(up) == "/etc/mcp-auto/specs/" + up.ns + "_" + up.name + ".yaml"
    ensures "/etc/mcp-auto/overlays" + "/" + FileKey(up) == "/etc/mcp-auto/overlays/" + up.ns + "_" + up.name + ".yaml"
  {
    assert "/etc/mcp-auto/specs" + "/" == "/etc/mcp-auto/specs/";
    assert "/etc/mcp-auto/overlays" + "/" == "/etc/mcp-auto/overlays/";
  }

  lemma ConfigConfigures(p: Proxy, ups: seq<Upstream>)
    requires ConfigOf(p, ups).Some?
    ensures Configures(ConfigOf(p, ups).value, p, ups)
  {
    hide BuildUpstream, BuildAll, Describes;
    if ups == [] {
      NothingBuilt();
    } else {
      BuiltAt(ups, 0);
    }
    forall i | 0 <= i < |ups| ensures Describes(BuildAll(ups).value[i], ups[i]) {
      BuiltAt(ups, i);
      UpstreamDescribed(ups[i]);
    }
  }

  lemma NothingBuilt()
    ensures BuildAll([]) == Some([])
  {
  }

  // ---------- A pass ----------

  lemma PassLeaves(w: World, st: State, p: Proxy)
    requires ReconcileProxy(w, st, p).Done?
    ensures var r := ReconcileProxy(w, st, p).store;
            && Listed(w.upstreams, p).Some? && ConfigOf(p, Ups(w, p)).Some?
            && Ups(w, p) == Listed(w.upstreams, p).value + p.discovered
            && RestCurrent(ObjectsAt(r, KeyOf(p)), p, w.routeKind, Listed(w.upstreams, p).value)
            && DataAt(r.config, ConfigMapOf(p)) == map["config.yaml" := Rendered(ConfigOf(p, Ups(w, p)).value)]
  {
    hide *;
    if Listed(w.upstreams, p).None? || ConfigOf(p, Ups(w, p)).None? {
      ReconcileFails(w, st, p);
      assert false;
    } else {
      var crds, config := Listed(w.upstreams, p).value, ConfigOf(p, Ups(w, p)).value;
      var cs := Copies(p, Ups(w, p));
      var s1 := SyncConfig(st.config, p, config);
      var copied := CopyAll(s1, cs);
      var s2 := st.(config := copied.store);
      ReconcileUnfolds(w, st, p);
      SyncConfigFacts(st.config, p, config);
      NotCopiedTo(p, Ups(w, p));
      CopyKeeps(s1, cs, ConfigMapOf(p));
      SyncRestFacts(s2, p, w.routeKind, crds);
      var r := SyncRest(s2, p, w.routeKind, crds).store;
      StepCounts(s2, r, KeyOf(p));
      SameDataAt(copied.store, r.config, ConfigMapOf(p));
    }
  }

  lemma NotCopiedTo(p: Proxy, ups: seq<Upstream>)
    ensures !IsDest(Copies(p, ups), ConfigMapOf(p))
  {
    hide Copies, ConfigMapOf, SpecsMap, OverlaysMap;
    forall i | 0 <= i < |Copies(p, ups)| ensures Copies(p, ups)[i].dest != ConfigMapOf(p) {
      CopiesInto(p, ups, i);
    }
  }

  /** After every successful pass the objects of the proxy's name carry the proxy's own fields:
      the Deployment, the Service, the Route, the status and the configuration. */
  lemma PassWritesTheProxy(w: World, st: State, p: Proxy)
    requires ReconcileProxy(w, st, p).Done?
    ensures var r, k := ReconcileProxy(w, st, p).store, (p.ns, p.name);
            && Listed(w.upstreams, p).Some?
            && var crds := Listed(w.upstreams, p).value;
               var ups := crds + p.discovered;
            && k in r.deployments && Runs(r.deployments[k], p, ups)
            && k in r.services && Forwards(r.services[k], p)
            && Leads(if k in r.routes then Some(r.routes[k]) else None, p, w.routeKind)
            && k in r.statuses && Tells(r.statuses[k], p, crds)
            && (p.ns, p.name + "-config") in r.config.maps
            && exists c ::
                 r.config.maps[(p.ns, p.name + "-config")] == map["config.yaml" := Rendered(c)] && Configures(c, p, ups)
  {
    PassLeaves(w, st, p);
    var r, k := ReconcileProxy(w, st, p).store, (p.ns, p.name);
    var crds := Listed(w.upstreams, p).value;
    var ups := crds + p.discovered;
    assert KeyOf(p) == k && ConfigMapOf(p) == (p.ns, p.name + "-config");
    assert "config.yaml" in map["config.yaml" := Rendered(ConfigOf(p, ups).value)];
    assert r.config.maps[(p.ns, p.name + "-config")] == map["config.yaml" := Rendered(ConfigOf(p, ups).value)];
    hide ReconcileProxy, Listed, ConfigOf, DesiredDeployment, StatusIsCurrent, Runs, Tells, Configures;
    DeploymentRuns(p, ups);
    ConfigConfigures(p, ups);
    StatusTells(ObjectsAt(r, k).status, p, crds);
  }
}
