/** The MCPProxy reconciler (pkg/operator/controller/mcpproxy_controller.go:56-133) over a
    cluster that returns what was written: what it writes, when it settles, and that it
    stays settled whatever else is reconciled. */
module Operator {
  import opened Json
  import opened ConfigGen
  import opened UpstreamWatch
  import opened ConfigMapSync

  datatype Deployment = Deployment(image: string, port: nat, replicas: nat, resources: string,
                                   volumes: seq<(string, string)>, mounts: seq<(string, string)>)

  /** `other` stands for the fields that the reconciler leaves alone. */
  datatype Service = Service(port: nat, instance: string, other: string)

  datatype Route = Route(gateway: string, gatewayNs: string, hostname: string, backend: string, port: nat)

  datatype Message = Configured(total: nat, crds: nat, services: nat) | PrefixConflicts(conflicts: seq<Conflict>)
                   | NoPrefixConflicts | NotGenerated

  datatype Condition = Condition(holds: bool, reason: string, message: Message, generation: nat)

  datatype Status = Status(upstreams: nat, services: nat, generation: nat,
                           reconciled: Option<Condition>, conflict: Option<Condition>)

  /** The objects that the reconciler writes; `config.writes` counts the writes to all of them. */
  datatype State = State(config: Store, deployments: map<Key, Deployment>, services: map<Key, Service>,
                         routes: map<Key, Route>, statuses: map<Key, Status>)

  /** What the reconciler only reads: the proxies, the upstreams, and whether the cluster
      knows HTTPRoutes. */
  datatype World = World(proxies: map<Key, Proxy>, upstreams: seq<Upstream>, routeKind: bool)

  function KeyOf(p: Proxy): Key { (p.ns, p.name) }

  function ConfigMapOf(p: Proxy): Key { (p.ns, p.name + "-config") }

  function Wrote(s: Store): Store { s.(writes := s.writes + 1) }

  // ---------- Desired objects ----------

  const DEFAULT_IMAGE := "ghcr.io/lega4e/mcp-auto:latest"

  function PortOf(p: Proxy): nat { if p.port == 0 then DEFAULT_PORT else p.port }

  predicate NeedsSpecs(ups: seq<Upstream>) {
    exists i :: 0 <= i < |ups| && !IsCommand(ups[i]) && ups[i].specRef.Some?
  }

  predicate NeedsOverlays(ups: seq<Upstream>) {
    exists i :: 0 <= i < |ups| && !IsCommand(ups[i]) && ups[i].overlayRef.Some?
  }

  function Volumes(p: Proxy, specs: bool, overlays: bool): seq<(string, string)> {
    [("proxy-config", p.name + "-config")] + (if specs then [("upstream-specs", p.name + "-specs")] else []) +
    (if overlays then [("upstream-overlays", p.name + "-overlays")] else [])
  }

  function Mounts(specs: bool, overlays: bool): seq<(string, string)> {
    [("proxy-config", "/etc/mcp-auto")] + (if specs then [("upstream-specs", SPECS_DIR)] else []) +
    (if overlays then [("upstream-overlays", OVERLAYS_DIR)] else [])
  }

  function DesiredDeployment(p: Proxy, ups: seq<Upstream>): Deployment {
    Deployment(if p.image == "" then DEFAULT_IMAGE else p.image, PortOf(p),
               if p.replicas.Some? then p.replicas.value else 1, p.resources,
               Volumes(p, NeedsSpecs(ups), NeedsOverlays(ups)), Mounts(NeedsSpecs(ups), NeedsOverlays(ups)))
  }

  function DesiredRoute(p: Proxy, g: GatewayRef): Route {
    Route(g.name, if g.ns == "" then p.ns else g.ns, g.hostname, p.name, PortOf(p))
  }

  function ConflictCondition(p: Proxy, conflicts: seq<Conflict>): Condition {
    if conflicts != [] then Condition(true, "PrefixConflict", PrefixConflicts(conflicts), p.generation)
    else Condition(false, "NoPrefixConflict", NoPrefixConflicts, p.generation)
  }

  function ReconciledCondition(p: Proxy, crds: nat, services: nat): Condition {
    Condition(true, "Reconciled", Configured(crds + services, crds, services), p.generation)
  }

  // ---------- Steps ----------

  function SyncConfig(s: Store, p: Proxy, config: GenConfig): Store {
    var data := map["config.yaml" := Rendered(config)];
    if ConfigMapOf(p) in s.maps && s.maps[ConfigMapOf(p)] == data then s
    else Wrote(s.(maps := s.maps[ConfigMapOf(p) := data]))
  }

  function SyncDeployment(st: State, p: Proxy, ups: seq<Upstream>): State {
    var desired := DesiredDeployment(p, ups);
    if KeyOf(p) in st.deployments && st.deployments[KeyOf(p)] == desired then st
    else st.(deployments := st.deployments[KeyOf(p) := desired], config := Wrote(st.config))
  }

  /** Only the ports and the selector of an existing Service are compared and written. */
  function SyncService(st: State, p: Proxy): State {
    if KeyOf(p) !in st.services then
      st.(services := st.services[KeyOf(p) := Service(PortOf(p), p.name, "")], config := Wrote(st.config))
    else
      var s := st.services[KeyOf(p)];
      if s.port == PortOf(p) && s.instance == p.name then st
      else
        st.(services := st.services[KeyOf(p) := s.(port := PortOf(p), instance := p.name)],
            config := Wrote(st.config))
  }

  function SyncRoute(st: State, p: Proxy, routeKind: bool): Outcome<State> {
    match p.gatewayRef
    case None =>
      if !routeKind || KeyOf(p) !in st.routes then Done(st)
      else Done(st.(routes := st.routes - {KeyOf(p)}, config := Wrote(st.config)))
    case Some(g) =>
      if !routeKind then Failed(st)
      else if KeyOf(p) in st.routes && st.routes[KeyOf(p)] == DesiredRoute(p, g) then Done(st)
      else Done(st.(routes := st.routes[KeyOf(p) := DesiredRoute(p, g)], config := Wrote(st.config)))
  }

  const NO_STATUS := Status(0, 0, 0, None, None)

  function StatusOf(st: State, p: Proxy): Status {
    if KeyOf(p) in st.statuses then st.statuses[KeyOf(p)] else NO_STATUS
  }

  /** Reasons and generations of conditions are not compared. */
  predicate SameCondition(c: Option<Condition>, d: Condition) {
    c.Some? && c.value.holds == d.holds && c.value.message == d.message
  }

  predicate StatusCurrent(s: Status, p: Proxy, crds: nat, services: nat, conflicts: seq<Conflict>) {
    && s.upstreams == crds && s.services == services && s.generation == p.generation
    && SameCondition(s.reconciled, ReconciledCondition(p, crds, services))
    && SameCondition(s.conflict, ConflictCondition(p, conflicts))
  }

  function SyncStatus(st: State, p: Proxy, crds: nat, services: nat, conflicts: seq<Conflict>): State {
    if StatusCurrent(StatusOf(st, p), p, crds, services, conflicts) then st
    else
      WriteStatus(st, p, NewStatus(p, crds, services, conflicts))
  }

  function NewStatus(p: Proxy, crds: nat, services: nat, conflicts: seq<Conflict>): Status {
    Status(crds, services, p.generation, Some(ReconciledCondition(p, crds, services)),
           Some(ConflictCondition(p, conflicts)))
  }

  function WriteStatus(st: State, p: Proxy, s: Status): State {
    st.(statuses := st.statuses[KeyOf(p) := s], config := Wrote(st.config))
  }

  /** A configuration that cannot be generated is recorded on every attempt. */
  function RecordFailure(st: State, p: Proxy): State {
    WriteStatus(st, p,
                StatusOf(st, p).(reconciled := Some(Condition(false, "ConfigGenFailed", NotGenerated, p.generation))))
  }

  /** The objects after the ConfigMaps. */
  function SyncRest(st: State, p: Proxy, routeKind: bool, crds: seq<Upstream>): Outcome<State> {
    match SyncRoute(SyncService(SyncDeployment(st, p, crds + p.discovered), p), p, routeKind)
    case Failed(s) => Failed(s)
    case Done(s) => Done(SyncStatus(s, p, |crds|, |p.discovered|, Conflicts(crds + p.discovered, |crds|)))
  }

  function ConfigOf(p: Proxy, ups: seq<Upstream>): Option<GenConfig> {
    match BuildAll(ups)
    case None => None
    case Some(built) => Some(ConfigWith(p.port, p.settings, built))
  }

  function SyncAll(st: State, p: Proxy, routeKind: bool, crds: seq<Upstream>): Outcome<State> {
    var ups := crds + p.discovered;
    match ConfigOf(p, ups)
    case None => Failed(RecordFailure(st, p))
    case Some(config) =>
      match CopyAll(SyncConfig(st.config, p, config), Copies(p, ups))
      case Failed(s) => Failed(st.(config := s))
      case Done(s) => SyncRest(st.(config := s), p, routeKind, crds)
  }

  function ReconcileProxy(w: World, st: State, p: Proxy): Outcome<State> {
    match Listed(w.upstreams, p)
    case None => Failed(st)
    case Some(crds) => SyncAll(st, p, w.routeKind, crds)
  }

  function ReconcileKey(w: World, st: State, k: Key): Outcome<State> {
    if k in w.proxies then ReconcileProxy(w, st, w.proxies[k]) else Done(st)
  }

  // ---------- The reconciler ----------

  /** The cluster as the reconciler sees it. */
  class Cluster {
    const world: World
    var maps: map<Key, map<string, Document>>
    var deployments: map<Key, Deployment>
    var services: map<Key, Service>
    var routes: map<Key, Route>
    var statuses: map<Key, Status>
    var writes: nat

    function Contents(): State
      reads this
    {
      State(Store(maps, writes), deployments, services, routes, statuses)
    }

    constructor (world: World, st: State)
      ensures this.world == world && Contents() == st
    {
      this.world := world;
      maps, writes := st.config.maps, st.config.writes;
      deployments, services, routes, statuses := st.deployments, st.services, st.routes, st.statuses;
    }

    method ReconcileConfigMap(p: Proxy, config: GenConfig)
      modifies this
      ensures Contents() == old(Contents()).(config := SyncConfig(old(Contents()).config, p, config))
    {
      var name := ConfigMapOf(p);
      var data := map["config.yaml" := Rendered(config)];
      if name !in maps || maps[name] != data {
        maps := maps[name := data];
        writes := writes + 1;
      }
    }

    method UpsertConfigMap(name: Key, file: string, value: Document)
      modifies this
      ensures Contents() == old(Contents()).(config := Upsert(old(Contents()).config, name, file, value))
    {
      if name !in maps {
        maps := maps[name := map[file := value]];
        writes := writes + 1;
        return;
      }
      var data := maps[name];
      if |data| > 0 && Lookup(data, file) == value {
        return;
      }
      maps := maps[name := data[file := value]];
      writes := writes + 1;
    }

    /** One spec or overlay: fetch the source, look the key up, and write it. */
    method CopyKey(c: Copy) returns (ok: bool)
      modifies this
      ensures var r := CopyOne(old(Contents()).config, c);
              ok == r.Done? && Contents() == old(Contents()).(config := r.store)
    {
      if c.source !in maps || c.key !in maps[c.source] {
        return false;
      }
      UpsertConfigMap(c.dest, c.file, maps[c.source][c.key]);
      return true;
    }

    method ReconcileSpec(p: Proxy, up: Upstream) returns (ok: bool)
      modifies this
      ensures var r := CopyAll(old(Contents()).config, SpecCopies(p, up));
              ok == r.Done? && Contents() == old(Contents()).(config := r.store)
    {
      hide CopyAll, CopyOne;
      if up.specRef.None? {
        CopyAllFew(Contents().config, Copy(("", ""), "", ("", ""), ""));
        return true;
      }
      var c := Copy((up.ns, up.specRef.value.name), up.specRef.value.key, SpecsMap(p), FileKey(up));
      CopyAllFew(Contents().config, c);
      ok := CopyKey(c);
    }

    method ReconcileOverlay(p: Proxy, up: Upstream) returns (ok: bool)
      modifies this
      ensures var r := CopyAll(old(Contents()).config, OverlayCopies(p, up));
              ok == r.Done? && Contents() == old(Contents()).(config := r.store)
    {
      hide CopyAll, CopyOne;
      if up.overlayRef.None? {
        CopyAllFew(Contents().config, Copy(("", ""), "", ("", ""), ""));
        return true;
      }
      var c := Copy((up.ns, up.overlayRef.value.name), up.overlayRef.value.key, OverlaysMap(p), FileKey(up));
      CopyAllFew(Contents().config, c);
      ok := CopyKey(c);
    }

    method ReconcileUpstreamConfigMaps(p: Proxy, ups: seq<Upstream>) returns (ok: bool)
      modifies this
      ensures var r := CopyAll(old(Contents()).config, Copies(p, ups));
              ok == r.Done? && Contents() == old(Contents()).(config := r.store)
    {
      ghost var start := Contents();
      hide CopyAll, CopyOne, SpecCopies, OverlayCopies;
      CopyAllFew(start.config, Copy(("", ""), "", ("", ""), ""));
      for i := 0 to |ups|
        invariant CopyAll(start.config, Copies(p, ups[..i])) == Done(Contents().config)
        invariant Contents() == start.(config := Contents().config)
      {
        var up := ups[i];
        assert ups[..i + 1][..i] == ups[..i];
        CopyAllFew(Contents().config, Copy(("", ""), "", ("", ""), ""));
        CopyAllAppend(start.config, Copies(p, ups[..i]), CopiesOf(p, up));
        CopyAllAppend(Contents().config, SpecCopies(p, up), OverlayCopies(p, up));
        if up.kind == "command" {
          continue;
        }
        ok := ReconcileSpec(p, up);
        if ok {
          ok := ReconcileOverlay(p, up);
        }
        if !ok {
          CopiesFail(start.config, p, ups, i + 1);
          return false;
        }
      }
      assert ups[..|ups|] == ups;
      return true;
    }

    method ReconcileDeployment(p: Proxy, ups: seq<Upstream>)
      modifies this
      ensures Contents() == SyncDeployment(old(Contents()), p, ups)
    {
      var desired := BuildDeployment(p, ups);
      if KeyOf(p) !in deployments || deployments[KeyOf(p)] != desired {
        deployments := deployments[KeyOf(p) := desired];
        writes := writes + 1;
      }
    }

    method ReconcileService(p: Proxy)
      modifies this
      ensures Contents() == SyncService(old(Contents()), p)
    {
      if KeyOf(p) !in services {
        services := services[KeyOf(p) := Service(PortOf(p), p.name, "")];
        writes := writes + 1;
        return;
      }
      var existing := services[KeyOf(p)];
      if existing.port == PortOf(p) && existing.instance == p.name {
        return;
      }
      services := services[KeyOf(p) := existing.(port := PortOf(p), instance := p.name)];
      writes := writes + 1;
    }

    method ReconcileHTTPRoute(p: Proxy) returns (ok: bool)
      modifies this
      ensures var r := SyncRoute(old(Contents()), p, world.routeKind);
              ok == r.Done? && Contents() == r.store
    {
      var found := world.routeKind && KeyOf(p) in routes;
      if p.gatewayRef.None? {
        if !found {
          return true;
        }
        routes := routes - {KeyOf(p)};
        writes := writes + 1;
        return true;
      }
      var desired := DesiredRoute(p, p.gatewayRef.value);
      if !world.routeKind {
        return false;
      }
      if !found || routes[KeyOf(p)] != desired {
        routes := routes[KeyOf(p) := desired];
        writes := writes + 1;
      }
      return true;
    }

    method UpdateStatus(p: Proxy, crds: nat, svcs: nat, conflicts: seq<Conflict>)
      modifies this
      ensures Contents() == SyncStatus(old(Contents()), p, crds, svcs, conflicts)
    {
      var current := if KeyOf(p) in statuses then statuses[KeyOf(p)] else NO_STATUS;
      if StatusCurrent(current, p, crds, svcs, conflicts) {
        return;
      }
      statuses := statuses[KeyOf(p) :=
        Status(crds, svcs, p.generation, Some(ReconciledCondition(p, crds, svcs)),
               Some(ConflictCondition(p, conflicts)))];
      writes := writes + 1;
    }

    method SetFailed(p: Proxy)
      modifies this
      ensures Contents() == RecordFailure(old(Contents()), p)
    {
      var current := if KeyOf(p) in statuses then statuses[KeyOf(p)] else NO_STATUS;
      statuses := statuses[KeyOf(p) :=
        current.(reconciled := Some(Condition(false, "ConfigGenFailed", NotGenerated, p.generation)))];
      writes := writes + 1;
    }

    method Reconcile(k: Key) returns (ok: bool)
      modifies this
      ensures var r := ReconcileKey(world, old(Contents()), k);
              ok == r.Done? && Contents() == r.store
    {
      if k !in world.proxies {
        return true;
      }
      var p := world.proxies[k];
      var listed := ListUpstreams(world.upstreams, p);
      if listed.None? {
        return false;
      }
      hide BuildAll, Listed, Conflicts, CopyAll, Copies, SyncConfig, SyncDeployment, SyncService, SyncRoute,
           SyncStatus, RecordFailure;
      var crds := listed.value;
      var ups := crds + p.discovered;
      var conflicts := DetectPrefixConflicts(crds, p.discovered);
      var config := Generate(p.port, p.settings, ups);
      if config.None? {
        SetFailed(p);
        return false;
      }
      ReconcileConfigMap(p, config.value);
      ok := ReconcileUpstreamConfigMaps(p, ups);
      if !ok {
        return;
      }
      ReconcileDeployment(p, ups);
      ReconcileService(p);
      ok := ReconcileHTTPRoute(p);
      if !ok {
        return;
      }
      UpdateStatus(p, |crds|, |p.discovered|, conflicts);
    }
  }

  /** Copying fails on all upstreams once it fails on the first few. */
  lemma {:induction false} CopiesFail(s: Store, p: Proxy, ups: seq<Upstream>, i: nat)
    requires i <= |ups| && CopyAll(s, Copies(p, ups[..i])).Failed?
    ensures CopyAll(s, Copies(p, ups)) == CopyAll(s, Copies(p, ups[..i]))
    decreases |ups| - i
  {
    if i == |ups| {
      assert ups[..i] == ups;
    } else {
      assert ups[..i + 1][..i] == ups[..i];
      CopyAllAppend(s, Copies(p, ups[..i]), CopiesOf(p, ups[i]));
      hide CopyAll, CopiesOf;
      CopiesFail(s, p, ups, i + 1);
    }
  }

  method BuildDeployment(p: Proxy, ups: seq<Upstream>) returns (d: Deployment)
    ensures d == DesiredDeployment(p, ups)
  {
    var volumes := [("proxy-config", p.name + "-config")];
    var mounts := [("proxy-config", "/etc/mcp-auto")];
    var hasSpecs, hasOverlays := false, false;
    for i := 0 to |ups|
      invariant hasSpecs <==> exists j :: 0 <= j < i && !IsCommand(ups[j]) && ups[j].specRef.Some?
      invariant hasOverlays <==> exists j :: 0 <= j < i && !IsCommand(ups[j]) && ups[j].overlayRef.Some?
    {
      if ups[i].kind == "command" {
        continue;
      }
      if ups[i].specRef.Some? {
        hasSpecs := true;
      }
      if ups[i].overlayRef.Some? {
        hasOverlays := true;
      }
    }
    assert hasSpecs == NeedsSpecs(ups) && hasOverlays == NeedsOverlays(ups);
    if hasSpecs {
      volumes := volumes + [("upstream-specs", p.name + "-specs")];
      mounts := mounts + [("upstream-specs", SPECS_DIR)];
    }
    if hasOverlays {
      volumes := volumes + [("upstream-overlays", p.name + "-overlays")];
      mounts := mounts + [("upstream-overlays", OVERLAYS_DIR)];
    }
    var image := p.image;
    if image == "" {
      image := DEFAULT_IMAGE;
    }
    var port := p.port;
    if port == 0 {
      port := DEFAULT_PORT;
    }
    var replicas := 1;
    if p.replicas.Some? {
      replicas := p.replicas.value;
    }
    assert volumes == Volumes(p, hasSpecs, hasOverlays) && mounts == Mounts(hasSpecs, hasOverlays);
    d := Deployment(image, port, replicas, p.resources, volumes, mounts);
  }

  // ---------- Settling ----------

  function Ups(w: World, p: Proxy): seq<Upstream> {
    if Listed(w.upstreams, p).Some? then Listed(w.upstreams, p).value + p.discovered else []
  }

  /** The objects that carry a proxy's own name. */
  datatype Objects = Objects(deployment: Option<Deployment>, service: Option<Service>, route: Option<Route>,
                             status: Option<Status>)

  function At<T>(m: map<Key, T>, k: Key): Option<T> {
    if k in m then Some(m[k]) else None
  }

  function ObjectsAt(st: State, k: Key): Objects {
    Objects(At(st.deployments, k), At(st.services, k), At(st.routes, k), At(st.statuses, k))
  }

  predicate ServiceCurrent(s: Option<Service>, p: Proxy) {
    s.Some? && s.value.port == PortOf(p) && s.value.instance == p.name
  }

  predicate RouteCurrent(r: Option<Route>, p: Proxy, routeKind: bool) {
    match p.gatewayRef
    case None => !routeKind || r.None?
    case Some(g) => routeKind && r == Some(DesiredRoute(p, g))
  }

  predicate StatusIsCurrent(s: Option<Status>, p: Proxy, crds: seq<Upstream>) {
    StatusCurrent(if s.Some? then s.value else NO_STATUS, p, |crds|, |p.discovered|,
                  Conflicts(crds + p.discovered, |crds|))
  }

  predicate RestCurrent(o: Objects, p: Proxy, routeKind: bool, crds: seq<Upstream>) {
    && o.deployment == Some(DesiredDeployment(p, crds + p.discovered))
    && ServiceCurrent(o.service, p) && RouteCurrent(o.route, p, routeKind) && StatusIsCurrent(o.status, p, crds)
  }

  /** The objects of a proxy other than the copied files. */
  predicate ObjectsCurrent(w: World, st: State, p: Proxy) {
    && Listed(w.upstreams, p).Some? && ConfigOf(p, Ups(w, p)).Some?
    && DataAt(st.config, ConfigMapOf(p)) == map["config.yaml" := Rendered(ConfigOf(p, Ups(w, p)).value)]
    && RestCurrent(ObjectsAt(st, KeyOf(p)), p, w.routeKind, Listed(w.upstreams, p).value)
  }

  predicate FilesCurrent(w: World, st: State, p: Proxy) {
    AllCurrent(st.config, Copies(p, Ups(w, p)))
  }

  predicate AllCurrent(s: Store, cs: seq<Copy>) {
    forall i :: 0 <= i < |cs| ==> UpToDate(s, cs[i])
  }

  /** Every object of the proxy is what it should be. */
  predicate Settled(w: World, st: State, p: Proxy) {
    ObjectsCurrent(w, st, p) && FilesCurrent(w, st, p)
  }

  lemma SyncConfigFacts(s: Store, p: Proxy, config: GenConfig)
    ensures var r := SyncConfig(s, p, config);
            && DataAt(r, ConfigMapOf(p)) == map["config.yaml" := Rendered(config)]
            && (forall k :: k != ConfigMapOf(p) ==> (k in r.maps <==> k in s.maps) && DataAt(r, k) == DataAt(s, k))
            && (r == s || r.writes > s.writes)
            && (r == s <==> DataAt(s, ConfigMapOf(p)) == map["config.yaml" := Rendered(config)])
  {
    var data: map<string, Document> := map["config.yaml" := Rendered(config)];
    assert "config.yaml" in data && data != map[];
  }

  /** A step on the objects that carry a proxy's name: other names and the ConfigMaps are left
      alone, and what is changed is counted. */
  ghost predicate Step(st: State, r: State, k: Key) {
    && r.config.maps == st.config.maps && (r == st || r.config.writes > st.config.writes)
    && forall j :: j != k ==> ObjectsAt(r, j) == ObjectsAt(st, j)
  }

  lemma DeploymentStep(st: State, p: Proxy, ups: seq<Upstream>)
    ensures var r, o, desired := SyncDeployment(st, p, ups), ObjectsAt(st, KeyOf(p)), DesiredDeployment(p, ups);
            && Step(st, r, KeyOf(p)) && ObjectsAt(r, KeyOf(p)) == o.(deployment := Some(desired))
            && (r == st <==> o.deployment == Some(desired))
  {
    hide DesiredDeployment;
  }

  lemma ServiceStep(st: State, p: Proxy)
    ensures var r, o := SyncService(st, p), ObjectsAt(st, KeyOf(p));
            && Step(st, r, KeyOf(p)) && ObjectsAt(r, KeyOf(p)) == o.(service := ObjectsAt(r, KeyOf(p)).service)
            && ServiceCurrent(ObjectsAt(r, KeyOf(p)).service, p) && (r == st <==> ServiceCurrent(o.service, p))
  {
    hide PortOf;
  }

  lemma RouteStep(st: State, p: Proxy, routeKind: bool)
    ensures var r, o := SyncRoute(st, p, routeKind), ObjectsAt(st, KeyOf(p));
            && Step(st, r.store, KeyOf(p))
            && ObjectsAt(r.store, KeyOf(p)) == o.(route := ObjectsAt(r.store, KeyOf(p)).route)
            && (r.Done? ==> RouteCurrent(ObjectsAt(r.store, KeyOf(p)).route, p, routeKind))
            && (r == Done(st) <==> RouteCurrent(o.route, p, routeKind))
  {
    hide DesiredRoute;
  }

  lemma StatusStep(st: State, p: Proxy, crds: seq<Upstream>)
    ensures var r := SyncStatus(st, p, |crds|, |p.discovered|, Conflicts(crds + p.discovered, |crds|));
            var o := ObjectsAt(st, KeyOf(p));
            && Step(st, r, KeyOf(p)) && ObjectsAt(r, KeyOf(p)) == o.(status := ObjectsAt(r, KeyOf(p)).status)
            && StatusIsCurrent(ObjectsAt(r, KeyOf(p)).status, p, crds)
            && (r == st <==> StatusIsCurrent(o.status, p, crds))
  {
    hide Conflicts;
    var conflicts := Conflicts(crds + p.discovered, |crds|);
    NewStatusCurrent(p, |crds|, |p.discovered|, conflicts);
    WriteStatusStep(st, p, NewStatus(p, |crds|, |p.discovered|, conflicts));
    var status := ObjectsAt(st, KeyOf(p)).status;
    assert StatusOf(st, p) == if status.Some? then status.value else NO_STATUS;
    hide StatusCurrent, NewStatus, WriteStatus, StatusOf, Step, ObjectsAt;
    NothingStep(st, KeyOf(p));
  }

  lemma NothingStep(st: State, k: Key)
    ensures Step(st, st, k)
  {
  }

  lemma WriteStatusStep(st: State, p: Proxy, s: Status)
    ensures var r := WriteStatus(st, p, s);
            Step(st, r, KeyOf(p)) && r != st && ObjectsAt(r, KeyOf(p)) == ObjectsAt(st, KeyOf(p)).(status := Some(s))
  {
  }

  lemma NewStatusCurrent(p: Proxy, crds: nat, services: nat, conflicts: seq<Conflict>)
    ensures StatusCurrent(NewStatus(p, crds, services, conflicts), p, crds, services, conflicts)
  {
  }

  lemma StepsCompose(a: State, b: State, c: State, k: Key)
    requires Step(a, b, k) && Step(b, c, k)
    ensures Step(a, c, k) && (c == a <==> a == b == c)
  {
    hide ObjectsAt;
  }

  /** The rest of a pass counts its writes, makes every object current if it succeeds, and
      writes nothing exactly when all is current already. */
  lemma SyncRestFacts(st: State, p: Proxy, routeKind: bool, crds: seq<Upstream>)
    ensures var r := SyncRest(st, p, routeKind, crds);
            && Step(st, r.store, KeyOf(p))
            && (r.Done? ==> RestCurrent(ObjectsAt(r.store, KeyOf(p)), p, routeKind, crds))
            && (r == Done(st) <==> RestCurrent(ObjectsAt(st, KeyOf(p)), p, routeKind, crds))
  {
    hide *;
    var k := KeyOf(p);
    var s1 := SyncDeployment(st, p, crds + p.discovered);
    var s2 := SyncService(s1, p);
    var s3 := SyncRoute(s2, p, routeKind);
    DeploymentStep(st, p, crds + p.discovered);
    ServiceStep(s1, p);
    RouteStep(s2, p, routeKind);
    StepsCompose(st, s1, s2, k);
    StepsCompose(st, s2, s3.store, k);
    RestUnfolds(st, p, routeKind, crds);
    if s3.Done? {
      var s4 := SyncStatus(s3.store, p, |crds|, |p.discovered|, Conflicts(crds + p.discovered, |crds|));
      StatusStep(s3.store, p, crds);
      StepsCompose(st, s3.store, s4, k);
      CurrentUnfolds(ObjectsAt(s4, k), p, routeKind, crds);
    }
    CurrentUnfolds(ObjectsAt(st, k), p, routeKind, crds);
  }

  lemma RestUnfolds(st: State, p: Proxy, routeKind: bool, crds: seq<Upstream>)
    ensures SyncRest(st, p, routeKind, crds) ==
            var s := SyncRoute(SyncService(SyncDeployment(st, p, crds + p.discovered), p), p, routeKind);
            if s.Failed? then s
            else Done(SyncStatus(s.store, p, |crds|, |p.discovered|, Conflicts(crds + p.discovered, |crds|)))
  {
    hide SyncDeployment, SyncService, SyncRoute, SyncStatus, Conflicts;
  }

  lemma CurrentUnfolds(o: Objects, p: Proxy, routeKind: bool, crds: seq<Upstream>)
    ensures RestCurrent(o, p, routeKind, crds) <==>
            o.deployment == Some(DesiredDeployment(p, crds + p.discovered)) && ServiceCurrent(o.service, p) &&
            RouteCurrent(o.route, p, routeKind) && StatusIsCurrent(o.status, p, crds)
  {
    hide DesiredDeployment, ServiceCurrent, RouteCurrent, StatusIsCurrent;
  }

  // ---------- A whole pass ----------

  lemma ReconcileUnfolds(w: World, st: State, p: Proxy)
    requires Listed(w.upstreams, p).Some? && ConfigOf(p, Ups(w, p)).Some?
    ensures var crds, config := Listed(w.upstreams, p).value, ConfigOf(p, Ups(w, p)).value;
            var copied := CopyAll(SyncConfig(st.config, p, config), Copies(p, Ups(w, p)));
            && Ups(w, p) == crds + p.discovered
            && ReconcileProxy(w, st, p) ==
               (if copied.Failed? then Failed(st.(config := copied.store))
                else SyncRest(st.(config := copied.store), p, w.routeKind, crds))
  {
    hide Listed, ConfigOf, CopyAll, SyncConfig, Copies, SyncRest;
  }

  lemma ReconcileFails(w: World, st: State, p: Proxy)
    requires Listed(w.upstreams, p).None? || ConfigOf(p, Ups(w, p)).None?
    ensures ReconcileProxy(w, st, p).Failed?
  {
    hide Listed, ConfigOf;
  }

  /** The names of the three ConfigMaps differ. */
  lemma OwnedDiffer(p: Proxy, q: Proxy)
    ensures ConfigMapOf(p) != SpecsMap(q) && ConfigMapOf(p) != OverlaysMap(q) && SpecsMap(p) != OverlaysMap(q)
    ensures KeyOf(p) != KeyOf(q) ==>
              ConfigMapOf(p) != ConfigMapOf(q) && SpecsMap(p) != SpecsMap(q) && OverlaysMap(p) != OverlaysMap(q)
  {
    SuffixesDiffer(p.name, q.name);
  }

  lemma SuffixesDiffer(a: string, b: string)
    ensures a + "-config" != b + "-specs" && a + "-config" != b + "-overlays" && a + "-specs" != b + "-overlays"
    ensures a != b ==>
              a + "-config" != b + "-config" && a + "-specs" != b + "-specs" && a + "-overlays" != b + "-overlays"
  {
    var c, s, t, v := a + "-config", a + "-specs", b + "-specs", b + "-overlays";
    assert c[|c| - 1] == 'g' && t[|t| - 1] == 's' && v[|v| - 1] == 's';
    assert s[|s| - 2] == 'c' && v[|v| - 2] == 'y';
    SameSuffix(a, b, "-config");
    SameSuffix(a, b, "-specs");
    SameSuffix(a, b, "-overlays");
  }

  lemma SameSuffix(a: string, b: string, suffix: string)
    ensures a + suffix == b + suffix ==> a == b
  {
    assert a == (a + suffix)[..|a|];
    assert b == (b + suffix)[..|b|];
  }

  predicate Owns(p: Proxy, k: Key) {
    k == ConfigMapOf(p) || k == SpecsMap(p) || k == OverlaysMap(p)
  }

  lemma {:induction false} CopiesInto(p: Proxy, ups: seq<Upstream>, i: nat)
    requires i < |Copies(p, ups)|
    ensures var c := Copies(p, ups)[i];
            && (c.dest == SpecsMap(p) || c.dest == OverlaysMap(p)) && c.dest != ConfigMapOf(p)
            && exists up :: up in ups && c in CopiesOf(p, up)
  {
    var n := |ups| - 1;
    var before := Copies(p, ups[..n]);
    OwnedDiffer(p, p);
    hide CopiesOf, SpecsMap, OverlaysMap, ConfigMapOf;
    if i < |before| {
      CopiesInto(p, ups[..n], i);
      var up :| up in ups[..n] && before[i] in CopiesOf(p, up);
      assert up in ups;
    } else {
      var c := Copies(p, ups)[i];
      assert c in CopiesOf(p, ups[n]);
      CopyInto(p, ups[n], c);
    }
  }

  lemma CopyInto(p: Proxy, up: Upstream, c: Copy)
    requires c in CopiesOf(p, up)
    ensures c.dest == SpecsMap(p) || c.dest == OverlaysMap(p)
    ensures c.file == FileKey(up)
  {
  }

  /** Sources are not maps that the proxy owns. */
  predicate SourcesApart(p: Proxy, cs: seq<Copy>) {
    forall i :: 0 <= i < |cs| ==> !Owns(p, cs[i].source)
  }

  lemma ApartFromSources(p: Proxy, ups: seq<Upstream>)
    requires SourcesApart(p, Copies(p, ups))
    ensures Apart(Copies(p, ups)) && !IsDest(Copies(p, ups), ConfigMapOf(p))
  {
    var cs := Copies(p, ups);
    forall j | 0 <= j < |cs| ensures Owns(p, cs[j].dest) && cs[j].dest != ConfigMapOf(p) {
      CopiesInto(p, ups, j);
    }
    hide Copies, ConfigMapOf, SpecsMap, OverlaysMap;
  }

  lemma MapsOnly(a: Store, b: Store, c: Copy)
    requires a.maps == b.maps
    ensures UpToDate(a, c) <==> UpToDate(b, c)
    ensures DataAt(a, c.dest) == DataAt(b, c.dest) && ValueOf(a, c) == ValueOf(b, c)
  {
  }

  /** A pass writes nothing if and only if everything is what it should be. */
  lemma SettledIff(w: World, st: State, p: Proxy)
    ensures ReconcileProxy(w, st, p) == Done(st) <==> Settled(w, st, p)
  {
    hide *;
    SettledUnfolds(w, st, p);
    if Listed(w.upstreams, p).None? || ConfigOf(p, Ups(w, p)).None? {
      ReconcileFails(w, st, p);
    } else {
      var crds, config := Listed(w.upstreams, p).value, ConfigOf(p, Ups(w, p)).value;
      var cs := Copies(p, Ups(w, p));
      var s1 := SyncConfig(st.config, p, config);
      var copied := CopyAll(s1, cs);
      var s2 := st.(config := copied.store);
      ReconcileUnfolds(w, st, p);
      SyncConfigFacts(st.config, p, config);
      CopyKeeps(s1, cs, ConfigMapOf(p));
      SyncRestFacts(s2, p, w.routeKind, crds);
      StepCounts(s2, SyncRest(s2, p, w.routeKind, crds).store, KeyOf(p));
      if FilesCurrent(w, st, p) {
        CopiesCurrent(w, st, p);
      }
      if ReconcileProxy(w, st, p) == Done(st) {
        FilesFromNothing(w, st, p);
      }
      assert copied.store == st.config ==> s2 == st;
    }
  }

  lemma SettledUnfolds(w: World, st: State, p: Proxy)
    ensures Settled(w, st, p) <==>
            && Listed(w.upstreams, p).Some? && ConfigOf(p, Ups(w, p)).Some?
            && DataAt(st.config, ConfigMapOf(p)) == map["config.yaml" := Rendered(ConfigOf(p, Ups(w, p)).value)]
            && RestCurrent(ObjectsAt(st, KeyOf(p)), p, w.routeKind, Listed(w.upstreams, p).value)
            && FilesCurrent(w, st, p)
  {
    hide Listed, ConfigOf, RestCurrent, FilesCurrent, ObjectsAt, DataAt;
  }

  lemma StepCounts(a: State, b: State, k: Key)
    requires Step(a, b, k)
    ensures b.config.maps == a.config.maps && (b == a || b.config.writes > a.config.writes)
  {
  }

  lemma CopiesCurrent(w: World, st: State, p: Proxy)
    requires FilesCurrent(w, st, p)
    ensures CopyAll(st.config, Copies(p, Ups(w, p))) == Done(st.config)
  {
    hide UpToDate, Copies, Ups, CopyAll;
    NothingToCopy(st.config, Copies(p, Ups(w, p)));
  }

  lemma FilesFromNothing(w: World, st: State, p: Proxy)
    requires CopyAll(st.config, Copies(p, Ups(w, p))) == Done(st.config)
    ensures FilesCurrent(w, st, p)
  {
    hide UpToDate, Copies, Ups, CopyAll;
    var cs := Copies(p, Ups(w, p));
    forall i | 0 <= i < |cs| ensures UpToDate(st.config, cs[i]) {
      NothingCopied(st.config, cs, i);
    }
  }

  lemma AgreeAcross(a: Store, b: Store, p: Proxy, cs: seq<Copy>)
    requires SourcesApart(p, cs)
    requires forall k :: k != ConfigMapOf(p) ==> (k in a.maps <==> k in b.maps) && DataAt(a, k) == DataAt(b, k)
    ensures Agree(a, cs) <==> Agree(b, cs)
    ensures forall i :: 0 <= i < |cs| ==> ValueOf(a, cs[i]) == ValueOf(b, cs[i])
  {
    forall i | 0 <= i < |cs| ensures ValueOf(a, cs[i]) == ValueOf(b, cs[i]) {
      assert !Owns(p, cs[i].source);
    }
    hide ValueOf, SameFile;
  }

  lemma AgreeIffAllUpToDate(s: Store, r: Store, cs: seq<Copy>)
    requires Apart(cs) && CopyAll(s, cs) == Done(r)
    ensures Agree(s, cs) <==> AllCurrent(r, cs)
  {
    hide CopyAll, Apart, Agree, UpToDate;
    SecondPassIff(s, cs);
    if forall i :: 0 <= i < |cs| ==> UpToDate(r, cs[i]) {
      NothingToCopy(r, cs);
    }
    if CopyAll(r, cs) == Done(r) {
      forall i | 0 <= i < |cs| ensures UpToDate(r, cs[i]) {
        NothingCopied(r, cs, i);
      }
    }
  }

  lemma AllCurrentAcross(a: Store, b: Store, cs: seq<Copy>)
    requires a.maps == b.maps
    ensures AllCurrent(a, cs) <==> AllCurrent(b, cs)
  {
    hide UpToDate;
    forall i | 0 <= i < |cs| ensures UpToDate(a, cs[i]) <==> UpToDate(b, cs[i]) {
      MapsOnly(a, b, cs[i]);
    }
  }

  lemma FilesAre(w: World, st: State, p: Proxy)
    ensures FilesCurrent(w, st, p) <==> AllCurrent(st.config, Copies(p, Ups(w, p)))
  {
    hide AllCurrent, Copies, Ups;
  }

  /** After a successful pass a second one writes nothing, if and only if upstreams with the
      same file have the same source value. */
  lemma ReconcileSettlesIff(w: World, st: State, p: Proxy)
    requires ReconcileProxy(w, st, p).Done? && SourcesApart(p, Copies(p, Ups(w, p)))
    ensures var r := ReconcileProxy(w, st, p).store;
            ReconcileProxy(w, r, p) == Done(r) <==> Agree(st.config, Copies(p, Ups(w, p)))
  {
    hide *;
    if Listed(w.upstreams, p).None? || ConfigOf(p, Ups(w, p)).None? {
      ReconcileFails(w, st, p);
      assert false;
    } else {
      var crds, config := Listed(w.upstreams, p).value, ConfigOf(p, Ups(w, p)).value;
      var cs := Copies(p, Ups(w, p));
      var s1 := SyncConfig(st.config, p, config);
      var copied := CopyAll(s1, cs);
      var s2 := st.(config := copied.store);
      ReconcileUnfolds(w, st, p);
      SyncConfigFacts(st.config, p, config);
      ApartFromSources(p, Ups(w, p));
      CopyKeeps(s1, cs, ConfigMapOf(p));
      SyncRestFacts(s2, p, w.routeKind, crds);
      var r := SyncRest(s2, p, w.routeKind, crds).store;
      StepCounts(s2, r, KeyOf(p));
      AgreeAcross(st.config, s1, p, cs);
      AgreeIffAllUpToDate(s1, copied.store, cs);
      AllCurrentAcross(copied.store, r.config, cs);
      FilesAre(w, r, p);
      SameDataAt(copied.store, r.config, ConfigMapOf(p));
      SettledUnfolds(w, r, p);
      SettledIff(w, r, p);
    }
  }

  lemma SameDataAt(a: Store, b: Store, k: Key)
    requires a.maps == b.maps
    ensures DataAt(a, k) == DataAt(b, k)
  {
  }

  /** Upstreams of one namespace and name are the same upstream, and namespaces have no
      underscore. */
  predicate Distinct(ups: seq<Upstream>) {
    && (forall up :: up in ups ==> '_' !in up.ns)
    && (forall a, b :: a in ups && b in ups && a.ns == b.ns && a.name == b.name ==> a == b)
  }

  /** For distinct upstreams every file has one value, so a second pass writes nothing. */
  lemma DistinctAgree(st: Store, p: Proxy, ups: seq<Upstream>)
    requires Distinct(ups)
    ensures Agree(st, Copies(p, ups))
  {
    var cs := Copies(p, ups);
    hide Copies, ValueOf, CopiesOf, FileKey;
    forall i, j | 0 <= i < |cs| && 0 <= j < |cs| && SameFile(cs[i], cs[j]) ensures cs[i] == cs[j] {
      CopiesInto(p, ups, i);
      CopiesInto(p, ups, j);
      var a :| a in ups && cs[i] in CopiesOf(p, a);
      var b :| b in ups && cs[j] in CopiesOf(p, b);
      CopyInto(p, a, cs[i]);
      CopyInto(p, b, cs[j]);
      FileKeyInjective(a, b);
      OneCopyEach(p, a, cs[i], cs[j]);
    }
  }

  lemma OneCopyEach(p: Proxy, up: Upstream, c: Copy, d: Copy)
    requires c in CopiesOf(p, up) && d in CopiesOf(p, up) && c.dest == d.dest
    ensures c == d
  {
    OwnedDiffer(p, p);
    hide SpecsMap, OverlaysMap, FileKey;
  }

  /** The fixpoint: with distinct upstreams, whose sources are not the proxy's own maps, a
      successful Reconcile followed by another on the same inputs writes nothing. */
  lemma ReconcileReachesFixpoint(w: World, st: State, p: Proxy)
    requires ReconcileProxy(w, st, p).Done? && SourcesApart(p, Copies(p, Ups(w, p))) && Distinct(Ups(w, p))
    ensures var r := ReconcileProxy(w, st, p).store;
            ReconcileProxy(w, r, p) == Done(r) && r.config.writes >= st.config.writes
  {
    hide *;
    DistinctAgree(st.config, p, Ups(w, p));
    ReconcileSettlesIff(w, st, p);
    WritesGrow(w, st, p);
  }

  lemma WritesGrow(w: World, st: State, p: Proxy)
    requires ReconcileProxy(w, st, p).Done?
    ensures var r := ReconcileProxy(w, st, p).store; r == st || r.config.writes > st.config.writes
  {
    hide *;
    if Listed(w.upstreams, p).None? || ConfigOf(p, Ups(w, p)).None? {
      ReconcileFails(w, st, p);
    } else {
      var crds, config := Listed(w.upstreams, p).value, ConfigOf(p, Ups(w, p)).value;
      var s1 := SyncConfig(st.config, p, config);
      var copied := CopyAll(s1, Copies(p, Ups(w, p)));
      var s2 := st.(config := copied.store);
      ReconcileUnfolds(w, st, p);
      SyncConfigFacts(st.config, p, config);
      CopyKeeps(s1, Copies(p, Ups(w, p)), ConfigMapOf(p));
      SyncRestFacts(s2, p, w.routeKind, crds);
      StepCounts(s2, SyncRest(s2, p, w.routeKind, crds).store, KeyOf(p));
    }
  }

  // ---------- Named files ----------

  lemma {:induction false} HasCopies(p: Proxy, ups: seq<Upstream>, up: Upstream, c: Copy)
    requires up in ups && c in CopiesOf(p, up)
    ensures c in Copies(p, ups)
  {
    var n := |ups| - 1;
    hide CopiesOf;
    assert ups == ups[..n] + [ups[n]];
    if up != ups[n] {
      HasCopies(p, ups[..n], up, c);
    }
  }

  /** When everything is settled, the file that the configuration names for an upstream's spec
      is in a mounted map, where it reads as the source's value. */
  lemma NamedSpecsHold(w: World, st: State, p: Proxy, i: nat)
    requires Settled(w, st, p) && i < |Ups(w, p)|
    requires !IsCommand(Ups(w, p)[i]) && Ups(w, p)[i].specRef.Some?
    ensures var up := Ups(w, p)[i];
            var source := (up.ns, up.specRef.value.name);
            && ConfigOf(p, Ups(w, p)).Some? && i < |ConfigOf(p, Ups(w, p)).value.upstreams|
            && var gen := ConfigOf(p, Ups(w, p)).value.upstreams[i];
               gen.HttpUpstream? && gen.openapi == SPECS_DIR + "/" + FileKey(up)
    ensures var up := Ups(w, p)[i];
            var source := (up.ns, up.specRef.value.name);
            && source in st.config.maps && up.specRef.value.key in st.config.maps[source]
            && SpecsMap(p) in st.config.maps
            && Lookup(st.config.maps[SpecsMap(p)], FileKey(up)) == st.config.maps[source][up.specRef.value.key]
    ensures KeyOf(p) in st.deployments
            && ("upstream-specs", p.name + "-specs") in st.deployments[KeyOf(p)].volumes
            && ("upstream-specs", SPECS_DIR) in st.deployments[KeyOf(p)].mounts
  {
    var ups := Ups(w, p);
    var up := ups[i];
    SettledUnfolds(w, st, p);
    assert NeedsSpecs(ups);
    SpecsMounted(w, st, p);
    BuiltAt(ups, i);
    var c := Copy((up.ns, up.specRef.value.name), up.specRef.value.key, SpecsMap(p), FileKey(up));
    assert c in CopiesOf(p, up);
    hide Ups, Copies, CopiesOf, FileKey, Settled, RestCurrent, BuildAll;
    HasCopies(p, ups, up, c);
    var j :| 0 <= j < |Copies(p, ups)| && Copies(p, ups)[j] == c;
    assert UpToDate(st.config, c);
  }

  lemma SpecsMounted(w: World, st: State, p: Proxy)
    requires Listed(w.upstreams, p).Some?
    requires RestCurrent(ObjectsAt(st, KeyOf(p)), p, w.routeKind, Listed(w.upstreams, p).value)
    requires NeedsSpecs(Ups(w, p))
    ensures KeyOf(p) in st.deployments
            && ("upstream-specs", p.name + "-specs") in st.deployments[KeyOf(p)].volumes
            && ("upstream-specs", SPECS_DIR) in st.deployments[KeyOf(p)].mounts
  {
    hide Listed, NeedsSpecs, NeedsOverlays, ServiceCurrent, RouteCurrent, StatusIsCurrent;
    var ups := Listed(w.upstreams, p).value + p.discovered;
    var d := DesiredDeployment(p, ups);
    assert d.volumes[1] == ("upstream-specs", p.name + "-specs");
    assert d.mounts[1] == ("upstream-specs", SPECS_DIR);
  }

  /** The same of overlays. */
  lemma NamedOverlaysHold(w: World, st: State, p: Proxy, i: nat)
    requires Settled(w, st, p) && i < |Ups(w, p)|
    requires !IsCommand(Ups(w, p)[i]) && Ups(w, p)[i].overlayRef.Some?
    ensures var up := Ups(w, p)[i];
            && ConfigOf(p, Ups(w, p)).Some? && i < |ConfigOf(p, Ups(w, p)).value.upstreams|
            && var gen := ConfigOf(p, Ups(w, p)).value.upstreams[i];
               gen.HttpUpstream? && gen.overlay == Some(OVERLAYS_DIR + "/" + FileKey(up))
    ensures var up := Ups(w, p)[i];
            var source := (up.ns, up.overlayRef.value.name);
            && source in st.config.maps && up.overlayRef.value.key in st.config.maps[source]
            && OverlaysMap(p) in st.config.maps
            && Lookup(st.config.maps[OverlaysMap(p)], FileKey(up)) == st.config.maps[source][up.overlayRef.value.key]
    ensures KeyOf(p) in st.deployments
            && ("upstream-overlays", p.name + "-overlays") in st.deployments[KeyOf(p)].volumes
            && ("upstream-overlays", OVERLAYS_DIR) in st.deployments[KeyOf(p)].mounts
  {
    var ups := Ups(w, p);
    var up := ups[i];
    SettledUnfolds(w, st, p);
    assert NeedsOverlays(ups);
    OverlaysMounted(w, st, p);
    BuiltAt(ups, i);
    var c := Copy((up.ns, up.overlayRef.value.name), up.overlayRef.value.key, OverlaysMap(p), FileKey(up));
    assert c in CopiesOf(p, up);
    hide Ups, Copies, CopiesOf, FileKey, Settled, RestCurrent, BuildAll;
    HasCopies(p, ups, up, c);
    var j :| 0 <= j < |Copies(p, ups)| && Copies(p, ups)[j] == c;
    assert UpToDate(st.config, c);
  }

  lemma OverlaysMounted(w: World, st: State, p: Proxy)
    requires Listed(w.upstreams, p).Some?
    requires RestCurrent(ObjectsAt(st, KeyOf(p)), p, w.routeKind, Listed(w.upstreams, p).value)
    requires NeedsOverlays(Ups(w, p))
    ensures KeyOf(p) in st.deployments
            && ("upstream-overlays", p.name + "-overlays") in st.deployments[KeyOf(p)].volumes
            && ("upstream-overlays", OVERLAYS_DIR) in st.deployments[KeyOf(p)].mounts
  {
    hide Listed, NeedsSpecs, NeedsOverlays, ServiceCurrent, RouteCurrent, StatusIsCurrent;
    var ups := Listed(w.upstreams, p).value + p.discovered;
    var d := DesiredDeployment(p, ups);
    assert d.volumes[|d.volumes| - 1] == ("upstream-overlays", p.name + "-overlays");
    assert d.mounts[|d.mounts| - 1] == ("upstream-overlays", OVERLAYS_DIR);
  }

  // ---------- Whole runs ----------

  /** What a pass for one proxy leaves alone: objects of other names, and maps it does not own. */
  ghost predicate LeavesOthers(st: State, r: State, p: Proxy) {
    && (forall k :: k != KeyOf(p) ==> ObjectsAt(r, k) == ObjectsAt(st, k))
    && (forall k :: !Owns(p, k) ==>
        (k in r.config.maps <==> k in st.config.maps) && DataAt(r.config, k) == DataAt(st.config, k))
  }

  lemma ReconcileFrame(w: World, st: State, p: Proxy)
    ensures LeavesOthers(st, ReconcileProxy(w, st, p).store, p)
  {
    hide *;
    if Listed(w.upstreams, p).None? || ConfigOf(p, Ups(w, p)).None? {
      FailureFrame(w, st, p);
    } else {
      var crds, config := Listed(w.upstreams, p).value, ConfigOf(p, Ups(w, p)).value;
      var s1 := SyncConfig(st.config, p, config);
      var copied := CopyAll(s1, Copies(p, Ups(w, p)));
      var s2 := st.(config := copied.store);
      ReconcileUnfolds(w, st, p);
      SyncConfigFacts(st.config, p, config);
      CopiesFrame(s1, p, Ups(w, p));
      SyncRestFacts(s2, p, w.routeKind, crds);
      FrameOf(st, s1, s2, p);
      FrameStep(st, s2, SyncRest(s2, p, w.routeKind, crds).store, p);
    }
  }

  lemma FailureFrame(w: World, st: State, p: Proxy)
    requires Listed(w.upstreams, p).None? || ConfigOf(p, Ups(w, p)).None?
    ensures LeavesOthers(st, ReconcileProxy(w, st, p).store, p)
  {
    hide Listed, ConfigOf;
  }

  lemma CopiesFrame(s: Store, p: Proxy, ups: seq<Upstream>)
    ensures var r := CopyAll(s, Copies(p, ups)).store;
            forall k :: !Owns(p, k) ==> (k in r.maps <==> k in s.maps) && DataAt(r, k) == DataAt(s, k)
  {
    var cs := Copies(p, ups);
    hide Copies, CopyAll, DataAt;
    forall k | !Owns(p, k)
      ensures (k in CopyAll(s, cs).store.maps <==> k in s.maps) && DataAt(CopyAll(s, cs).store, k) == DataAt(s, k)
    {
      forall i | 0 <= i < |cs| ensures cs[i].dest != k {
        CopiesInto(p, ups, i);
      }
      CopyKeeps(s, cs, k);
    }
  }

  lemma FrameOf(st: State, s1: Store, s2: State, p: Proxy)
    requires s2 == st.(config := s2.config)
    requires forall k :: k != ConfigMapOf(p) ==>
               (k in s1.maps <==> k in st.config.maps) && DataAt(s1, k) == DataAt(st.config, k)
    requires forall k :: !Owns(p, k) ==>
               (k in s2.config.maps <==> k in s1.maps) && DataAt(s2.config, k) == DataAt(s1, k)
    ensures LeavesOthers(st, s2, p)
  {
    hide DataAt;
  }

  lemma FrameStep(st: State, s2: State, r: State, p: Proxy)
    requires LeavesOthers(st, s2, p) && Step(s2, r, KeyOf(p))
    ensures LeavesOthers(st, r, p)
  {
    hide ObjectsAt, Owns;
  }

  /** A cluster whose proxies are stored under their own names, and where no proxy copies from
      a map that some proxy owns. */
  ghost predicate Separate(w: World) {
    && (forall k :: k in w.proxies ==> KeyOf(w.proxies[k]) == k)
    && (forall j, k, i :: j in w.proxies && k in w.proxies && 0 <= i < |Copies(w.proxies[j], Ups(w, w.proxies[j]))| ==>
          !Owns(w.proxies[k], Copies(w.proxies[j], Ups(w, w.proxies[j]))[i].source))
  }

  /** Reconciling one proxy does not unsettle another. */
  lemma OthersStaySettled(w: World, st: State, r: State, p: Proxy, q: Proxy)
    requires Settled(w, st, p) && LeavesOthers(st, r, q) && KeyOf(p) != KeyOf(q)
    requires forall i :: 0 <= i < |Copies(p, Ups(w, p))| ==> !Owns(q, Copies(p, Ups(w, p))[i].source)
    ensures Settled(w, r, p)
  {
    NotOwned(p, q);
    hide Copies, Ups, Listed, ConfigOf, RestCurrent, ConfigMapOf, SpecsMap, OverlaysMap, ObjectsAt, Owns;
    var cs := Copies(p, Ups(w, p));
    forall i | 0 <= i < |cs| ensures UpToDate(r.config, cs[i]) {
      CopiesInto(p, Ups(w, p), i);
      assert UpToDate(st.config, cs[i]);
    }
  }

  lemma NotOwned(p: Proxy, q: Proxy)
    requires KeyOf(p) != KeyOf(q)
    ensures !Owns(q, ConfigMapOf(p)) && !Owns(q, SpecsMap(p)) && !Owns(q, OverlaysMap(p))
  {
    OwnedDiffer(p, q);
    OwnedDiffer(q, p);
    hide ConfigMapOf, SpecsMap, OverlaysMap;
  }

  /** A run of requests, whether they succeed or not. */
  function Requests(w: World, st: State, ks: seq<Key>): State {
    if ks == [] then st else ReconcileKey(w, Requests(w, st, ks[..|ks| - 1]), ks[|ks| - 1]).store
  }

  lemma {:induction false} StaysSettled(w: World, st: State, ks: seq<Key>, k: Key)
    requires Separate(w) && k in w.proxies && Settled(w, st, w.proxies[k])
    ensures Settled(w, Requests(w, st, ks), w.proxies[k])
  {
    if ks != [] {
      var last := ks[|ks| - 1];
      var s := Requests(w, st, ks[..|ks| - 1]);
      StaysSettled(w, st, ks[..|ks| - 1], k);
      hide Settled, ReconcileProxy, LeavesOthers, Owns, Copies, Ups, Requests;
      if last in w.proxies {
        if last == k {
          SettledIff(w, s, w.proxies[k]);
        } else {
          ReconcileFrame(w, s, w.proxies[last]);
          OthersStaySettled(w, s, ReconcileProxy(w, s, w.proxies[last]).store, w.proxies[k], w.proxies[last]);
        }
      }
      assert Requests(w, st, ks) == ReconcileKey(w, s, last).store by {
        RequestsLast(w, st, ks);
      }
    }
  }

  lemma RequestsLast(w: World, st: State, ks: seq<Key>)
    requires ks != []
    ensures Requests(w, st, ks) == ReconcileKey(w, Requests(w, st, ks[..|ks| - 1]), ks[|ks| - 1]).store
  {
    hide ReconcileKey;
  }

  /** In any run, once a proxy with distinct upstreams has been reconciled successfully, no
      later request for it writes anything, whatever requests for other proxies come between. */
  lemma NeverWritesAgain(w: World, st: State, k: Key, later: seq<Key>)
    requires Separate(w) && k in w.proxies && Distinct(Ups(w, w.proxies[k])) && ReconcileKey(w, st, k).Done?
    ensures var r := Requests(w, ReconcileKey(w, st, k).store, later);
            ReconcileKey(w, r, k) == Done(r)
  {
    var p := w.proxies[k];
    var cs := Copies(p, Ups(w, p));
    forall i | 0 <= i < |cs| ensures !Owns(p, cs[i].source) {
    }
    hide Settled, ReconcileProxy, Copies, Ups, Requests, Distinct, Owns;
    var s := ReconcileProxy(w, st, p).store;
    ReconcileReachesFixpoint(w, st, p);
    SettledIff(w, s, p);
    StaysSettled(w, s, later, k);
    SettledIff(w, Requests(w, s, later), p);
  }
}
