/** What a reconciliation leaves in the cluster when it fails, and what a successful one leaves
    alone (pkg/operator/controller/mcpproxy_controller.go:56-133, 466-528). */
module PassOutcomes {
  import opened Json
  import opened ConfigGen
  import opened UpstreamWatch
  import opened ConfigMapSync
  import opened Operator
  import opened ProxyObjects

  /** A command upstream has commands; another one an address and a place for its spec. */
  predicate CanBeBuilt(up: Upstream) {
    if up.kind == "command" then up.commands != []
    else
      && (up.serviceRef.Some? || up.baseUrl != "")
      && (up.specRef.Some? || up.specUrl != "" || up.autoDiscover.Some?)
  }

  lemma BuiltIff(up: Upstream)
    ensures BuildUpstream(up).Some? <==> CanBeBuilt(up)
  {
  }

  lemma {:induction false} AllBuiltIff(ups: seq<Upstream>)
    ensures BuildAll(ups).Some? <==> forall i :: 0 <= i < |ups| ==> CanBeBuilt(ups[i])
  {
    if ups != [] {
      var init, last := ups[..|ups| - 1], ups[|ups| - 1];
      AllBuiltIff(init);
      BuiltIff(last);
      hide BuildUpstream, CanBeBuilt;
      assert ups == init + [last];
    }
  }

  /** A configuration is generated exactly if every upstream can be built. */
  lemma ConfigIff(p: Proxy, ups: seq<Upstream>)
    ensures ConfigOf(p, ups).Some? <==> forall i :: 0 <= i < |ups| ==> CanBeBuilt(ups[i])
  {
    AllBuiltIff(ups);
    hide BuildAll, CanBeBuilt;
  }

  /** Only the reconciled condition of the proxy's status is new: it does not hold any more. */
  ghost predicate RecordsFailure(r: State, st: State, p: Proxy) {
    var k := (p.ns, p.name);
    && r.config.maps == st.config.maps && r.deployments == st.deployments && r.services == st.services
    && r.routes == st.routes && k in r.statuses && r.statuses == st.statuses[k := r.statuses[k]]
    && r.statuses[k].reconciled.Some? && !r.statuses[k].reconciled.value.holds
    && r.statuses[k].reconciled.value.generation == p.generation
    && (k in st.statuses ==> r.statuses[k] == st.statuses[k].(reconciled := r.statuses[k].reconciled))
  }

  /** A source of a file is missing: no object but ConfigMaps is written. */
  predicate StopsAtFiles(r: State, st: State) {
    r.deployments == st.deployments && r.services == st.services && r.routes == st.routes && r.statuses == st.statuses
  }

  /** Routes are wanted but unknown to the cluster: Deployment and Service are written. */
  predicate StopsAtRoute(r: State, st: State, p: Proxy, ups: seq<Upstream>) {
    var k := (p.ns, p.name);
    && k in r.deployments && r.deployments == st.deployments[k := r.deployments[k]] && Runs(r.deployments[k], p, ups)
    && k in r.services && r.services == st.services[k := r.services[k]] && Forwards(r.services[k], p)
    && r.routes == st.routes && r.statuses == st.statuses
  }

  lemma StopsAfterConfig(w: World, st: State, p: Proxy)
    requires ReconcileProxy(w, st, p).Failed? && Listed(w.upstreams, p).Some? && ConfigOf(p, Ups(w, p)).Some?
    ensures var r := ReconcileProxy(w, st, p).store;
            || StopsAtFiles(r, st)
            || (p.gatewayRef.Some? && !w.routeKind && StopsAtRoute(r, st, p, Ups(w, p)))
  {
    ReconcileUnfolds(w, st, p);
    var crds, config := Listed(w.upstreams, p).value, ConfigOf(p, Ups(w, p)).value;
    var copied := CopyAll(SyncConfig(st.config, p, config), Copies(p, Ups(w, p)));
    var s := st.(config := copied.store);
    hide ReconcileProxy, Listed, ConfigOf, CopyAll, Copies, SyncConfig, Ups, StopsAtRoute;
    if copied.Done? {
      RestStops(s, st, p, w.routeKind, crds);
    }
  }

  lemma RestStops(s: State, st: State, p: Proxy, routeKind: bool, crds: seq<Upstream>)
    requires s == st.(config := s.config) && SyncRest(s, p, routeKind, crds).Failed?
    ensures p.gatewayRef.Some? && !routeKind
    ensures StopsAtRoute(SyncRest(s, p, routeKind, crds).store, st, p, crds + p.discovered)
  {
    var ups := crds + p.discovered;
    RestUnfolds(s, p, routeKind, crds);
    DeploymentRuns(p, ups);
    hide DesiredDeployment, Runs, SyncRest, SyncStatus, Conflicts;
    var s1 := SyncDeployment(s, p, ups);
    assert s1.deployments == st.deployments[KeyOf(p) := DesiredDeployment(p, ups)];
    hide SyncDeployment;
    var s2 := SyncService(s1, p);
    assert KeyOf(p) in s2.services && Forwards(s2.services[KeyOf(p)], p);
    assert s2.services == s1.services[KeyOf(p) := s2.services[KeyOf(p)]];
  }

  /** A pass that fails over the selector changes nothing; over an upstream that cannot be
      built, it takes back the status; later on it leaves the status as it was. */
  lemma FailedPassLeaves(w: World, st: State, p: Proxy)
    requires ReconcileProxy(w, st, p).Failed?
    ensures var r, listed := ReconcileProxy(w, st, p).store, Listed(w.upstreams, p);
            && (listed.None? ==> r == st)
            && (listed.Some? ==>
                  var ups := listed.value + p.discovered;
                  if exists i :: 0 <= i < |ups| && !CanBeBuilt(ups[i]) then RecordsFailure(r, st, p)
                  else StopsAtFiles(r, st) || (p.gatewayRef.Some? && !w.routeKind && StopsAtRoute(r, st, p, ups)))
  {
    if Listed(w.upstreams, p).Some? {
      var ups := Listed(w.upstreams, p).value + p.discovered;
      ConfigIff(p, ups);
      if ConfigOf(p, ups).Some? {
        hide *;
        UpsAre(w, p);
        StopsAfterConfig(w, st, p);
      } else {
        assert ReconcileProxy(w, st, p).store == RecordFailure(st, p);
        hide Listed, ConfigOf, CanBeBuilt, ReconcileProxy;
      }
    }
  }

  lemma UpsAre(w: World, p: Proxy)
    requires Listed(w.upstreams, p).Some?
    ensures Ups(w, p) == Listed(w.upstreams, p).value + p.discovered
  {
    hide Listed;
  }

  /** What a Service has besides ports and selector outlives every pass; a proxy that is gone
      is left alone. */
  lemma PassKeepsOther(w: World, st: State, p: Proxy)
    requires ReconcileProxy(w, st, p).Done?
    ensures var r, k := ReconcileProxy(w, st, p).store, (p.ns, p.name);
            k in r.services && r.services[k].other == if k in st.services then st.services[k].other else ""
    ensures forall k :: k !in w.proxies ==> ReconcileKey(w, st, k) == Done(st)
  {
    if Listed(w.upstreams, p).Some? && ConfigOf(p, Ups(w, p)).Some? {
      ReconcileUnfolds(w, st, p);
      var crds, config := Listed(w.upstreams, p).value, ConfigOf(p, Ups(w, p)).value;
      var copied := CopyAll(SyncConfig(st.config, p, config), Copies(p, Ups(w, p)));
      var s := st.(config := copied.store);
      hide ReconcileProxy, Listed, ConfigOf, CopyAll, Copies, SyncConfig, Ups;
      RestKeepsOther(s, p, w.routeKind, crds);
    } else {
      ReconcileFails(w, st, p);
      assert false;
    }
  }

  lemma RestKeepsOther(s: State, p: Proxy, routeKind: bool, crds: seq<Upstream>)
    ensures var r, k := SyncRest(s, p, routeKind, crds).store, (p.ns, p.name);
            k in r.services && r.services[k].other == if k in s.services then s.services[k].other else ""
  {
    RestUnfolds(s, p, routeKind, crds);
    var s1 := SyncDeployment(s, p, crds + p.discovered);
    var s2 := SyncService(s1, p);
    var s3 := SyncRoute(s2, p, routeKind).store;
    hide *;
    OthersServices(s, s2, s3, p, routeKind, crds);
    ServiceKeepsOther(s1, p);
  }

  lemma ServiceKeepsOther(s: State, p: Proxy)
    ensures var r, k := SyncService(s, p), (p.ns, p.name);
            k in r.services && r.services[k].other == if k in s.services then s.services[k].other else ""
  {
  }

  lemma OthersServices(s: State, s2: State, s3: State, p: Proxy, routeKind: bool, crds: seq<Upstream>)
    requires s3 == SyncRoute(s2, p, routeKind).store
    ensures SyncDeployment(s, p, crds + p.discovered).services == s.services && s3.services == s2.services
    ensures SyncStatus(s3, p, |crds|, |p.discovered|, Conflicts(crds + p.discovered, |crds|)).services == s3.services
  {
    hide DesiredDeployment, Conflicts, StatusCurrent, NewStatus, DesiredRoute;
  }
}
