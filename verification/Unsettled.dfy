/** Annotated Services as upstreams (pkg/operator/controller/annotations.go), and exactly when
    a proxy that has them beside MCPUpstreams is written on every reconciliation for ever
    (pkg/operator/controller/mcpproxy_controller.go). */
module Unsettled {
  import opened Json
  import opened ConfigGen
  import opened UpstreamWatch
  import opened ConfigMapSync
  import opened Operator

  // ---------- Annotated Services ----------

  /** A Service; `port` is what its port annotation or its first port gives, if that can be
      read. */
  datatype Annotated = Annotated(ns: string, name: string, annotations: map<string, string>, port: Option<nat>)

  function Annotation(svc: Annotated, key: string): string {
    if key in svc.annotations then svc.annotations[key] else ""
  }

  /** The text before and after the first colon, if both are there. */
  function ParseRef(value: string): (r: Option<Ref>)
    ensures r.Some? ==> value == r.value.name + ":" + r.value.key && ':' !in r.value.name
    ensures r.Some? ==> r.value.name != "" && r.value.key != ""
  {
    var i := FirstColon(value);
    if i == |value| || i == 0 || i + 1 == |value| then None
    else Some(Ref(value[..i], value[i + 1..]))
  }

  function FirstColon(s: string): (i: nat)
    ensures i <= |s| && ':' !in s[..i] && (i < |s| ==> s[i] == ':')
  {
    if s == "" || s[0] == ':' then 0
    else
      var i := FirstColon(s[1..]) + 1;
      assert s[..i] == [s[0]] + s[1..][..i - 1];
      i
  }

  /** A reference is read back from its text if its name has no colon and neither part is
      empty. */
  lemma RefReadsBack(name: string, key: string)
    requires ':' !in name && name != "" && key != ""
    ensures ParseRef(name + ":" + key) == Some(Ref(name, key))
  {
    var value := name + ":" + key;
    var i := FirstColon(value);
    assert value[|name|] == ':';
    assert forall a :: 0 <= a < |name| ==> value[a] == name[a] && name[a] in name;
    assert forall a :: 0 <= a < i ==> value[..i][a] == value[a] && value[a] in value[..i];
    assert i == |name|;
    assert value[..|name|] == name && value[|name| + 1..] == key;
  }

  /** The upstream a Service stands for: it needs a prefix, a port and exactly one source of
      its spec, and references must be readable. */
  function ToUpstream(svc: Annotated): Option<Upstream> {
    var toolPrefix := Annotation(svc, "mcp-auto.ai/tool-prefix");
    var url := Annotation(svc, "mcp-auto.ai/openapi-url");
    var spec := Annotation(svc, "mcp-auto.ai/openapi-configmap");
    var path := Annotation(svc, "mcp-auto.ai/openapi-path");
    var overlay := Annotation(svc, "mcp-auto.ai/overlay-configmap");
    var strategy := Annotation(svc, "mcp-auto.ai/auth-strategy");
    var sources := (if url != "" then 1 else 0) + (if spec != "" then 1 else 0) + (if path != "" then 1 else 0);
    if toolPrefix == "" || svc.port.None? || sources != 1 then None
    else if spec != "" && ParseRef(spec).None? then None
    else if overlay != "" && ParseRef(overlay).None? then None
    else
      Some(Upstream(svc.ns, svc.name, map[], toolPrefix, "", None,
                    "http://" + svc.name + "." + svc.ns + ".svc.cluster.local:" + Decimal(svc.port.value) +
                    Annotation(svc, "mcp-auto.ai/base-path"),
                    if spec != "" then ParseRef(spec) else None, url,
                    if path != "" then Some(path) else None,
                    if overlay != "" then ParseRef(overlay) else None, [],
                    if strategy == "" || strategy == "none" then ""
                    else strategy + ":" + Annotation(svc, "mcp-auto.ai/auth-secret")))
  }

  // ---------- Exactly when a pass succeeds ----------

  predicate AllAvailable(st: Store, cs: seq<Copy>) {
    forall i :: 0 <= i < |cs| ==> Available(st, cs[i])
  }

  lemma {:induction false} CopyDoneIff(st: Store, cs: seq<Copy>)
    requires Apart(cs)
    ensures CopyAll(st, cs).Done? <==> AllAvailable(st, cs)
  {
    if cs != [] {
      var n := |cs| - 1;
      SourceApart(cs, n);
      CopyDoneIff(st, cs[..n]);
      ApartKept(st, cs, n, cs[n]);
      hide Available;
    }
  }

  lemma RouteDoneIff(st: State, p: Proxy, routeKind: bool, crds: seq<Upstream>)
    ensures SyncRest(st, p, routeKind, crds).Done? <==> (p.gatewayRef.Some? ==> routeKind)
  {
    RestUnfolds(st, p, routeKind, crds);
    hide SyncRest, SyncDeployment, SyncService, SyncStatus;
  }

  /** A pass succeeds if and only if the selector is valid, every upstream can be configured,
      every source is there, and HTTPRoutes are known if one is asked for. */
  lemma DoneIff(w: World, st: State, p: Proxy)
    requires SourcesApart(p, Copies(p, Ups(w, p)))
    ensures ReconcileProxy(w, st, p).Done? <==>
            && Listed(w.upstreams, p).Some? && ConfigOf(p, Ups(w, p)).Some?
            && AllAvailable(st.config, Copies(p, Ups(w, p)))
            && (p.gatewayRef.Some? ==> w.routeKind)
  {
    hide *;
    if Listed(w.upstreams, p).None? || ConfigOf(p, Ups(w, p)).None? {
      ReconcileFails(w, st, p);
    } else {
      var crds, config := Listed(w.upstreams, p).value, ConfigOf(p, Ups(w, p)).value;
      var cs := Copies(p, Ups(w, p));
      var s1 := SyncConfig(st.config, p, config);
      ReconcileUnfolds(w, st, p);
      SyncConfigFacts(st.config, p, config);
      ApartFromSources(p, Ups(w, p));
      OwnsItsConfig(p);
      SourcesSame(st.config, s1, p, cs);
      CopyDoneIff(s1, cs);
      RouteDoneIff(st.(config := CopyAll(s1, cs).store), p, w.routeKind, crds);
    }
  }

  lemma OwnsItsConfig(p: Proxy)
    ensures Owns(p, ConfigMapOf(p))
  {
  }

  lemma SourcesSame(a: Store, b: Store, p: Proxy, cs: seq<Copy>)
    requires SourcesApart(p, cs)
    requires forall k :: !Owns(p, k) ==> (k in a.maps <==> k in b.maps) && DataAt(a, k) == DataAt(b, k)
    ensures AllAvailable(a, cs) <==> AllAvailable(b, cs)
    ensures Agree(a, cs) <==> Agree(b, cs)
  {
    forall i | 0 <= i < |cs|
      ensures (Available(a, cs[i]) <==> Available(b, cs[i])) && ValueOf(a, cs[i]) == ValueOf(b, cs[i])
    {
      assert !Owns(p, cs[i].source);
    }
    hide Available, ValueOf, SameFile;
  }

  // ---------- Writing for ever, or never again ----------

  /** A successful pass over copies that disagree writes something. */
  lemma DisagreeingPassWrites(w: World, st: State, p: Proxy)
    requires ReconcileProxy(w, st, p).Done? && !Agree(st.config, Copies(p, Ups(w, p)))
    ensures ReconcileProxy(w, st, p).store.config.writes > st.config.writes
  {
    hide *;
    WritesGrow(w, st, p);
    if ReconcileProxy(w, st, p).store == st {
      SettledIff(w, st, p);
      SettledUnfolds(w, st, p);
      FilesAre(w, st, p);
      CurrentAgree(st.config, Copies(p, Ups(w, p)));
    }
  }

  lemma CurrentAgree(st: Store, cs: seq<Copy>)
    requires AllCurrent(st, cs)
    ensures Agree(st, cs)
  {
    hide UpToDate, ValueOf;
    AgreeFromLookups(st, st, cs);
  }

  /** No request of a run changes a source. */
  lemma {:induction false} SourcesStay(w: World, st: State, ks: seq<Key>, k: Key)
    requires Separate(w) && k in w.proxies
    ensures var cs, r := Copies(w.proxies[k], Ups(w, w.proxies[k])), Requests(w, st, ks);
            && (AllAvailable(r.config, cs) <==> AllAvailable(st.config, cs))
            && (Agree(r.config, cs) <==> Agree(st.config, cs))
  {
    if ks != [] {
      var last := ks[|ks| - 1];
      var s := Requests(w, st, ks[..|ks| - 1]);
      SourcesStay(w, st, ks[..|ks| - 1], k);
      RequestsLast(w, st, ks);
      var p := w.proxies[k];
      var cs := Copies(p, Ups(w, p));
      if last in w.proxies {
        var q := w.proxies[last];
        assert SourcesApart(q, cs);
        ReconcileFrame(w, s, q);
        hide Requests, ReconcileProxy, Copies, Ups, Owns, Agree, AllAvailable, SourcesApart, DataAt;
        SourcesSame(s.config, ReconcileProxy(w, s, q).store.config, q, cs);
      }
    }
  }

  /** In any run, after a proxy has been reconciled successfully once, all later requests for
      it succeed, whatever comes between. If upstreams with the same file have the same source
      value none of them writes anything, and if not every one of them writes. */
  lemma WritesForeverOrNever(w: World, st: State, k: Key, later: seq<Key>)
    requires Separate(w) && k in w.proxies && ReconcileKey(w, st, k).Done?
    ensures var p := w.proxies[k];
            var r := Requests(w, ReconcileKey(w, st, k).store, later);
            && ReconcileKey(w, r, k).Done?
            && (Agree(st.config, Copies(p, Ups(w, p))) ==> ReconcileKey(w, r, k) == Done(r))
            && (!Agree(st.config, Copies(p, Ups(w, p))) ==> ReconcileKey(w, r, k).store.config.writes > r.config.writes)
  {
    var p := w.proxies[k];
    var cs := Copies(p, Ups(w, p));
    assert SourcesApart(p, cs);
    var s := ReconcileKey(w, st, k).store;
    var r := Requests(w, s, later);
    assert s == Requests(w, st, [k]) by {
      assert [k][..0] == [];
      RequestsLast(w, st, [k]);
    }
    hide Requests, ReconcileProxy, Copies, Ups, Owns, Agree, AllAvailable, SourcesApart, Settled, Separate, ConfigOf,
         Listed;
    SourcesStay(w, st, [k], k);
    SourcesStay(w, s, later, k);
    DoneIff(w, st, p);
    DoneIff(w, r, p);
    if Agree(st.config, cs) {
      ReconcileSettlesIff(w, st, p);
      SettledIff(w, s, p);
      StaysSettled(w, s, later, k);
      SettledIff(w, r, p);
    } else {
      DisagreeingPassWrites(w, r, p);
    }
  }

  /** Two upstreams of one namespace and name whose specs come from sources that differ, an
      MCPUpstream and an annotated Service say, disagree. */
  lemma TwoSourcesDisagree(st: Store, p: Proxy, ups: seq<Upstream>, a: Upstream, b: Upstream)
    requires a in ups && b in ups && a.ns == b.ns && a.name == b.name && !IsCommand(a) && !IsCommand(b)
    requires a.specRef.Some? && b.specRef.Some?
    requires ValueOf(st, SpecCopies(p, a)[0]) != ValueOf(st, SpecCopies(p, b)[0])
    ensures !Agree(st, Copies(p, ups))
  {
    var c, d := SpecCopies(p, a)[0], SpecCopies(p, b)[0];
    assert c in CopiesOf(p, a) && d in CopiesOf(p, b);
    HasCopies(p, ups, a, c);
    HasCopies(p, ups, b, d);
    var cs := Copies(p, ups);
    var i :| 0 <= i < |cs| && cs[i] == c;
    var j :| 0 <= j < |cs| && cs[j] == d;
    assert SameFile(cs[i], cs[j]);
  }

  // ---------- A cluster that never settles ----------

  /** A Service `pets` whose annotations name its prefix and a ConfigMap with its spec. */
  function PetsService(): Annotated {
    Annotated("team", "pets", map["mcp-auto.ai/tool-prefix" := "s", "mcp-auto.ai/openapi-configmap" := "b:k"], Some(80))
  }

  /** An MCPUpstream of the same namespace and name with another ConfigMap. */
  function PetsUpstream(): Upstream {
    Upstream("team", "pets", map[], "c", "", None, "http://pets", Some(Ref("a", "k")), "", None, None, [], "")
  }

  function PetsProxy(svc: Upstream): Proxy {
    Proxy("team", "gw", 1, [], [], [svc], 0, "", None, "",
          ProxySettings(Naming("_", 60, "error"), map[], "", None), None)
  }

  function PetsState(v1: string, v2: string): State {
    var maps := map[("team", "a") := map["k" := Text(v1)], ("team", "b") := map["k" := Text(v2)]];
    State(Store(maps, 0), map[], map[], map[], map[])
  }

  function PetsWorld(svc: Upstream): World {
    World(map[("team", "gw") := PetsProxy(svc)], [PetsUpstream()], false)
  }

  /** What matters here of the upstream that the Service stands for. */
  ghost predicate LikePets(svc: Upstream) {
    && svc.ns == "team" && svc.name == "pets" && !IsCommand(svc) && BuildUpstream(svc).Some?
    && svc.specRef == Some(Ref("b", "k")) && svc.overlayRef == None
  }

  lemma PetsAnnotations()
    ensures ToUpstream(PetsService()).Some? && LikePets(ToUpstream(PetsService()).value)
  {
    assert "b:k" == "b" + ":" + "k";
    RefReadsBack("b", "k");
  }

  function PetsCopy(source: string): Copy {
    Copy(("team", source), "k", ("team", "gw-specs"), "team_pets.yaml")
  }

  lemma PetsListed(svc: Upstream)
    requires LikePets(svc)
    ensures var p, w := PetsProxy(svc), PetsWorld(svc);
            && Listed(w.upstreams, p).Some? && Ups(w, p) == [PetsUpstream(), svc] && ConfigOf(p, Ups(w, p)).Some?
  {
    var p, up := PetsProxy(svc), PetsUpstream();
    assert Namespaces(p) == ["team"];
    assert [up][..0] == [] && ["team"][..0] == [];
    assert InNamespace([up], "team", []) == InNamespace([], "team", []) + [up];
    assert ListedIn([up], ["team"], []) == ListedIn([up], [], []) + InNamespace([up], "team", []);
    assert [up] + p.discovered == [up, svc] && [up, svc][..1] == [up];
    assert BuildUpstream(up).Some?;
    hide BuildUpstream;
    assert BuildAll([up]).Some? && BuildAll([up, svc]).Some?;
  }

  lemma PetsCopies(svc: Upstream)
    requires LikePets(svc)
    ensures Copies(PetsProxy(svc), [PetsUpstream(), svc]) == [PetsCopy("a"), PetsCopy("b")]
  {
    var p, up := PetsProxy(svc), PetsUpstream();
    assert [up, svc][..1] == [up] && [up][..0] == [];
    assert FileKey(up) == "team_pets.yaml" && FileKey(svc) == "team_pets.yaml";
    assert "gw" + "-specs" == "gw-specs" && SpecsMap(p) == ("team", "gw-specs");
    assert CopiesOf(p, up) == [PetsCopy("a")] && CopiesOf(p, svc) == [PetsCopy("b")];
    assert Copies(p, [up]) == Copies(p, []) + CopiesOf(p, up);
    assert Copies(p, [up, svc]) == Copies(p, [up]) + CopiesOf(p, svc);
  }

  lemma PetsSources(svc: Upstream, v1: string, v2: string)
    requires v1 != v2
    ensures var cs, st := [PetsCopy("a"), PetsCopy("b")], PetsState(v1, v2);
            && SourcesApart(PetsProxy(svc), cs) && AllAvailable(st.config, cs) && !Agree(st.config, cs)
  {
    var cs, st := [PetsCopy("a"), PetsCopy("b")], PetsState(v1, v2);
    assert ValueOf(st.config, cs[0]) == Text(v1) && ValueOf(st.config, cs[1]) == Text(v2);
    assert SameFile(cs[0], cs[1]);
  }

  /** Such a cluster exists: the proxy's reconciliations all succeed, and each of them writes,
      whenever the two specs differ. */
  lemma PetsNeverSettle(v1: string, v2: string, later: seq<Key>)
    requires v1 != v2
    ensures ToUpstream(PetsService()).Some?
    ensures var w := PetsWorld(ToUpstream(PetsService()).value);
            var st := ReconcileKey(w, PetsState(v1, v2), ("team", "gw")).store;
            var r := Requests(w, st, later);
            && ReconcileKey(w, r, ("team", "gw")).Done?
            && ReconcileKey(w, r, ("team", "gw")).store.config.writes > r.config.writes
  {
    PetsAnnotations();
    var svc := ToUpstream(PetsService()).value;
    var w, p, st := PetsWorld(svc), PetsProxy(svc), PetsState(v1, v2);
    assert w.proxies.Keys == {("team", "gw")} && w.proxies[("team", "gw")] == p && KeyOf(p) == ("team", "gw");
    assert p.gatewayRef == None;
    PetsListed(svc);
    PetsCopies(svc);
    PetsSources(svc, v1, v2);
    hide ToUpstream, LikePets, PetsWorld, PetsProxy, PetsState, PetsUpstream, PetsCopy, Ups, Copies, Listed, ConfigOf,
         SourcesApart, AllAvailable, Agree, ReconcileProxy, Requests, KeyOf, Owns;
    assert Separate(w) by {
      OneProxyApart(w, p, ("team", "gw"));
    }
    DoneIff(w, st, p);
    WritesForeverOrNever(w, st, ("team", "gw"), later);
  }

  lemma OneProxyApart(w: World, p: Proxy, k: Key)
    requires w.proxies.Keys == {k} && w.proxies[k] == p && KeyOf(p) == k && SourcesApart(p, Copies(p, Ups(w, p)))
    ensures Separate(w)
  {
    hide Owns, Copies, Ups;
  }
}
