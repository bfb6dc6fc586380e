/** One upstream's background refresh (pkg/upstream/http/refresh.go) as a state machine:
    conditional fetches, the failure counter and the degraded flag, together with what each
    tick does to the manager. */
module Refresh {
  import opened Json
  import opened Registry
  import opened ServerSync
  import opened IncrementalRebuild

  /** What a spec or overlay server holds at some moment; `etag` is "" when it sends none,
      as files and inline overlays never do. */
  datatype Served = Served(bytes: string, etag: string) | Unreachable

  datatype Fetched = FetchFailed | NotModified | Body(bytes: string, etag: string)

  /** A conditional GET: 304 exactly when the tag sent is the current one. */
  function FetchConditional(server: Served, ifNoneMatch: string): Fetched {
    match server
    case Unreachable => FetchFailed
    case Served(bytes, etag) => if ifNoneMatch != "" && etag == ifNoneMatch then NotModified else Body(bytes, etag)
  }

  /** The entries and spec tree built from a spec and an overlay, if they can be. */
  datatype Built = Built(entries: seq<Entry>, root: Option<nat>)

  datatype Pipeline = Pipeline(build: (string, Option<string>) -> Option<Built>)

  datatype RefreshConfig = RefreshConfig(name: string, maxFailures: int, hasOverlay: bool, overlayInterval: int)

  datatype Snapshot = Snapshot(built: Built, specETag: string, overlayETag: string, spec: string,
                               overlay: Option<string>)

  datatype Refreshing = Refreshing(current: Snapshot, failures: int, degraded: bool, lastOverlayFetch: int)

  /** The surroundings of one tick: what the servers hold, the time when the tick looks at
      the clock, and the time when it is done. */
  datatype Env = Env(spec: Served, overlay: Served, now: int, done: int)

  predicate OverlayDue(cfg: RefreshConfig, r: Refreshing, now: int) {
    cfg.hasOverlay && (cfg.overlayInterval <= 0 || now - r.lastOverlayFetch >= cfg.overlayInterval)
  }

  /** The overlay bytes, their tag, and whether the overlay was polled; None if the poll
      failed. */
  function FetchOverlay(cfg: RefreshConfig, r: Refreshing, env: Env): Option<(Option<string>, string, bool)> {
    if !cfg.hasOverlay then Some((None, "", false))
    else if !OverlayDue(cfg, r, env.now) then Some((r.current.overlay, r.current.overlayETag, false))
    else
      match FetchConditional(env.overlay, r.current.overlayETag)
      case FetchFailed => None
      case NotModified => Some((r.current.overlay, r.current.overlayETag, true))
      case Body(bytes, etag) => Some((Some(bytes), etag, true))
  }

  datatype Attempt = Broken | Unchanged | Ready(snapshot: Snapshot, polled: bool)

  /** Everything a refresh does before it tells the manager. */
  function Prepare(cfg: RefreshConfig, pipeline: Pipeline, r: Refreshing, env: Env): Attempt {
    var fetched := FetchConditional(env.spec, r.current.specETag);
    if fetched.FetchFailed? then Broken
    else if fetched.NotModified? && !OverlayDue(cfg, r, env.now) then Unchanged
    else
      var spec := if fetched.NotModified? then r.current.spec else fetched.bytes;
      var specETag := if fetched.NotModified? || fetched.etag == "" then r.current.specETag else fetched.etag;
      match FetchOverlay(cfg, r, env)
      case None => Broken
      case Some((overlay, overlayETag, polled)) =>
        match pipeline.build(spec, overlay)
        case None => Broken
        case Some(built) => Ready(Snapshot(built, specETag, overlayETag, spec, overlay), polled)
  }

  /** The refresher and the manager after a refresh, and whether it succeeded. */
  datatype World = World(r: Refreshing, s: State)

  ghost function Refreshed(cfg: RefreshConfig, pipeline: Pipeline, w: World, env: Env): (World, bool) {
    match Prepare(cfg, pipeline, w.r, env)
    case Broken => (w, false)
    case Unchanged => (w, true)
    case Ready(snapshot, polled) =>
      var s := AfterUpdate(w.s, cfg.name, snapshot.built.entries, snapshot.built.root);
      if !UpdateSucceeds(w.s, cfg.name, snapshot.built.entries, snapshot.built.root) then (World(w.r, s), false)
      else
        (World(w.r.(current := snapshot, degraded := false,
                    lastOverlayFetch := if polled then env.done else w.r.lastOverlayFetch), s), true)
  }

  /** The failure counter is a 32-bit integer. */
  function Wrap32(n: int): int {
    (n + 0x8000_0000) % 0x1_0000_0000 - 0x8000_0000
  }

  predicate Exhausted(cfg: RefreshConfig, count: int) {
    cfg.maxFailures > 0 && count >= cfg.maxFailures
  }

  ghost predicate Succeeds(cfg: RefreshConfig, pipeline: Pipeline, w: World, env: Env) {
    Refreshed(cfg, pipeline, w, env).1
  }

  ghost predicate Removes(cfg: RefreshConfig, pipeline: Pipeline, w: World, env: Env) {
    !Succeeds(cfg, pipeline, w, env) && Exhausted(cfg, Wrap32(w.r.failures + 1))
  }

  ghost function Tick(cfg: RefreshConfig, pipeline: Pipeline, w: World, env: Env): World {
    var (after, ok) := Refreshed(cfg, pipeline, w, env);
    var count := Wrap32(after.r.failures + 1);
    if ok then after.(r := after.r.(failures := 0))
    else if Exhausted(cfg, count) then
      World(after.r.(failures := 0, degraded := true), AfterRemove(after.s, cfg.name))
    else after.(r := after.r.(failures := count))
  }

  ghost function Ticks(cfg: RefreshConfig, pipeline: Pipeline, w: World, envs: seq<Env>): World {
    if envs == [] then w
    else Tick(cfg, pipeline, Ticks(cfg, pipeline, w, envs[..|envs| - 1]), envs[|envs| - 1])
  }

  predicate IsHealthy(cfg: RefreshConfig, r: Refreshing) {
    !r.degraded && (cfg.maxFailures <= 0 || r.failures < cfg.maxFailures)
  }

  // ---------- Conditional fetching refines plain fetching ----------

  /** A tag kept with bytes is the tag those bytes were served under. */
  ghost predicate Paired(etag: string, bytes: Option<string>, bytesOf: string -> string) {
    etag != "" ==> bytes == Some(bytesOf(etag))
  }

  ghost predicate SnapshotPaired(snap: Snapshot, specOf: string -> string, overlayOf: string -> string) {
    Paired(snap.specETag, Some(snap.spec), specOf) && Paired(snap.overlayETag, snap.overlay, overlayOf)
  }

  ghost predicate TagIdentifies(server: Served, bytesOf: string -> string) {
    server.Served? && server.etag != "" ==> server.bytes == bytesOf(server.etag)
  }

  /** The tick polls the overlay and gets an answer. */
  predicate Polls(cfg: RefreshConfig, r: Refreshing, env: Env) {
    env.spec.Served? && OverlayDue(cfg, r, env.now) && env.overlay.Served?
  }

  /** The overlay its server held when it was last polled, counting polls of ticks that
      failed later. */
  ghost function LastPolled(cfg: RefreshConfig, pipeline: Pipeline, w: World, envs: seq<Env>): Option<string> {
    if envs == [] then w.r.current.overlay
    else
      var n := |envs| - 1;
      if Polls(cfg, Ticks(cfg, pipeline, w, envs[..n]).r, envs[n]) then Some(envs[n].overlay.bytes)
      else LastPolled(cfg, pipeline, w, envs[..n])
  }

  /** Tags identify bytes, and time goes on. */
  ghost predicate Regular(envs: seq<Env>, specOf: string -> string, overlayOf: string -> string) {
    && (forall i :: 0 <= i < |envs| ==>
          && TagIdentifies(envs[i].spec, specOf) && TagIdentifies(envs[i].overlay, overlayOf)
          && envs[i].now <= envs[i].done)
    && (forall i :: 0 <= i < |envs| - 1 ==> envs[i].done <= envs[i + 1].now)
  }

  lemma RegularSplit(envs: seq<Env>, specOf: string -> string, overlayOf: string -> string)
    requires Regular(envs, specOf, overlayOf) && envs != []
    ensures var n := |envs| - 1;
            && Regular(envs[..n], specOf, overlayOf)
            && TagIdentifies(envs[n].spec, specOf) && TagIdentifies(envs[n].overlay, overlayOf)
            && envs[n].now <= envs[n].done && (n > 0 ==> envs[n - 1].done <= envs[n].now)
  {
    hide TagIdentifies;
  }

  /** If the tick publishes, the spec came with a tag or as a 304, or there was no old tag, or
      the bytes are those of the old tag. */
  ghost predicate KeepsPairing(cfg: RefreshConfig, pipeline: Pipeline, w: World, env: Env, specOf: string -> string) {
    env.spec.Served? && Prepare(cfg, pipeline, w.r, env).Ready? && Succeeds(cfg, pipeline, w, env) ==>
      env.spec.etag != "" || w.r.current.specETag == "" || env.spec.bytes == specOf(w.r.current.specETag)
  }

  ghost predicate PairingKept(cfg: RefreshConfig, pipeline: Pipeline, w: World, envs: seq<Env>,
                              specOf: string -> string) {
    forall i :: 0 <= i < |envs| ==> KeepsPairing(cfg, pipeline, Ticks(cfg, pipeline, w, envs[..i]), envs[i], specOf)
  }

  lemma OneTickMore(cfg: RefreshConfig, pipeline: Pipeline, w: World, envs: seq<Env>, specOf: string -> string)
    requires envs != []
    ensures var n := |envs| - 1;
            PairingKept(cfg, pipeline, w, envs, specOf) <==>
              PairingKept(cfg, pipeline, w, envs[..n], specOf) &&
              KeepsPairing(cfg, pipeline, Ticks(cfg, pipeline, w, envs[..n]), envs[n], specOf)
  {
    hide Ticks, KeepsPairing;
    forall i | 0 <= i < |envs| - 1 ensures envs[..|envs| - 1][..i] == envs[..i] {
    }
  }

  /** What the snapshot owes to plain fetching. */
  ghost predicate Current(cfg: RefreshConfig, pipeline: Pipeline, r: Refreshing, polled: Option<string>, now: int,
                          specOf: string -> string, overlayOf: string -> string) {
    && SnapshotPaired(r.current, specOf, overlayOf)
    && pipeline.build(r.current.spec, r.current.overlay) == Some(r.current.built)
    && (r.current.overlay == polled || OverlayDue(cfg, r, now))
    && (!cfg.hasOverlay ==> r.current.overlay == None)
  }

  lemma DueLater(cfg: RefreshConfig, r: Refreshing, now: int, later: int)
    requires OverlayDue(cfg, r, now) && now <= later
    ensures OverlayDue(cfg, r, later)
  {
  }

  /** One tick: if it succeeds, the snapshot is what the pipeline makes of the spec the
      server holds and the overlay as last polled. */
  lemma TickIsCurrent(cfg: RefreshConfig, pipeline: Pipeline, w: World, env: Env, polled: Option<string>,
                      specOf: string -> string, overlayOf: string -> string)
    requires Current(cfg, pipeline, w.r, polled, env.now, specOf, overlayOf)
    requires TagIdentifies(env.spec, specOf) && TagIdentifies(env.overlay, overlayOf) && env.now <= env.done
    requires KeepsPairing(cfg, pipeline, w, env, specOf)
    ensures var after := Tick(cfg, pipeline, w, env).r;
            var polled' := if Polls(cfg, w.r, env) then Some(env.overlay.bytes) else polled;
            && Current(cfg, pipeline, after, polled', env.done, specOf, overlayOf)
            && (Succeeds(cfg, pipeline, w, env) ==>
                  env.spec.Served? && after.current.overlay == polled' &&
                  pipeline.build(env.spec.bytes, polled') == Some(after.current.built))
  {
    if OverlayDue(cfg, w.r, env.now) {
      DueLater(cfg, w.r, env.now, env.done);
    }
  }

  /** In every regular run that keeps the pairing, each successful tick leaves the snapshot
      equal to the pipeline applied to the spec the server holds now and to the overlay as
      last polled, as if both had been fetched unconditionally. */
  lemma {:induction false} ConditionalRefinesPlain(cfg: RefreshConfig, pipeline: Pipeline, w: World, envs: seq<Env>,
                                                   specOf: string -> string, overlayOf: string -> string)
    requires Regular(envs, specOf, overlayOf) && PairingKept(cfg, pipeline, w, envs, specOf)
    requires SnapshotPaired(w.r.current, specOf, overlayOf)
    requires pipeline.build(w.r.current.spec, w.r.current.overlay) == Some(w.r.current.built)
    requires !cfg.hasOverlay ==> w.r.current.overlay == None
    ensures var after := Ticks(cfg, pipeline, w, envs).r;
            var polled := LastPolled(cfg, pipeline, w, envs);
            && Current(cfg, pipeline, after, polled, if envs == [] then 0 else envs[|envs| - 1].done, specOf, overlayOf)
            && (envs != [] && Succeeds(cfg, pipeline, Ticks(cfg, pipeline, w, envs[..|envs| - 1]), envs[|envs| - 1]) ==>
                  envs[|envs| - 1].spec.Served? &&
                  pipeline.build(envs[|envs| - 1].spec.bytes, polled) == Some(after.current.built))
  {
    if envs != [] {
      var n := |envs| - 1;
      var before := Ticks(cfg, pipeline, w, envs[..n]);
      hide Tick, Succeeds, KeepsPairing, PairingKept, SnapshotPaired, TagIdentifies, Regular;
      RegularSplit(envs, specOf, overlayOf);
      OneTickMore(cfg, pipeline, w, envs, specOf);
      ConditionalRefinesPlain(cfg, pipeline, w, envs[..n], specOf, overlayOf);
      var polled := LastPolled(cfg, pipeline, w, envs[..n]);
      if n > 0 && before.r.current.overlay != polled {
        DueLater(cfg, before.r, envs[n - 1].done, envs[n].now);
      }
      TickIsCurrent(cfg, pipeline, before, envs[n], polled, specOf, overlayOf);
    }
  }

  // ---------- Exactly when the pairing is kept ----------

  /** Tags sent only sometimes break the pairing: new bytes that come without a tag are kept
      under the old one. A tick keeps a paired snapshot paired exactly when it does not
      publish such bytes; the overlay always stays paired. */
  lemma SpecPairingKeptIff(cfg: RefreshConfig, pipeline: Pipeline, w: World, env: Env,
                           specOf: string -> string, overlayOf: string -> string)
    requires SnapshotPaired(w.r.current, specOf, overlayOf)
    requires TagIdentifies(env.spec, specOf) && TagIdentifies(env.overlay, overlayOf)
    ensures SnapshotPaired(Tick(cfg, pipeline, w, env).r.current, specOf, overlayOf) <==>
            KeepsPairing(cfg, pipeline, w, env, specOf)
  {
  }

  ghost predicate AlwaysPaired(cfg: RefreshConfig, pipeline: Pipeline, w: World, envs: seq<Env>,
                               specOf: string -> string, overlayOf: string -> string) {
    forall k :: 0 <= k <= |envs| ==> SnapshotPaired(Ticks(cfg, pipeline, w, envs[..k]).r.current, specOf, overlayOf)
  }

  /** Over every run: the kept bytes are always those of the kept tags if and only if no tick
      publishes new untagged bytes beside an old tag. */
  lemma {:induction false} AlwaysPairedIff(cfg: RefreshConfig, pipeline: Pipeline, w: World, envs: seq<Env>,
                                           specOf: string -> string, overlayOf: string -> string)
    requires SnapshotPaired(w.r.current, specOf, overlayOf)
    requires forall i :: 0 <= i < |envs| ==>
               TagIdentifies(envs[i].spec, specOf) && TagIdentifies(envs[i].overlay, overlayOf)
    ensures AlwaysPaired(cfg, pipeline, w, envs, specOf, overlayOf) <==> PairingKept(cfg, pipeline, w, envs, specOf)
  {
    hide Tick, KeepsPairing, PairingKept, SnapshotPaired, TagIdentifies;
    assert envs[..0] == [];
    if envs == [] {
      NothingToKeep(cfg, pipeline, w, specOf);
    } else {
      var n := |envs| - 1;
      var before := Ticks(cfg, pipeline, w, envs[..n]);
      OneTickMore(cfg, pipeline, w, envs, specOf);
      AlwaysPairedIff(cfg, pipeline, w, envs[..n], specOf, overlayOf);
      forall i | 0 <= i <= n ensures envs[..n][..i] == envs[..i] {
      }
      assert envs[..n + 1] == envs;
      assert AlwaysPaired(cfg, pipeline, w, envs, specOf, overlayOf) <==>
             AlwaysPaired(cfg, pipeline, w, envs[..n], specOf, overlayOf) &&
             SnapshotPaired(Tick(cfg, pipeline, before, envs[n]).r.current, specOf, overlayOf);
      if AlwaysPaired(cfg, pipeline, w, envs[..n], specOf, overlayOf) {
        SpecPairingKeptIff(cfg, pipeline, before, envs[n], specOf, overlayOf);
      }
    }
  }

  lemma NothingToKeep(cfg: RefreshConfig, pipeline: Pipeline, w: World, specOf: string -> string)
    ensures PairingKept(cfg, pipeline, w, [], specOf)
  {
  }

  /** A server that sends tags always, or never, keeps the pairing. */
  lemma {:induction false} SteadyTagsKeepPairing(cfg: RefreshConfig, pipeline: Pipeline, w: World, envs: seq<Env>,
                                                 tags: bool,
                                                 specOf: string -> string)
    requires (w.r.current.specETag != "") <==> tags
    requires forall i :: 0 <= i < |envs| && envs[i].spec.Served? ==> ((envs[i].spec.etag != "") <==> tags)
    ensures PairingKept(cfg, pipeline, w, envs, specOf)
    ensures (Ticks(cfg, pipeline, w, envs).r.current.specETag != "") <==> tags
  {
    hide PairingKept, KeepsPairing, Tick;
    if envs == [] {
      NothingToKeep(cfg, pipeline, w, specOf);
    } else {
      var n := |envs| - 1;
      SteadyTagsKeepPairing(cfg, pipeline, w, envs[..n], tags, specOf);
      SteadyTick(cfg, pipeline, Ticks(cfg, pipeline, w, envs[..n]), envs[n], tags, specOf);
      OneTickMore(cfg, pipeline, w, envs, specOf);
    }
  }

  lemma SteadyTick(cfg: RefreshConfig, pipeline: Pipeline, w: World, env: Env, tags: bool, specOf: string -> string)
    requires (w.r.current.specETag != "") <==> tags
    requires env.spec.Served? ==> ((env.spec.etag != "") <==> tags)
    ensures KeepsPairing(cfg, pipeline, w, env, specOf)
    ensures (Tick(cfg, pipeline, w, env).r.current.specETag != "") <==> tags
  {
  }

  /** So a refresher can serve a stale spec: the server holds `v1` under tag `t`, then `v2`
      without a tag, then `v1` again; the last tick succeeds and keeps `v2`. */
  lemma UntaggedSpecGoesStale(cfg: RefreshConfig, pipeline: Pipeline, w: World, tag: string, v1: string, v2: string,
                              b2: Built)
    requires !cfg.hasOverlay && tag != "" && v1 != v2
    requires w.r.current.specETag == tag && w.r.current.spec == v1 && pipeline.build(v2, None) == Some(b2)
    requires UpdateSucceeds(w.s, cfg.name, b2.entries, b2.root)
    ensures var e1 := Env(Served(v2, ""), Unreachable, 0, 0);
            var e2 := Env(Served(v1, tag), Unreachable, 1, 1);
            var w1 := Tick(cfg, pipeline, w, e1);
            && Succeeds(cfg, pipeline, w, e1) && Succeeds(cfg, pipeline, w1, e2)
            && Tick(cfg, pipeline, w1, e2).r.current.spec == v2
            && Tick(cfg, pipeline, w1, e2).r.current.built == b2
  {
  }
}
