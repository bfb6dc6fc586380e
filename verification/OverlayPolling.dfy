/** When a refresher polls its overlay (pkg/upstream/http/refresh.go:154-259): never within the
    interval, and always once it has passed, so that what it serves is never older. */
module OverlayPolling {
  import opened Json
  import opened Registry
  import opened ServerSync
  import opened IncrementalRebuild
  import opened Refresh

  /** The interval has passed since the overlay was last fetched. */
  predicate IntervalOver(cfg: RefreshConfig, r: Refreshing, now: int) {
    cfg.overlayInterval <= 0 || now - r.lastOverlayFetch >= cfg.overlayInterval
  }

  ghost predicate OverlayPaired(r: Refreshing, overlayOf: string -> string) {
    Paired(r.current.overlayETag, r.current.overlay, overlayOf)
  }

  /** Once the interval has passed, a tick succeeds only with an answer of the overlay's server,
      and then holds the overlay that the server holds, fetched when the tick was done. */
  lemma PolledWhenOver(cfg: RefreshConfig, pipeline: Pipeline, w: World, env: Env, overlayOf: string -> string)
    requires cfg.hasOverlay && IntervalOver(cfg, w.r, env.now)
    requires OverlayPaired(w.r, overlayOf) && TagIdentifies(env.overlay, overlayOf)
    requires Succeeds(cfg, pipeline, w, env)
    ensures env.overlay.Served?
    ensures Tick(cfg, pipeline, w, env).r.current.overlay == Some(env.overlay.bytes)
    ensures Tick(cfg, pipeline, w, env).r.lastOverlayFetch == env.done
  {
  }

  /** Within the interval, or without an overlay, a tick does not depend on the overlay's server,
      and keeps the overlay and the time of its last fetch. */
  lemma NotPolledWithin(cfg: RefreshConfig, pipeline: Pipeline, w: World, env: Env, other: Served)
    requires !cfg.hasOverlay || !IntervalOver(cfg, w.r, env.now)
    ensures Tick(cfg, pipeline, w, env) == Tick(cfg, pipeline, w, env.(overlay := other))
    ensures Tick(cfg, pipeline, w, env).r.lastOverlayFetch == w.r.lastOverlayFetch
    ensures cfg.hasOverlay ==> Tick(cfg, pipeline, w, env).r.current.overlay == w.r.current.overlay
  {
  }

  /** A tick that fails, polled or not, keeps the snapshot and the time. */
  lemma FailureKeeps(cfg: RefreshConfig, pipeline: Pipeline, w: World, env: Env)
    requires !Succeeds(cfg, pipeline, w, env)
    ensures Tick(cfg, pipeline, w, env).r.current == w.r.current
    ensures Tick(cfg, pipeline, w, env).r.lastOverlayFetch == w.r.lastOverlayFetch
  {
  }

  lemma OverlayStaysPaired(cfg: RefreshConfig, pipeline: Pipeline, w: World, env: Env, overlayOf: string -> string)
    requires OverlayPaired(w.r, overlayOf) && TagIdentifies(env.overlay, overlayOf)
    ensures OverlayPaired(Tick(cfg, pipeline, w, env).r, overlayOf)
  {
  }

  /** The overlay in use is what its server held at the tick that fetched it, or the first one. */
  ghost predicate FetchedAt(cfg: RefreshConfig, r: Refreshing, w: World, envs: seq<Env>, i: int) {
    if i < 0 then r.current.overlay == w.r.current.overlay && r.lastOverlayFetch == w.r.lastOverlayFetch
    else i < |envs| && envs[i].overlay.Served? && r.current.overlay == Some(envs[i].overlay.bytes) &&
         r.lastOverlayFetch == envs[i].done
  }

  lemma {:induction false} AlwaysFetched(cfg: RefreshConfig, pipeline: Pipeline, w: World, envs: seq<Env>,
                                         overlayOf: string -> string)
    requires cfg.hasOverlay && OverlayPaired(w.r, overlayOf)
    requires forall i :: 0 <= i < |envs| ==> TagIdentifies(envs[i].overlay, overlayOf)
    ensures OverlayPaired(Ticks(cfg, pipeline, w, envs).r, overlayOf)
    ensures exists i :: FetchedAt(cfg, Ticks(cfg, pipeline, w, envs).r, w, envs, i)
  {
    if envs == [] {
      assert FetchedAt(cfg, w.r, w, envs, -1);
    } else {
      var n := |envs| - 1;
      var before, after := Ticks(cfg, pipeline, w, envs[..n]), Ticks(cfg, pipeline, w, envs);
      AlwaysFetched(cfg, pipeline, w, envs[..n], overlayOf);
      assert after == Tick(cfg, pipeline, before, envs[n]);
      var i :| FetchedAt(cfg, before.r, w, envs[..n], i);
      hide Tick, Ticks, Succeeds, OverlayPaired, TagIdentifies;
      OverlayStaysPaired(cfg, pipeline, before, envs[n], overlayOf);
      if !Succeeds(cfg, pipeline, before, envs[n]) {
        FailureKeeps(cfg, pipeline, before, envs[n]);
        assert FetchedAt(cfg, after.r, w, envs, i);
      } else if IntervalOver(cfg, before.r, envs[n].now) {
        PolledWhenOver(cfg, pipeline, before, envs[n], overlayOf);
        assert FetchedAt(cfg, after.r, w, envs, n);
      } else {
        NotPolledWithin(cfg, pipeline, before, envs[n], envs[n].overlay);
        assert FetchedAt(cfg, after.r, w, envs, i);
      }
    }
  }

  /** In every run, the overlay after a successful tick is the one its server holds at that
      tick, or held at an earlier tick, or at the start, that is less than the interval ago. */
  lemma OverlayNeverOlder(cfg: RefreshConfig, pipeline: Pipeline, w: World, envs: seq<Env>, overlayOf: string -> string)
    requires cfg.hasOverlay && OverlayPaired(w.r, overlayOf) && envs != []
    requires forall i :: 0 <= i < |envs| ==> TagIdentifies(envs[i].overlay, overlayOf)
    requires Succeeds(cfg, pipeline, Ticks(cfg, pipeline, w, envs[..|envs| - 1]), envs[|envs| - 1])
    ensures var overlay, last := Ticks(cfg, pipeline, w, envs).r.current.overlay, envs[|envs| - 1];
            || (last.overlay.Served? && overlay == Some(last.overlay.bytes))
            || (exists i :: 0 <= i < |envs| - 1 && envs[i].overlay.Served? && overlay == Some(envs[i].overlay.bytes) &&
                            last.now - envs[i].done < cfg.overlayInterval)
            || (overlay == w.r.current.overlay && last.now - w.r.lastOverlayFetch < cfg.overlayInterval)
  {
    var n := |envs| - 1;
    var before := Ticks(cfg, pipeline, w, envs[..n]);
    AlwaysFetched(cfg, pipeline, w, envs[..n], overlayOf);
    var i :| FetchedAt(cfg, before.r, w, envs[..n], i);
    assert Ticks(cfg, pipeline, w, envs) == Tick(cfg, pipeline, before, envs[n]);
    hide Tick, Ticks, Succeeds, OverlayPaired, TagIdentifies;
    if IntervalOver(cfg, before.r, envs[n].now) {
      PolledWhenOver(cfg, pipeline, before, envs[n], overlayOf);
    } else {
      NotPolledWithin(cfg, pipeline, before, envs[n], envs[n].overlay);
      assert 0 <= i ==> envs[..n][i] == envs[i];
    }
  }
}
