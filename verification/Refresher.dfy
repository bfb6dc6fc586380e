/** The refresher object (pkg/upstream/http/refresh.go) beside the manager it reports to:
    its methods carry out exactly the steps of the refresh state machine. */
module Refresher {
  import opened Json
  import opened Registry
  import opened ServerSync
  import opened Refresh
  import M = Manager

  class Refresher {
    const cfg: RefreshConfig
    const pipeline: Pipeline
    const manager: M.Manager
    var current: Snapshot
    var failures: int
    var degraded: bool
    var lastOverlayFetch: int

    ghost predicate Valid()
      reads this, manager
    {
      manager.Valid()
    }

    ghost function Abs(): World
      reads this, manager
    {
      World(Refreshing(current, failures, degraded, lastOverlayFetch), manager.Abs())
    }

    constructor (cfg: RefreshConfig, pipeline: Pipeline, manager: M.Manager, snapshot: Snapshot, overlayFetchedAt: int)
      requires manager.Valid()
      ensures Valid() && this.cfg == cfg && this.pipeline == pipeline && this.manager == manager
      ensures Abs() == World(Refreshing(snapshot, 0, false, overlayFetchedAt), manager.Abs())
    {
      this.cfg, this.pipeline, this.manager := cfg, pipeline, manager;
      current, failures, degraded, lastOverlayFetch := snapshot, 0, false, overlayFetchedAt;
    }

    method ShouldRefreshOverlay(now: int) returns (due: bool)
      ensures due == OverlayDue(cfg, Refreshing(current, failures, degraded, lastOverlayFetch), now)
    {
      if !cfg.hasOverlay {
        return false;
      }
      if cfg.overlayInterval <= 0 {
        return true;
      }
      return now - lastOverlayFetch >= cfg.overlayInterval;
    }

    method FetchOverlayBytes(env: Env) returns (r: Option<(Option<string>, string, bool)>)
      ensures r == FetchOverlay(cfg, Refreshing(current, failures, degraded, lastOverlayFetch), env)
    {
      if !cfg.hasOverlay {
        return Some((None, "", false));
      }
      var due := ShouldRefreshOverlay(env.now);
      if !due {
        return Some((current.overlay, current.overlayETag, false));
      }
      match FetchConditional(env.overlay, current.overlayETag) {
        case FetchFailed => return None;
        case NotModified => return Some((current.overlay, current.overlayETag, true));
        case Body(bytes, etag) => return Some((Some(bytes), etag, true));
      }
    }

    /** One refresh cycle; the snapshot advances only after the manager took the entries. */
    method RefreshOnce(env: Env) returns (ok: bool)
      requires Valid()
      modifies this`current, this`degraded, this`lastOverlayFetch, manager`servers, manager`registry,
               manager`upstreamByName
      ensures Valid()
      ensures (Abs(), ok) == Refreshed(cfg, pipeline, old(Abs()), env)
    {
      hide AfterUpdate, UpdateSucceeds;
      var fetched := FetchConditional(env.spec, current.specETag);
      if fetched.FetchFailed? {
        return false;
      }
      var due := ShouldRefreshOverlay(env.now);
      if fetched.NotModified? && !due {
        return true;
      }
      var spec, specETag := current.spec, current.specETag;
      if fetched.Body? {
        spec, specETag := fetched.bytes, fetched.etag;
      }
      if specETag == "" {
        specETag := current.specETag;
      }
      var overlay := FetchOverlayBytes(env);
      if overlay.None? {
        return false;
      }
      var built := pipeline.build(spec, overlay.value.0);
      if built.None? {
        return false;
      }
      var snapshot := Snapshot(built.value, specETag, overlay.value.1, spec, overlay.value.0);
      var updated := manager.UpdateUpstream(cfg.name, built.value.entries, built.value.root);
      if !updated {
        return false;
      }
      degraded := false;
      current := snapshot;
      if overlay.value.2 {
        lastOverlayFetch := env.done;
      }
      return true;
    }

    /** What the ticker loop does at each tick. */
    method OnTick(env: Env)
      requires Valid()
      modifies this`current, this`degraded, this`lastOverlayFetch, this`failures, manager`servers, manager`registry,
               manager`upstreamByName
      ensures Valid()
      ensures Abs() == Tick(cfg, pipeline, old(Abs()), env)
    {
      hide Refreshed, AfterRemove;
      var ok := RefreshOnce(env);
      if !ok {
        failures := Wrap32(failures + 1);
        if cfg.maxFailures > 0 && failures >= cfg.maxFailures {
          manager.RemoveUpstream(cfg.name);
          degraded := true;
          failures := 0;
        }
      } else {
        failures := 0;
      }
    }

    method Healthy() returns (healthy: bool)
      ensures healthy == IsHealthy(cfg, Refreshing(current, failures, degraded, lastOverlayFetch))
    {
      if degraded {
        return false;
      }
      if cfg.maxFailures <= 0 {
        return true;
      }
      return failures < cfg.maxFailures;
    }

    /** The ticker loop over a finite stretch of ticks. */
    method Loop(envs: seq<Env>)
      requires Valid()
      modifies this`current, this`degraded, this`lastOverlayFetch, this`failures, manager`servers, manager`registry,
               manager`upstreamByName
      ensures Valid()
      ensures Abs() == Ticks(cfg, pipeline, old(Abs()), envs)
    {
      hide Tick;
      ghost var start := Abs();
      for i := 0 to |envs|
        invariant Valid() && Abs() == Ticks(cfg, pipeline, start, envs[..i])
      {
        assert envs[..i + 1][..i] == envs[..i];
        OnTick(envs[i]);
      }
      assert envs[..|envs|] == envs;
    }
  }
}
