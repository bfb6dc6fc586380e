/** The degraded flag and the failure counter of a refresher (pkg/upstream/http/refresh.go),
    against what the manager has published (pkg/mcp/manager.go). */
module RefreshHealth {
  import opened Json
  import opened Registry
  import opened ServerSync
  import opened IncrementalRebuild
  import opened Refresh

  // ---------- The flag and the published tools ----------

  /** The entries this upstream last had published. */
  ghost function Accepted(cfg: RefreshConfig, pipeline: Pipeline, w: World, envs: seq<Env>, initial: Source): Source {
    if envs == [] then initial
    else
      var n := |envs| - 1;
      var before := Ticks(cfg, pipeline, w, envs[..n]);
      if Publishes(cfg, pipeline, before, envs[n]) then
        var built := Prepare(cfg, pipeline, before.r, envs[n]).snapshot.built;
        Source(built.entries, built.root)
      else Accepted(cfg, pipeline, w, envs[..n], initial)
  }

  ghost predicate Publishes(cfg: RefreshConfig, pipeline: Pipeline, w: World, env: Env) {
    Prepare(cfg, pipeline, w.r, env).Ready? && Succeeds(cfg, pipeline, w, env)
  }

  /** The published registry holds the other upstreams, and this one's accepted entries
      unless it is degraded. */
  ghost predicate FlagTruthful(cfg: RefreshConfig, w: World, others: map<string, Source>, groups: seq<Group>,
                               accepted: Source) {
    && w.s.initialised && w.s.groups == groups && w.s.sources - {cfg.name} == others
    && (w.r.degraded ==> w.s.published == Some(FullView(others, groups)))
    && (!w.r.degraded ==> Buildable(others[cfg.name := accepted], groups) &&
                          w.s.published == Some(FullView(others[cfg.name := accepted], groups)))
    && (cfg.maxFailures > 0 ==> w.r.failures < cfg.maxFailures)
  }

  lemma WithoutWith(sources: map<string, Source>, name: string, src: Source)
    ensures sources[name := src] - {name} == sources - {name}
    ensures sources[name := src] == (sources - {name})[name := src]
  {
  }

  lemma TickKeepsFlagTruthful(cfg: RefreshConfig, pipeline: Pipeline, w: World, env: Env,
                              others: map<string, Source>, groups: seq<Group>, accepted: Source)
    requires FlagTruthful(cfg, w, others, groups, accepted) && Buildable(others, groups) && cfg.name !in others
    ensures var accepted' := if Publishes(cfg, pipeline, w, env) then
                               var built := Prepare(cfg, pipeline, w.r, env).snapshot.built;
                               Source(built.entries, built.root)
                             else accepted;
            FlagTruthful(cfg, Tick(cfg, pipeline, w, env), others, groups, accepted')
  {
    hide Prepare, FullView, Buildable, ApplyServers;
    var attempt := Prepare(cfg, pipeline, w.r, env);
    if attempt.Ready? {
      var built := attempt.snapshot.built;
      WithoutWith(w.s.sources, cfg.name, Source(built.entries, built.root));
    }
  }

  /** At every boundary between ticks of one refresher, with the other upstreams publishable
      together and no reload in between, the published registry is the other upstreams plus,
      exactly when the flag is down, the entries last accepted; and the failure count stays
      below a positive maximum. */
  lemma {:induction false} FlagAlwaysTruthful(cfg: RefreshConfig, pipeline: Pipeline, w: World, envs: seq<Env>,
                                              initial: Source)
    requires Full(w.s) && w.s.published.Some? && w.s.initialised
    requires cfg.name in w.s.sources && w.s.sources[cfg.name] == initial
    requires !w.r.degraded && (cfg.maxFailures > 0 ==> w.r.failures < cfg.maxFailures)
    ensures var others := w.s.sources - {cfg.name};
            FlagTruthful(cfg, Ticks(cfg, pipeline, w, envs), others, w.s.groups,
                         Accepted(cfg, pipeline, w, envs, initial))
  {
    var others := w.s.sources - {cfg.name};
    SubsetBuildable(w.s.sources, cfg.name, w.s.groups);
    if envs == [] {
      assert others[cfg.name := initial] == w.s.sources;
    } else {
      var n := |envs| - 1;
      FlagAlwaysTruthful(cfg, pipeline, w, envs[..n], initial);
      TickKeepsFlagTruthful(cfg, pipeline, Ticks(cfg, pipeline, w, envs[..n]), envs[n], others, w.s.groups,
                            Accepted(cfg, pipeline, w, envs[..n], initial));
    }
  }

  lemma TickKeepsBuildable(cfg: RefreshConfig, pipeline: Pipeline, w: World, env: Env,
                           others: map<string, Source>, groups: seq<Group>, accepted: Source)
    requires FlagTruthful(cfg, w, others, groups, accepted) && Publishes(cfg, pipeline, w, env)
    ensures var built := Prepare(cfg, pipeline, w.r, env).snapshot.built;
            Buildable(others[cfg.name := Source(built.entries, built.root)], groups)
  {
    hide Prepare, FullView, Buildable, ApplyServers;
    var built := Prepare(cfg, pipeline, w.r, env).snapshot.built;
    WithoutWith(w.s.sources, cfg.name, Source(built.entries, built.root));
  }

  /** Whatever became of them since, the accepted entries always fit beside the others. */
  lemma {:induction false} AcceptedStaysBuildable(cfg: RefreshConfig, pipeline: Pipeline, w: World, envs: seq<Env>,
                                                  initial: Source)
    requires Full(w.s) && w.s.published.Some? && w.s.initialised
    requires cfg.name in w.s.sources && w.s.sources[cfg.name] == initial
    requires !w.r.degraded && (cfg.maxFailures > 0 ==> w.r.failures < cfg.maxFailures)
    ensures Buildable((w.s.sources - {cfg.name})[cfg.name := Accepted(cfg, pipeline, w, envs, initial)], w.s.groups)
  {
    var others := w.s.sources - {cfg.name};
    if envs == [] {
      assert others[cfg.name := initial] == w.s.sources;
    } else {
      var n := |envs| - 1;
      var before := Ticks(cfg, pipeline, w, envs[..n]);
      AcceptedStaysBuildable(cfg, pipeline, w, envs[..n], initial);
      FlagAlwaysTruthful(cfg, pipeline, w, envs[..n], initial);
      hide FlagTruthful, Buildable, Publishes, Ticks;
      if Publishes(cfg, pipeline, before, envs[n]) {
        TickKeepsBuildable(cfg, pipeline, before, envs[n], others, w.s.groups,
                           Accepted(cfg, pipeline, w, envs[..n], initial));
      }
    }
  }

  /** In every run, IsHealthy tells whether the tools are there: if the upstream has any, all
      of those last accepted are published when it is healthy, and none is when it is not. */
  lemma AlwaysHealthyIffPresent(cfg: RefreshConfig, pipeline: Pipeline, w: World, envs: seq<Env>, initial: Source)
    requires Full(w.s) && w.s.published.Some? && w.s.initialised
    requires cfg.name in w.s.sources && w.s.sources[cfg.name] == initial
    requires !w.r.degraded && (cfg.maxFailures > 0 ==> w.r.failures < cfg.maxFailures)
    requires Accepted(cfg, pipeline, w, envs, initial).entries != []
    ensures var after, accepted := Ticks(cfg, pipeline, w, envs), Accepted(cfg, pipeline, w, envs, initial);
            && after.s.published.Some?
            && (IsHealthy(cfg, after.r) <==>
                  forall e :: e in accepted.entries ==>
                    e.name in after.s.published.value.index && after.s.published.value.index[e.name] == e)
            && (!IsHealthy(cfg, after.r) <==>
                  forall e :: e in accepted.entries ==> e.name !in after.s.published.value.index)
  {
    var others := w.s.sources - {cfg.name};
    var after, accepted := Ticks(cfg, pipeline, w, envs), Accepted(cfg, pipeline, w, envs, initial);
    FlagAlwaysTruthful(cfg, pipeline, w, envs, initial);
    AcceptedStaysBuildable(cfg, pipeline, w, envs, initial);
    SubsetBuildable(w.s.sources, cfg.name, w.s.groups);
    assert after.s.published.Some?;
    hide Ticks, Accepted, Buildable, Full, IsHealthy;
    HealthyIffPresent(cfg, after, others, w.s.groups, accepted);
    assert accepted.entries[0] in accepted.entries;
  }

  /** The flag tells whether the tools are there: if the upstream has any, all of the accepted
      ones are published when it is healthy, and none is when it is not. */
  lemma HealthyIffPresent(cfg: RefreshConfig, w: World, others: map<string, Source>, groups: seq<Group>,
                          accepted: Source)
    requires FlagTruthful(cfg, w, others, groups, accepted) && Buildable(others, groups) && cfg.name !in others
    requires Buildable(others[cfg.name := accepted], groups) && accepted.entries != []
    ensures IsHealthy(cfg, w.r) <==> !w.r.degraded
    ensures IsHealthy(cfg, w.r) <==>
            forall e :: e in accepted.entries ==> e in w.s.published.value.index.Values
    ensures IsHealthy(cfg, w.r) ==>
            forall e :: e in accepted.entries ==>
              e.name in w.s.published.value.index && w.s.published.value.index[e.name] == e
    ensures !IsHealthy(cfg, w.r) <==> forall e :: e in accepted.entries ==> e.name !in w.s.published.value.index
  {
    var withIt := others[cfg.name := accepted];
    assert withIt[cfg.name] == accepted;
    assert accepted.entries[0] in accepted.entries;
    forall e | e in accepted.entries ensures e.name !in Index(others) {
      NotAmongOthers(others, cfg.name, accepted, e);
    }
    forall e | e in accepted.entries ensures e.name in Index(withIt) && Index(withIt)[e.name] == e {
      assert e in EntrySet(withIt);
      IndexedAs(withIt, e);
    }
  }

  lemma NotAmongOthers(others: map<string, Source>, name: string, accepted: Source, e: Entry)
    requires name !in others && ConflictFree(others[name := accepted]) && e in accepted.entries
    ensures e.name !in Index(others)
  {
    var withIt := others[name := accepted];
    forall x | x in EntrySet(others) ensures x.name != e.name {
      var n :| n in others && x in others[n].entries;
      assert withIt[n] == others[n] && withIt[name] == accepted;
      assert x.name in NamesIn(withIt[n].entries) && e.name in NamesIn(withIt[name].entries);
    }
  }

  /** With no conflict the index takes every entry's name to that entry. */
  lemma IndexedAs(src: map<string, Source>, e: Entry)
    requires ConflictFree(src) && e in EntrySet(src)
    ensures e.name in Index(src) && Index(src)[e.name] == e
  {
    var x := EntryNamed(src, e.name);
    var m :| m in src && x in src[m].entries;
    var n :| n in src && e in src[n].entries;
    assert e.name in NamesIn(src[m].entries) && e.name in NamesIn(src[n].entries);
    assert m == n;
    var i :| 0 <= i < |src[n].entries| && src[n].entries[i] == e;
    var j :| 0 <= j < |src[n].entries| && src[n].entries[j] == x;
  }

  /** After a successful tick the flag is up exactly when it was up before and the tick was
      a 304 with no overlay due: that tick republishes nothing. */
  lemma DegradedAfterSuccessIff(cfg: RefreshConfig, pipeline: Pipeline, w: World, env: Env)
    requires Succeeds(cfg, pipeline, w, env)
    ensures Tick(cfg, pipeline, w, env).r.degraded <==>
            (w.r.degraded && FetchConditional(env.spec, w.r.current.specETag).NotModified? &&
             !OverlayDue(cfg, w.r, env.now))
  {
  }

  /** Beside another upstream whose update failed, a removal may do nothing: the flag goes up
      all the same, and the tools go if and only if this upstream was all that the failed
      entries clashed with, which then are published in their place. */
  lemma DegradedBesideTools(cfg: RefreshConfig, pipeline: Pipeline, s: State, r: Refreshing, env: Env,
                            other: string, entries: seq<Entry>, root: Option<nat>, e: Entry)
    requires Full(s) && Started(s) && s.initialised && !UpdateSucceeds(s, other, entries, root)
    requires cfg.name != other && cfg.name in s.sources && e in s.sources[cfg.name].entries
    requires env.spec == Unreachable && Exhausted(cfg, Wrap32(r.failures + 1))
    ensures var after := Tick(cfg, pipeline, World(r, AfterUpdate(s, other, entries, root)), env);
            && !IsHealthy(cfg, after.r)
            && (Fits(s, entries, {other, cfg.name}) ==>
                  after.s.published ==
                  Some(FullView((s.sources - {cfg.name})[other := Source(entries, root)], s.groups)))
            && (!Fits(s, entries, {other, cfg.name}) ==>
                  after.s.published == s.published
                  && e.name in s.published.value.index && s.published.value.index[e.name] == e)
  {
    UnreachableTick(cfg, pipeline, World(r, AfterUpdate(s, other, entries, root)), env);
    PublishedWhenFull(s, cfg.name, e);
    hide *;
    RemovalAfterFailedUpdateIff(s, other, entries, root, cfg.name);
  }

  lemma UnreachableTick(cfg: RefreshConfig, pipeline: Pipeline, w: World, env: Env)
    requires env.spec == Unreachable && Exhausted(cfg, Wrap32(w.r.failures + 1))
    ensures Tick(cfg, pipeline, w, env).s == AfterRemove(w.s, cfg.name)
    ensures !IsHealthy(cfg, Tick(cfg, pipeline, w, env).r)
  {
    hide AfterRemove;
  }

  lemma PublishedWhenFull(s: State, name: string, e: Entry)
    requires Full(s) && Started(s) && s.initialised && name in s.sources && e in s.sources[name].entries
    ensures s.published.Some? && e.name in s.published.value.index && s.published.value.index[e.name] == e
  {
    assert e in EntrySet(s.sources);
    IndexedAs(s.sources, e);
  }

  /** So a degraded upstream without an overlay never comes back while its spec server,
      reachable again, keeps serving the spec under the tag the refresher holds. */
  lemma {:induction false} DegradedForever(cfg: RefreshConfig, pipeline: Pipeline, w: World, envs: seq<Env>)
    requires w.r.degraded && !cfg.hasOverlay && w.r.current.specETag != ""
    requires forall i :: 0 <= i < |envs| ==> envs[i].spec.Served? && envs[i].spec.etag == w.r.current.specETag
    ensures var after := Ticks(cfg, pipeline, w, envs);
            after.r.degraded && after.s == w.s && after.r.current == w.r.current && !IsHealthy(cfg, after.r)
  {
    if envs != [] {
      DegradedForever(cfg, pipeline, w, envs[..|envs| - 1]);
    }
  }

  // ---------- How often tools are removed ----------

  /** How many ticks in a row have failed, up to and including the last. */
  function Streak(oks: seq<bool>): nat {
    if oks == [] || oks[|oks| - 1] then 0 else 1 + Streak(oks[..|oks| - 1])
  }

  /** The lengths of the maximal runs of failures between one success and the next, some of
      them zero; the last one may still be going on. */
  function FailureRuns(oks: seq<bool>): (runs: seq<nat>)
    ensures runs != []
  {
    if oks == [] then [0]
    else
      var before := FailureRuns(oks[..|oks| - 1]);
      if oks[|oks| - 1] then before + [0]
      else before[..|before| - 1] + [before[|before| - 1] + 1]
  }

  function SumOfQuotients(runs: seq<nat>, max: nat): nat
    requires max > 0
  {
    if runs == [] then 0 else SumOfQuotients(runs[..|runs| - 1], max) + runs[|runs| - 1] / max
  }

  ghost function Outcomes(cfg: RefreshConfig, pipeline: Pipeline, w: World, envs: seq<Env>): seq<bool> {
    if envs == [] then []
    else
      Outcomes(cfg, pipeline, w, envs[..|envs| - 1]) +
      [Succeeds(cfg, pipeline, Ticks(cfg, pipeline, w, envs[..|envs| - 1]), envs[|envs| - 1])]
  }

  ghost function Removals(cfg: RefreshConfig, pipeline: Pipeline, w: World, envs: seq<Env>): nat {
    if envs == [] then 0
    else
      Removals(cfg, pipeline, w, envs[..|envs| - 1]) +
      (if Removes(cfg, pipeline, Ticks(cfg, pipeline, w, envs[..|envs| - 1]), envs[|envs| - 1]) then 1 else 0)
  }

  lemma {:induction false} LastRunIsStreak(oks: seq<bool>)
    ensures var runs := FailureRuns(oks); runs[|runs| - 1] == Streak(oks)
  {
    if oks != [] {
      LastRunIsStreak(oks[..|oks| - 1]);
    }
  }

  lemma RefreshKeepsFailures(cfg: RefreshConfig, pipeline: Pipeline, w: World, env: Env)
    ensures Refreshed(cfg, pipeline, w, env).0.r.failures == w.r.failures
  {
  }

  lemma NextRemainder(k: nat, max: nat)
    requires max > 0
    ensures k % max + 1 == max ==> (k + 1) % max == 0 && (k + 1) / max == k / max + 1
    ensures k % max + 1 < max ==> (k + 1) % max == k % max + 1 && (k + 1) / max == k / max
    ensures (k + 1) % max == 0 ==> k % max + 1 == max
  {
    var q, r := k / max, k % max;
    assert k == q * max + r;
    assert (q + 1) * max == q * max + max;
    if r + 1 == max {
      DivModUnique(k + 1, max, q + 1, 0);
    } else {
      DivModUnique(k + 1, max, q, r + 1);
    }
  }

  lemma DivModUnique(n: nat, max: nat, q: nat, r: nat)
    requires max > 0 && n == q * max + r && r < max
    ensures n / max == q && n % max == r
  {
    var q', r' := n / max, n % max;
    assert n == q' * max + r';
    assert (q - q') * max == r' - r;
    SmallMultiple(q - q', max);
  }

  lemma SmallMultiple(a: int, max: int)
    requires 0 < max && -max < a * max < max
    ensures a == 0
  {
    assert a >= 1 ==> a * max >= max;
    assert a <= -1 ==> a * max <= -max;
  }

  /** The counter is the length of the current streak modulo the maximum. */
  lemma {:induction false} CounterIsStreakModulo(cfg: RefreshConfig, pipeline: Pipeline, w: World, envs: seq<Env>)
    requires 0 < cfg.maxFailures < 0x8000_0000 && w.r.failures == 0
    ensures Ticks(cfg, pipeline, w, envs).r.failures == Streak(Outcomes(cfg, pipeline, w, envs)) % cfg.maxFailures
  {
    if envs != [] {
      var n := |envs| - 1;
      var before, oks := Ticks(cfg, pipeline, w, envs[..n]), Outcomes(cfg, pipeline, w, envs[..n]);
      LastTick(cfg, pipeline, w, envs);
      hide *;
      CounterIsStreakModulo(cfg, pipeline, w, envs[..n]);
      CounterStep(cfg, pipeline, before, envs[n], Streak(oks));
      StreakStep(oks, Succeeds(cfg, pipeline, before, envs[n]));
      ZeroRemainder(cfg.maxFailures);
    } else {
      ZeroRemainder(cfg.maxFailures);
    }
  }

  lemma ZeroRemainder(max: int)
    requires max > 0
    ensures 0 % max == 0
  {
  }

  lemma StreakStep(oks: seq<bool>, ok: bool)
    ensures Streak(oks + [ok]) == if ok then 0 else Streak(oks) + 1
  {
    assert (oks + [ok])[..|oks|] == oks;
  }

  lemma LastTick(cfg: RefreshConfig, pipeline: Pipeline, w: World, envs: seq<Env>)
    requires envs != []
    ensures var n := |envs| - 1;
            var before := Ticks(cfg, pipeline, w, envs[..n]);
            && Ticks(cfg, pipeline, w, envs) == Tick(cfg, pipeline, before, envs[n])
            && Outcomes(cfg, pipeline, w, envs) ==
               Outcomes(cfg, pipeline, w, envs[..n]) + [Succeeds(cfg, pipeline, before, envs[n])]
  {
    hide Tick, Succeeds;
  }

  lemma CounterStep(cfg: RefreshConfig, pipeline: Pipeline, w: World, env: Env, streak: nat)
    requires 0 < cfg.maxFailures < 0x8000_0000 && w.r.failures == streak % cfg.maxFailures
    ensures var ok := Succeeds(cfg, pipeline, w, env);
            && Tick(cfg, pipeline, w, env).r.failures == (if ok then 0 else (streak + 1) % cfg.maxFailures)
            && (Removes(cfg, pipeline, w, env) <==> !ok && (streak + 1) % cfg.maxFailures == 0)
  {
    RefreshKeepsFailures(cfg, pipeline, w, env);
    NextRemainder(streak, cfg.maxFailures);
    assert Wrap32(w.r.failures + 1) == w.r.failures + 1;
  }

  /** In every run the tools are removed exactly at the ticks where the streak of failures
      reaches a multiple of the maximum. */
  lemma RemovedAtMultiples(cfg: RefreshConfig, pipeline: Pipeline, w: World, envs: seq<Env>)
    requires 0 < cfg.maxFailures < 0x8000_0000 && w.r.failures == 0 && envs != []
    ensures var streak := Streak(Outcomes(cfg, pipeline, w, envs));
            Removes(cfg, pipeline, Ticks(cfg, pipeline, w, envs[..|envs| - 1]), envs[|envs| - 1]) <==>
            streak > 0 && streak % cfg.maxFailures == 0
  {
    var n := |envs| - 1;
    var before, oks := Ticks(cfg, pipeline, w, envs[..n]), Outcomes(cfg, pipeline, w, envs[..n]);
    hide *;
    LastTick(cfg, pipeline, w, envs);
    CounterIsStreakModulo(cfg, pipeline, w, envs[..n]);
    CounterStep(cfg, pipeline, before, envs[n], Streak(oks));
    StreakStep(oks, Succeeds(cfg, pipeline, before, envs[n]));
  }

  /** In total, the sum over the maximal runs of failures of the run's length divided by the
      maximum, rounded down. */
  lemma {:induction false} RemovalsCounted(cfg: RefreshConfig, pipeline: Pipeline, w: World, envs: seq<Env>)
    requires 0 < cfg.maxFailures < 0x8000_0000 && w.r.failures == 0
    ensures Removals(cfg, pipeline, w, envs) ==
            SumOfQuotients(FailureRuns(Outcomes(cfg, pipeline, w, envs)), cfg.maxFailures)
  {
    var max := cfg.maxFailures;
    if envs == [] {
      assert SumOfQuotients([0], max) == SumOfQuotients([], max) + 0 / max;
    } else {
      var n := |envs| - 1;
      var oks := Outcomes(cfg, pipeline, w, envs[..n]);
      var ok := Succeeds(cfg, pipeline, Ticks(cfg, pipeline, w, envs[..n]), envs[n]);
      RemovalsCounted(cfg, pipeline, w, envs[..n]);
      RemovedAtMultiples(cfg, pipeline, w, envs);
      assert Outcomes(cfg, pipeline, w, envs) == oks + [ok];
      SumStep(oks, ok, max);
    }
  }

  lemma SumStep(oks: seq<bool>, ok: bool, max: nat)
    requires max > 0
    ensures var streak := Streak(oks + [ok]);
            SumOfQuotients(FailureRuns(oks + [ok]), max) ==
            SumOfQuotients(FailureRuns(oks), max) + (if streak > 0 && streak % max == 0 then 1 else 0)
  {
    var all, runs := oks + [ok], FailureRuns(oks);
    assert all[..|oks|] == oks;
    LastRunIsStreak(oks);
    LastRunIsStreak(all);
    var last := runs[|runs| - 1];
    if ok {
      assert (runs + [0])[..|runs|] == runs;
      assert 0 / max == 0;
    } else {
      NextRemainder(last, max);
      var grown := runs[..|runs| - 1] + [last + 1];
      assert grown[..|grown| - 1] == runs[..|runs| - 1];
    }
  }

  /** With no positive maximum, or one the 32-bit counter cannot reach, tools are never
      removed. */
  lemma NeverRemoved(cfg: RefreshConfig, pipeline: Pipeline, w: World, env: Env)
    requires cfg.maxFailures <= 0 || cfg.maxFailures >= 0x8000_0000
    ensures !Removes(cfg, pipeline, w, env)
  {
  }
}
