/** Several refreshers whose ticks interleave over one manager (pkg/upstream/http/refresh.go,
    pkg/mcp/manager.go): with prefixes that keep the upstreams' names apart, no update fails
    and every health report is true. */
module RefreshTogether {
  import opened Json
  import opened Registry
  import opened Conflicts
  import opened ServerSync
  import opened IncrementalRebuild
  import opened Refresh
  import opened RefreshHealth

  /** The refreshed upstreams with their settings and pipelines, and the prefix of every
      upstream of the manager, refreshed or not. */
  datatype Setup = Setup(cfgs: map<string, RefreshConfig>, pipelines: map<string, Pipeline>,
                         prefixes: map<string, string>, style: NameStyle)

  /** The refreshers and the manager. */
  datatype Fleet = Fleet(rs: map<string, Refreshing>, s: State)

  /** A tick of one of the refreshers. */
  datatype Turn = Turn(name: string, env: Env)

  ghost function WorldOf(f: Fleet, name: string): World
    requires name in f.rs
  {
    World(f.rs[name], f.s)
  }

  ghost function TakeTurn(setup: Setup, f: Fleet, t: Turn): Fleet {
    if t.name !in f.rs || t.name !in setup.cfgs || t.name !in setup.pipelines then f
    else
      var w := Tick(setup.cfgs[t.name], setup.pipelines[t.name], WorldOf(f, t.name), t.env);
      Fleet(f.rs[t.name := w.r], w.s)
  }

  ghost function TakeTurns(setup: Setup, f: Fleet, ts: seq<Turn>): Fleet {
    if ts == [] then f else TakeTurn(setup, TakeTurns(setup, f, ts[..|ts| - 1]), ts[|ts| - 1])
  }

  /** The entries that an upstream last had published. */
  ghost function LastAccepted(setup: Setup, f: Fleet, ts: seq<Turn>, name: string, initial: Source): Source {
    if ts == [] then initial
    else
      var n := |ts| - 1;
      AcceptedAfter(setup, TakeTurns(setup, f, ts[..n]), ts[n], name, LastAccepted(setup, f, ts[..n], name, initial))
  }

  ghost function AcceptedAfter(setup: Setup, f: Fleet, t: Turn, name: string, before: Source): Source {
    if t.name == name && name in f.rs && name in setup.cfgs && name in setup.pipelines &&
       Publishes(setup.cfgs[name], setup.pipelines[name], WorldOf(f, name), t.env)
    then
      var built := Prepare(setup.cfgs[name], setup.pipelines[name], f.rs[name], t.env).snapshot.built;
      Source(built.entries, built.root)
    else before
  }

  ghost predicate NamedFor(setup: Setup, name: string, entries: seq<Entry>) {
    name in setup.prefixes && NamedBy(Upstream(name, setup.prefixes[name], entries, None), setup.style)
  }

  /** Every pipeline names its tools from its upstream's prefix, as tool generation does, and
      no upstream's cut stem begins another's. */
  ghost predicate KeptApart(setup: Setup) {
    && setup.cfgs.Keys == setup.pipelines.Keys && setup.cfgs.Keys <= setup.prefixes.Keys
    && (forall n :: n in setup.cfgs ==> setup.cfgs[n].name == n)
    && (forall a, b :: a in setup.prefixes && b in setup.prefixes && a != b ==>
          !(Cut(setup.prefixes[a], setup.style) <= Cut(setup.prefixes[b], setup.style)))
    && (forall n, spec, overlay :: n in setup.pipelines && setup.pipelines[n].build(spec, overlay).Some? ==>
          NamedFor(setup, n, setup.pipelines[n].build(spec, overlay).value.entries))
  }

  /** The published registry is the build of the stored sources, and these are named from
      their prefixes. */
  ghost predicate Orderly(setup: Setup, s: State) {
    && Full(s) && Started(s) && s.initialised
    && forall n :: n in s.sources ==> NamedFor(setup, n, s.sources[n].entries)
  }

  /** What a refresher reports is so: its upstream is stored, with the entries last accepted,
      exactly while it is not degraded. */
  ghost predicate ReportsTruly(setup: Setup, f: Fleet, name: string, accepted: Source)
    requires name in f.rs && name in setup.cfgs
  {
    && (f.rs[name].degraded <==> name !in f.s.sources)
    && (name in f.s.sources ==> f.s.sources[name] == accepted)
    && (setup.cfgs[name].maxFailures > 0 ==> f.rs[name].failures < setup.cfgs[name].maxFailures)
    && NamedFor(setup, name, accepted.entries)
  }

  /** Entries named for different upstreams have no name in common. */
  lemma NamesApart(setup: Setup, a: string, b: string, xs: seq<Entry>, ys: seq<Entry>)
    requires KeptApart(setup) && a != b && NamedFor(setup, a, xs) && NamedFor(setup, b, ys)
    ensures NamesIn(xs) !! NamesIn(ys)
  {
    var p, q, style := setup.prefixes[a], setup.prefixes[b], setup.style;
    SharedNameIff(p, q, style);
    hide ToolName, Cut;
    forall x, y | x in xs && y in ys ensures x.name != y.name {
      var base1 :| x.name == ToolName(base1, p, style);
      var base2 :| y.name == ToolName(base2, q, style);
    }
  }

  lemma AlwaysFits(setup: Setup, s: State, name: string, entries: seq<Entry>)
    requires KeptApart(setup) && Orderly(setup, s) && NamedFor(setup, name, entries)
    ensures Fits(s, entries, {name})
  {
    hide KeptApart, Full, Started;
    forall n | n in s.sources && n !in {name} ensures NamesIn(entries) !! NamesIn(s.sources[n].entries) {
      NamesApart(setup, name, n, entries, s.sources[n].entries);
    }
  }

  /** So no update fails, and none unsettles the order. */
  lemma UpdateKeepsOrder(setup: Setup, s: State, name: string, entries: seq<Entry>, root: Option<nat>)
    requires KeptApart(setup) && Orderly(setup, s) && NamedFor(setup, name, entries)
    ensures UpdateSucceeds(s, name, entries, root)
    ensures var after := AfterUpdate(s, name, entries, root);
            Orderly(setup, after) && after.sources == s.sources[name := Source(entries, root)]
  {
    AlwaysFits(setup, s, name, entries);
    UpdateFullIffSuccess(s, name, entries, root);
    hide KeptApart, Fits, Full, NamedFor, ApplyServers, FullView, Buildable;
  }

  lemma RemovalKeepsOrder(setup: Setup, s: State, name: string)
    requires Orderly(setup, s)
    ensures Orderly(setup, AfterRemove(s, name)) && AfterRemove(s, name).sources == s.sources - {name}
  {
    RemoveNeverFails(s, name);
    hide Full, NamedFor, ApplyServers, FullView, Buildable;
  }

  lemma ReadyTick(cfg: RefreshConfig, pipeline: Pipeline, w: World, env: Env)
    requires Prepare(cfg, pipeline, w.r, env).Ready?
    requires var built := Prepare(cfg, pipeline, w.r, env).snapshot.built;
             UpdateSucceeds(w.s, cfg.name, built.entries, built.root)
    ensures var built, after := Prepare(cfg, pipeline, w.r, env).snapshot.built, Tick(cfg, pipeline, w, env);
            && Publishes(cfg, pipeline, w, env)
            && after.s == AfterUpdate(w.s, cfg.name, built.entries, built.root)
            && !after.r.degraded && after.r.failures == 0
  {
    hide Prepare, AfterUpdate, UpdateSucceeds;
  }

  lemma UnreadyTick(cfg: RefreshConfig, pipeline: Pipeline, w: World, env: Env)
    ensures var attempt, after := Prepare(cfg, pipeline, w.r, env), Tick(cfg, pipeline, w, env);
            && (attempt.Unchanged? ==> after.s == w.s && after.r.degraded == w.r.degraded && after.r.failures == 0)
            && (attempt.Broken? ==>
                  var count := Wrap32(w.r.failures + 1);
                  if Exhausted(cfg, count) then
                    after.s == AfterRemove(w.s, cfg.name) && after.r.degraded && after.r.failures == 0
                  else after.s == w.s && after.r.degraded == w.r.degraded && after.r.failures == count)
            && (!attempt.Ready? ==> !Publishes(cfg, pipeline, w, env))
  {
    hide Prepare, AfterUpdate, UpdateSucceeds, AfterRemove, Wrap32;
  }

  /** What a prepared refresh would publish is named from the prefix. */
  lemma PreparedIsNamed(setup: Setup, name: string, r: Refreshing, env: Env)
    requires KeptApart(setup) && name in setup.cfgs
    requires Prepare(setup.cfgs[name], setup.pipelines[name], r, env).Ready?
    ensures NamedFor(setup, name, Prepare(setup.cfgs[name], setup.pipelines[name], r, env).snapshot.built.entries)
  {
    hide NamedFor, Cut;
    var snap := Prepare(setup.cfgs[name], setup.pipelines[name], r, env).snapshot;
    assert setup.pipelines[name].build(snap.spec, snap.overlay) == Some(snap.built);
  }

  /** What a tick comes to when no update fails. */
  lemma TickByOutcome(setup: Setup, f: Fleet, name: string, env: Env)
    requires KeptApart(setup) && name in setup.cfgs && name in f.rs && Orderly(setup, f.s)
    ensures var cfg, pipeline, w := setup.cfgs[name], setup.pipelines[name], WorldOf(f, name);
            var attempt, after := Prepare(cfg, pipeline, w.r, env), Tick(cfg, pipeline, w, env);
            && (attempt.Ready? ==>
                  var built := attempt.snapshot.built;
                  && NamedFor(setup, name, built.entries) && Publishes(cfg, pipeline, w, env)
                  && after.s == AfterUpdate(f.s, name, built.entries, built.root)
                  && !after.r.degraded && after.r.failures == 0)
            && (attempt.Unchanged? ==> after.s == f.s && after.r.degraded == w.r.degraded && after.r.failures == 0)
            && (attempt.Broken? ==>
                  var count := Wrap32(w.r.failures + 1);
                  if Exhausted(cfg, count) then
                    after.s == AfterRemove(f.s, name) && after.r.degraded && after.r.failures == 0
                  else after.s == f.s && after.r.degraded == w.r.degraded && after.r.failures == count)
            && (!attempt.Ready? ==> !Publishes(cfg, pipeline, w, env))
  {
    assert setup.cfgs.Keys == setup.pipelines.Keys && setup.cfgs[name].name == name;
    hide *;
    var cfg, pipeline, w := setup.cfgs[name], setup.pipelines[name], WorldOf(f, name);
    assert w.r == f.rs[name] && w.s == f.s by {
      WorldParts(f, name);
    }
    UnreadyTick(cfg, pipeline, w, env);
    if Prepare(cfg, pipeline, w.r, env).Ready? {
      var built := Prepare(cfg, pipeline, w.r, env).snapshot.built;
      PreparedIsNamed(setup, name, w.r, env);
      UpdateKeepsOrder(setup, f.s, name, built.entries, built.root);
      ReadyTick(cfg, pipeline, w, env);
    }
  }

  lemma WorldParts(f: Fleet, name: string)
    requires name in f.rs
    ensures WorldOf(f, name).r == f.rs[name] && WorldOf(f, name).s == f.s
  {
  }

  /** A turn changes the sources in the turn's upstream only. */
  ghost predicate OnlyAt(before: map<string, Source>, after: map<string, Source>, name: string) {
    forall n :: n != name ==> (n in after <==> n in before) && (n in before ==> after[n] == before[n])
  }

  lemma TickKeepsOrder(setup: Setup, f: Fleet, name: string, env: Env)
    requires KeptApart(setup) && name in setup.cfgs && name in f.rs && Orderly(setup, f.s)
    requires name in setup.pipelines
    ensures var after := Tick(setup.cfgs[name], setup.pipelines[name], WorldOf(f, name), env);
            Orderly(setup, after.s) && OnlyAt(f.s.sources, after.s.sources, name)
  {
    hide *;
    TickByOutcome(setup, f, name, env);
    RemovalKeepsOrder(setup, f.s, name);
    WorldParts(f, name);
    var attempt := Prepare(setup.cfgs[name], setup.pipelines[name], WorldOf(f, name).r, env);
    if attempt.Ready? {
      var built := attempt.snapshot.built;
      UpdateKeepsOrder(setup, f.s, name, built.entries, built.root);
      UpdatedOnlyAt(f.s.sources, name, Source(built.entries, built.root));
    }
    UpdatedOnlyAt(f.s.sources, name, Source([], None));
  }

  lemma UpdatedOnlyAt(sources: map<string, Source>, name: string, src: Source)
    ensures OnlyAt(sources, sources[name := src], name) && OnlyAt(sources, sources - {name}, name)
    ensures OnlyAt(sources, sources, name)
  {
  }

  lemma SameKeys(setup: Setup)
    requires KeptApart(setup)
    ensures setup.cfgs.Keys == setup.pipelines.Keys
  {
  }

  /** A turn keeps the order and changes nothing of another upstream. */
  lemma TurnKeepsOrder(setup: Setup, f: Fleet, t: Turn)
    requires KeptApart(setup) && setup.cfgs.Keys == f.rs.Keys && Orderly(setup, f.s)
    ensures var after := TakeTurn(setup, f, t);
            && after.rs.Keys == f.rs.Keys && Orderly(setup, after.s)
            && forall n :: n != t.name ==>
                 && (n in f.rs ==> after.rs[n] == f.rs[n])
                 && (n in after.s.sources <==> n in f.s.sources)
                 && (n in f.s.sources ==> after.s.sources[n] == f.s.sources[n])
  {
    hide Tick, Orderly, KeptApart;
    SameKeys(setup);
    if t.name in f.rs {
      TickKeepsOrder(setup, f, t.name, t.env);
    }
  }

  /** An upstream's own turn keeps its reports true. */
  lemma OwnTurn(setup: Setup, f: Fleet, t: Turn, accepted: Source)
    requires KeptApart(setup) && setup.cfgs.Keys == f.rs.Keys && Orderly(setup, f.s)
    requires t.name in f.rs && ReportsTruly(setup, f, t.name, accepted)
    ensures var after := TakeTurn(setup, f, t);
            t.name in after.rs && ReportsTruly(setup, after, t.name, AcceptedAfter(setup, f, t, t.name, accepted))
  {
    TickByOutcome(setup, f, t.name, t.env);
    var attempt := Prepare(setup.cfgs[t.name], setup.pipelines[t.name], f.rs[t.name], t.env);
    assert setup.cfgs.Keys == setup.pipelines.Keys;
    hide Prepare, Publishes, Tick, Orderly, KeptApart, NamedFor, AfterUpdate, AfterRemove, UpdateSucceeds, Wrap32;
    RemovalKeepsOrder(setup, f.s, t.name);
    if attempt.Ready? {
      UpdateKeepsOrder(setup, f.s, t.name, attempt.snapshot.built.entries, attempt.snapshot.built.root);
    }
  }

  lemma TurnKeepsReports(setup: Setup, f: Fleet, t: Turn, name: string, accepted: Source)
    requires KeptApart(setup) && setup.cfgs.Keys == f.rs.Keys && Orderly(setup, f.s)
    requires name in f.rs && ReportsTruly(setup, f, name, accepted)
    ensures var after := TakeTurn(setup, f, t);
            && after.rs.Keys == f.rs.Keys && Orderly(setup, after.s)
            && ReportsTruly(setup, after, name, AcceptedAfter(setup, f, t, name, accepted))
  {
    TurnKeepsOrder(setup, f, t);
    if t.name == name {
      OwnTurn(setup, f, t, accepted);
    }
    hide TakeTurn, Orderly, KeptApart, NamedFor, Prepare, Publishes;
  }

  /** In every interleaved run, whatever the servers answer, the published registry is the
      build of the stored sources, and every refresher reports what is so of its upstream. */
  lemma {:induction false} AlwaysTrue(setup: Setup, f: Fleet, ts: seq<Turn>, name: string)
    requires KeptApart(setup) && setup.cfgs.Keys == f.rs.Keys && Orderly(setup, f.s)
    requires name in f.rs && name in f.s.sources && ReportsTruly(setup, f, name, f.s.sources[name])
    ensures var after := TakeTurns(setup, f, ts);
            && after.rs.Keys == f.rs.Keys && Orderly(setup, after.s)
            && ReportsTruly(setup, after, name, LastAccepted(setup, f, ts, name, f.s.sources[name]))
  {
    if ts != [] {
      var n := |ts| - 1;
      AlwaysTrue(setup, f, ts[..n], name);
      hide KeptApart, Orderly, ReportsTruly, TakeTurn, AcceptedAfter;
      TurnKeepsReports(setup, TakeTurns(setup, f, ts[..n]), ts[n], name,
                       LastAccepted(setup, f, ts[..n], name, f.s.sources[name]));
    }
  }

  lemma OnlyItsOwn(setup: Setup, s: State, name: string, accepted: Source, e: Entry)
    requires KeptApart(setup) && Orderly(setup, s) && NamedFor(setup, name, accepted.entries) && e in accepted.entries
    requires name in s.sources ==> s.sources[name] == accepted
    ensures s.published.Some?
    ensures name in s.sources ==> e.name in s.published.value.index && s.published.value.index[e.name] == e
    ensures name !in s.sources ==> e.name !in s.published.value.index
  {
    if name in s.sources {
      assert e in EntrySet(s.sources);
      IndexedAs(s.sources, e);
    } else {
      forall n, x | n in s.sources && x in s.sources[n].entries ensures x.name != e.name {
        NamesApart(setup, name, n, accepted.entries, s.sources[n].entries);
        assert e.name in NamesIn(accepted.entries) && x.name in NamesIn(s.sources[n].entries);
      }
      hide KeptApart, NamedFor;
      assert e.name !in SourceNames(s.sources);
    }
  }

  /** So in every such run IsHealthy tells of each refreshed upstream whether its tools are
      there. */
  lemma AllHealthyIffPresent(setup: Setup, f: Fleet, ts: seq<Turn>, name: string)
    requires KeptApart(setup) && setup.cfgs.Keys == f.rs.Keys && Orderly(setup, f.s)
    requires name in f.rs && name in f.s.sources && ReportsTruly(setup, f, name, f.s.sources[name])
    requires LastAccepted(setup, f, ts, name, f.s.sources[name]).entries != []
    ensures var after, accepted := TakeTurns(setup, f, ts), LastAccepted(setup, f, ts, name, f.s.sources[name]);
            && name in after.rs && after.s.published.Some?
            && (IsHealthy(setup.cfgs[name], after.rs[name]) <==>
                  forall e :: e in accepted.entries ==>
                    e.name in after.s.published.value.index && after.s.published.value.index[e.name] == e)
            && (!IsHealthy(setup.cfgs[name], after.rs[name]) <==>
                  forall e :: e in accepted.entries ==> e.name !in after.s.published.value.index)
  {
    AlwaysTrue(setup, f, ts, name);
    var after, accepted := TakeTurns(setup, f, ts), LastAccepted(setup, f, ts, name, f.s.sources[name]);
    assert accepted.entries[0] in accepted.entries;
    hide KeptApart, Orderly, NamedFor, TakeTurns, LastAccepted;
    forall e | e in accepted.entries
      ensures after.s.published.Some?
      ensures name in after.s.sources ==>
                e.name in after.s.published.value.index && after.s.published.value.index[e.name] == e
      ensures name !in after.s.sources ==> e.name !in after.s.published.value.index
    {
      OnlyItsOwn(setup, after.s, name, accepted, e);
    }
  }
}
