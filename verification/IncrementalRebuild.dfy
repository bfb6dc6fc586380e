/** Incremental updates against full reloads (pkg/mcp/manager.go), and exactly what goes
    wrong when an update fails. */
module IncrementalRebuild {
  import opened Json
  import opened Registry
  import opened ServerSync

  /** The published registry is the one a full build of the stored sources gives. */
  ghost predicate Full(s: State) {
    s.published.Some? ==>
      Buildable(s.sources, s.groups) && s.published.value == FullView(s.sources, s.groups)
  }

  ghost predicate Started(s: State) {
    (s.published.Some? <==> s.initialised) && (!s.initialised ==> s == Init)
  }

  lemma RebuildIsFull(s: State, config: Config)
    requires Full(s) && Started(s) && RootsAgree(config.Built())
    ensures Full(AfterRebuild(s, config)) && Started(AfterRebuild(s, config))
  {
    if Accepts(config) {
      IncrementalEqualsFull(config.Built(), EffectiveGroups(config));
    }
  }

  /** The entries' names are distinct and no stored upstream, apart from the given ones, has
      any of them. */
  ghost predicate Fits(s: State, entries: seq<Entry>, apart: set<string>) {
    && DistinctNames(entries)
    && forall n :: n in s.sources && n !in apart ==> NamesIn(entries) !! NamesIn(s.sources[n].entries)
  }

  /** From a full state, sources with one upstream's entries replaced and others dropped can
      be built if and only if the new entries fit beside what is left. */
  lemma ReplacedBuildable(s: State, name: string, entries: seq<Entry>, root: Option<nat>, dropped: set<string>)
    requires Full(s) && Started(s) && s.initialised && name !in dropped
    ensures Buildable(s.sources[name := Source(entries, root)] - dropped, s.groups) <==>
            Fits(s, entries, dropped + {name})
  {
    var left := s.sources[name := Source(entries, root)] - dropped;
    assert left[name].entries == entries;
    forall n | n in s.sources && n !in dropped + {name} ensures n in left && left[n] == s.sources[n] {
    }
  }

  /** After an update the published registry is the full build of the sources exactly when
      the new entries fit beside the other upstreams': a failed update leaves sources no
      registry can be built from. */
  lemma UpdateFullIffSuccess(s: State, name: string, entries: seq<Entry>, root: Option<nat>)
    requires Full(s) && Started(s) && s.initialised
    ensures Full(AfterUpdate(s, name, entries, root)) <==> UpdateSucceeds(s, name, entries, root)
    ensures UpdateSucceeds(s, name, entries, root) <==> Fits(s, entries, {name})
    ensures Started(AfterUpdate(s, name, entries, root))
    ensures !UpdateSucceeds(s, name, entries, root) ==>
              AfterUpdate(s, name, entries, root) == s.(sources := s.sources[name := Source(entries, root)])
  {
    ReplacedBuildable(s, name, entries, root, {});
    assert s.sources[name := Source(entries, root)] - {} == s.sources[name := Source(entries, root)];
    assert {} + {name} == {name};
  }

  lemma RemoveNeverFails(s: State, name: string)
    requires Full(s) && Started(s) && s.initialised
    ensures RemoveSucceeds(s, name)
    ensures Full(AfterRemove(s, name)) && Started(AfterRemove(s, name))
    ensures AfterRemove(s, name).published == Some(FullView(s.sources - {name}, s.groups))
  {
    SubsetBuildable(s.sources, name, s.groups);
  }

  /** In every reload of the run the upstreams' spec trees are those stored for their names,
      and no update fails. */
  ghost predicate Smooth(ops: seq<Op>) {
    forall i :: 0 <= i < |ops| ==>
      match ops[i]
      case Rebuild(config) => RootsAgree(config.Built())
      case UpdateUpstream(name, entries, root) =>
        Run(Init, ops[..i]).initialised ==> UpdateSucceeds(Run(Init, ops[..i]), name, entries, root)
      case RemoveUpstream(name) => true
  }

  /** In such a run the published registry is always the full build of the sources, and no
      removal fails. */
  lemma {:induction false} SmoothRunsAreFull(ops: seq<Op>)
    requires Smooth(ops)
    ensures Full(Run(Init, ops)) && Started(Run(Init, ops))
    ensures forall name :: Run(Init, ops).initialised ==> RemoveSucceeds(Run(Init, ops), name)
  {
    var s := Run(Init, ops);
    if ops != [] {
      var n := |ops| - 1;
      var before, op := Run(Init, ops[..n]), ops[n];
      forall i | 0 <= i < n ensures ops[..n][..i] == ops[..i] && ops[..n][i] == ops[i] {
      }
      SmoothRunsAreFull(ops[..n]);
      match op {
        case Rebuild(config) => RebuildIsFull(before, config);
        case UpdateUpstream(name, entries, root) =>
          if before.initialised {
            UpdateFullIffSuccess(before, name, entries, root);
          }
        case RemoveUpstream(name) =>
          if before.initialised {
            RemoveNeverFails(before, name);
          }
      }
    }
    forall name | s.initialised ensures RemoveSucceeds(s, name) {
      RemoveNeverFails(s, name);
    }
  }

  /** Removing the very upstream whose update failed repairs the sources. */
  lemma RemovalRepairsFailedUpdate(s: State, name: string, entries: seq<Entry>, root: Option<nat>)
    requires Full(s) && Started(s) && s.initialised && !UpdateSucceeds(s, name, entries, root)
    ensures var failed := AfterUpdate(s, name, entries, root);
            && failed.published == s.published
            && RemoveSucceeds(failed, name)
            && Full(AfterRemove(failed, name))
            && AfterRemove(failed, name).published == Some(FullView(s.sources - {name}, s.groups))
  {
    var failed := AfterUpdate(s, name, entries, root);
    SubsetBuildable(s.sources, name, s.groups);
    assert failed.sources - {name} == s.sources - {name};
  }

  /** After a failed update, removing another upstream succeeds if and only if that upstream
      was all the new entries clashed with. It then publishes the entries of the update that
      failed; otherwise it does nothing. */
  lemma RemovalAfterFailedUpdateIff(s: State, name: string, entries: seq<Entry>, root: Option<nat>, third: string)
    requires Full(s) && Started(s) && s.initialised && !UpdateSucceeds(s, name, entries, root) && third != name
    ensures var failed := AfterUpdate(s, name, entries, root);
            && (RemoveSucceeds(failed, third) <==> Fits(s, entries, {name, third}))
            && (RemoveSucceeds(failed, third) ==>
                  AfterRemove(failed, third).published ==
                  Some(FullView((s.sources - {third})[name := Source(entries, root)], s.groups)))
            && (!RemoveSucceeds(failed, third) ==>
                AfterRemove(failed, third) == failed && failed.published == s.published)
  {
    hide ApplyServers, Fits, FullView, Buildable, Full;
    ReplacedBuildable(s, name, entries, root, {third});
    assert {third} + {name} == {name, third};
    assert s.sources[name := Source(entries, root)] - {third} == (s.sources - {third})[name := Source(entries, root)];
  }

  /** So while a failed update's entries clash with another upstream's, removing a third
      upstream does nothing: its tools stay published and its sources stay stored. */
  lemma FailedUpdateBlocksRemovals(s: State, name: string, entries: seq<Entry>, root: Option<nat>, other: string,
                                   third: string)
    requires s.initialised && other in s.sources && other != name && third != name && third != other
    requires !(NamesIn(entries) !! NamesIn(s.sources[other].entries))
    ensures !UpdateSucceeds(s, name, entries, root)
    ensures var failed := AfterUpdate(s, name, entries, root);
            !RemoveSucceeds(failed, third) && AfterRemove(failed, third) == failed
  {
    var updated := s.sources[name := Source(entries, root)];
    assert updated[name].entries == entries && updated[other] == s.sources[other];
    var left := updated - {third};
    assert left[name].entries == entries && left[other] == s.sources[other];
  }
}
