/** Which configurations a reload accepts, and what it loads of them, in terms of the configured
    upstreams (pkg/mcp/manager.go:201-403). */
module AcceptedConfigs {
  import opened Json
  import opened Registry
  import opened ServerSync

  /** The upstream as it is loaded: built, with its breaker before every entry if it has one. */
  ghost predicate LoadsAs(c: UpstreamConfig, u: Upstream) {
    && c.enabled && c.built.Some?
    && u.name == c.name && u.toolPrefix == c.toolPrefix && u.root == c.built.value.root
    && |u.entries| == |c.built.value.entries|
    && (forall i :: 0 <= i < |u.entries| ==> Breaks(c.built.value.entries[i], c.circuitBreaker, u.entries[i]))
  }

  predicate Breaks(e: Entry, breaker: string, guarded: Entry) {
    guarded == if breaker == "" then e else e.(breaker := breaker)
  }

  /** Every enabled upstream that can be built is loaded, and no other, in their order. */
  lemma {:induction false} LoadedUpstreams(configured: seq<UpstreamConfig>) returns (at: seq<nat>)
    ensures var ups := BuiltUpstreams(configured);
            && |at| == |ups|
            && (forall k :: 0 <= k < |at| ==> at[k] < |configured| && LoadsAs(configured[at[k]], ups[k]))
            && (forall k, l :: 0 <= k < l < |at| ==> at[k] < at[l])
            && (forall i :: 0 <= i < |configured| && configured[i].enabled && configured[i].built.Some? ==> i in at)
  {
    if configured == [] {
      at := [];
    } else {
      var n := |configured| - 1;
      var c := configured[n];
      var before := LoadedUpstreams(configured[..n]);
      var ups := BuiltUpstreams(configured[..n]);
      if c.enabled && c.built.Some? {
        var u := Upstream(c.name, c.toolPrefix, Guarded(c.built.value.entries, c.circuitBreaker), c.built.value.root);
        assert BuiltUpstreams(configured) == ups + [u];
        LoadedAs(c, u);
        hide LoadsAs, BuiltUpstreams;
        at := before + [n];
      } else {
        assert BuiltUpstreams(configured) == ups + [] == ups;
        hide LoadsAs, BuiltUpstreams;
        at := before;
      }
    }
  }

  lemma LoadedAs(c: UpstreamConfig, u: Upstream)
    requires c.enabled && c.built.Some?
    requires u == Upstream(c.name, c.toolPrefix, Guarded(c.built.value.entries, c.circuitBreaker), c.built.value.root)
    ensures LoadsAs(c, u)
  {
  }

  /** The upstream is enabled, and what it names is there. */
  predicate Sound(c: UpstreamConfig, config: Config) {
    c.enabled ==>
      && c.built.Some?
      && (c.rateLimit != "" ==> c.rateLimit in config.rateLimits)
      && (c.circuitBreaker != "" ==> c.circuitBreaker in config.circuitBreakers)
      && forall e :: e in c.built.value.entries ==> Resolves(e, config)
  }

  /** The limit and the cache that the entry names, if any, are configured. */
  predicate Resolves(e: Entry, config: Config) {
    && (e.rateLimit != "" ==> e.rateLimit in config.rateLimits)
    && (e.cacheName != "" ==> e.cacheName in config.caches)
  }

  predicate IsEntry(configured: seq<UpstreamConfig>, i: int, e: Entry) {
    0 <= i < |configured| && Loads(configured[i]) && e in configured[i].built.value.entries
  }

  predicate Loads(c: UpstreamConfig) {
    c.enabled && c.built.Some?
  }

  /** Of the upstreams that load, no two have one prefix. */
  ghost predicate PrefixesApart(configured: seq<UpstreamConfig>) {
    forall i, j :: 0 <= i < j < |configured| && Loads(configured[i]) && Loads(configured[j]) ==>
      configured[i].toolPrefix != configured[j].toolPrefix
  }

  /** No two tools of upstreams that load have one name. */
  ghost predicate ToolsApart(configured: seq<UpstreamConfig>) {
    && (forall i :: 0 <= i < |configured| && Loads(configured[i]) ==> DistinctNames(configured[i].built.value.entries))
    && (forall i, j :: 0 <= i < j < |configured| && Loads(configured[i]) && Loads(configured[j]) ==>
          NoneShared(configured[i].built.value.entries, configured[j].built.value.entries))
  }

  ghost predicate NoneShared(a: seq<Entry>, b: seq<Entry>) {
    forall e, f :: e in a && f in b ==> e.name != f.name
  }

  lemma {:induction false} EntriesLoaded(configured: seq<UpstreamConfig>)
    ensures forall e :: e in Flat(BuiltUpstreams(configured)) ==> exists i, x :: Guards(configured, i, x, e)
    ensures forall i, x :: 0 <= i < |configured| && Loads(configured[i]) && x in configured[i].built.value.entries ==>
              exists e :: e in Flat(BuiltUpstreams(configured)) && Guards(configured, i, x, e)
  {
    if configured != [] {
      var n := |configured| - 1;
      var init, c := configured[..n], configured[n];
      EntriesLoaded(init);
      var before := BuiltUpstreams(init);
      hide Guards;
      if Loads(c) {
        var u := Upstream(c.name, c.toolPrefix, Guarded(c.built.value.entries, c.circuitBreaker), c.built.value.root);
        assert BuiltUpstreams(configured) == before + [u];
        assert Flat(before + [u]) == Flat(before) + u.entries by {
          assert (before + [u])[..|before|] == before;
        }
        forall e | e in u.entries ensures exists i, x :: Guards(configured, i, x, e) {
          var k :| 0 <= k < |u.entries| && u.entries[k] == e;
          GuardsHere(configured, n, k);
        }
        forall x | x in c.built.value.entries ensures exists e :: e in u.entries && Guards(configured, n, x, e) {
          var k :| 0 <= k < |c.built.value.entries| && c.built.value.entries[k] == x;
          GuardsHere(configured, n, k);
          assert u.entries[k] in u.entries;
        }
      } else {
        assert BuiltUpstreams(configured) == before + [] == before;
      }
      forall e | e in Flat(before) ensures exists i, x :: Guards(configured, i, x, e) {
        var i, x :| Guards(init, i, x, e);
        GuardsOn(configured, i, x, e);
      }
      forall i, x | 0 <= i < n && Loads(configured[i]) && x in configured[i].built.value.entries
        ensures exists e :: e in Flat(before) && Guards(configured, i, x, e)
      {
        assert init[i] == configured[i];
        var e :| e in Flat(before) && Guards(init, i, x, e);
        GuardsOn(configured, i, x, e);
      }
    }
  }

  /** The entry is one of the `i`-th upstream, behind its breaker. */
  ghost predicate Guards(configured: seq<UpstreamConfig>, i: int, x: Entry, e: Entry) {
    && 0 <= i < |configured| && Loads(configured[i]) && x in configured[i].built.value.entries
    && Breaks(x, configured[i].circuitBreaker, e)
  }

  lemma GuardsOn(configured: seq<UpstreamConfig>, i: int, x: Entry, e: Entry)
    requires configured != [] && Guards(configured[..|configured| - 1], i, x, e)
    ensures Guards(configured, i, x, e)
  {
  }

  lemma GuardsHere(configured: seq<UpstreamConfig>, n: nat, k: nat)
    requires n < |configured| && Loads(configured[n]) && k < |configured[n].built.value.entries|
    ensures var c := configured[n];
            Guards(configured, n, c.built.value.entries[k], Guarded(c.built.value.entries, c.circuitBreaker)[k])
  {
  }

  lemma ReferencesIff(config: Config)
    requires forall c :: c in config.upstreams && c.enabled ==> c.built.Some?
    ensures ReferencesResolve(Flat(config.Built()), config.rateLimits, config.caches) <==>
            forall i, e :: IsEntry(config.upstreams, i, e) ==> Resolves(e, config)
  {
    EntriesLoaded(config.upstreams);
    var entries := Flat(config.Built());
    hide Flat, BuiltUpstreams, Guards;
    if ReferencesResolve(entries, config.rateLimits, config.caches) {
      forall i, x | IsEntry(config.upstreams, i, x) ensures Resolves(x, config) {
        var e :| e in entries && Guards(config.upstreams, i, x, e);
        GuardedBy(config.upstreams, i, x, e);
        SameReferences(x, e, config);
      }
    } else {
      var e :| e in entries && !Resolves(e, config);
      var i, x :| Guards(config.upstreams, i, x, e);
      GuardedBy(config.upstreams, i, x, e);
      SameReferences(x, e, config);
      assert IsEntry(config.upstreams, i, x);
    }
  }

  lemma SameReferences(x: Entry, e: Entry, config: Config)
    requires e.rateLimit == x.rateLimit && e.cacheName == x.cacheName
    ensures Resolves(x, config) <==> Resolves(e, config)
  {
  }

  lemma GuardedBy(configured: seq<UpstreamConfig>, i: int, x: Entry, e: Entry)
    requires Guards(configured, i, x, e)
    ensures 0 <= i < |configured| && Loads(configured[i]) && x in configured[i].built.value.entries && e.name == x.name
    ensures e.rateLimit == x.rateLimit && e.cacheName == x.cacheName
  {
  }

  lemma PrefixesIff(configured: seq<UpstreamConfig>)
    ensures PrefixesDistinct(BuiltUpstreams(configured)) <==>
            PrefixesApart(configured)
  {
    var at := LoadedUpstreams(configured);
    var ups := BuiltUpstreams(configured);
    hide BuiltUpstreams;
    assert forall k :: 0 <= k < |at| ==> Loads(configured[at[k]]) && ups[k].toolPrefix == configured[at[k]].toolPrefix;
    hide LoadsAs;
    if PrefixesDistinct(ups) {
      forall i, j | 0 <= i < j < |configured| && Loads(configured[i]) && Loads(configured[j])
        ensures configured[i].toolPrefix != configured[j].toolPrefix
      {
        var k :| 0 <= k < |at| && at[k] == i;
        var l :| 0 <= l < |at| && at[l] == j;
        assert k < l;
      }
    }
  }

  lemma NoneSharedIff(a: seq<Entry>, b: seq<Entry>)
    ensures NoneShared(a, b) <==> NamesIn(a) !! NamesIn(b)
  {
    if NamesIn(a) !! NamesIn(b) {
      forall e, f | e in a && f in b ensures e.name != f.name {
        assert e.name in NamesIn(a) && f.name in NamesIn(b);
      }
    }
  }

  lemma GuardedNames(entries: seq<Entry>, breaker: string, others: seq<Entry>)
    ensures var guarded := Guarded(entries, breaker);
            && (DistinctNames(guarded) <==> DistinctNames(entries))
            && (NoneShared(others, guarded) <==> NoneShared(others, entries))
  {
    var guarded := Guarded(entries, breaker);
    assert forall i :: 0 <= i < |entries| ==> guarded[i].name == entries[i].name;
    hide Guarded;
    forall e | e in entries ensures exists g :: g in guarded && g.name == e.name {
      var i :| 0 <= i < |entries| && entries[i] == e;
      assert guarded[i] in guarded;
    }
    forall g | g in guarded ensures exists e :: e in entries && g.name == e.name {
      var i :| 0 <= i < |entries| && guarded[i] == g;
      assert entries[i] in entries;
    }
  }

  ghost predicate NoneSharedBefore(init: seq<UpstreamConfig>, entries: seq<Entry>) {
    forall i :: 0 <= i < |init| && Loads(init[i]) ==> NoneShared(init[i].built.value.entries, entries)
  }

  lemma NamesBefore(init: seq<UpstreamConfig>, entries: seq<Entry>)
    ensures NoneShared(Flat(BuiltUpstreams(init)), entries) <==> NoneSharedBefore(init, entries)
  {
    EntriesLoaded(init);
    hide Flat, BuiltUpstreams, Guards;
    if NoneShared(Flat(BuiltUpstreams(init)), entries) {
      forall i, x, f | 0 <= i < |init| && Loads(init[i]) && x in init[i].built.value.entries && f in entries
        ensures x.name != f.name
      {
        var e :| e in Flat(BuiltUpstreams(init)) && Guards(init, i, x, e);
        GuardedBy(init, i, x, e);
      }
    } else {
      var e, f :| e in Flat(BuiltUpstreams(init)) && f in entries && e.name == f.name;
      var i, x :| Guards(init, i, x, e);
      GuardedBy(init, i, x, e);
    }
  }

  lemma ToolsApartStep(configured: seq<UpstreamConfig>)
    requires configured != []
    ensures var n := |configured| - 1;
            var init, c := configured[..n], configured[n];
            ToolsApart(configured) <==>
              ToolsApart(init) &&
              (Loads(c) ==> DistinctNames(c.built.value.entries)) &&
              (Loads(c) ==> NoneSharedBefore(init, c.built.value.entries))
  {
    hide DistinctNames, NoneShared;
    var n := |configured| - 1;
    var init := configured[..n];
    assert forall i :: 0 <= i < n ==> init[i] == configured[i];
    assert configured == init + [configured[n]];
  }

  lemma {:induction false} NamesIff(configured: seq<UpstreamConfig>)
    ensures DistinctNames(Flat(BuiltUpstreams(configured))) <==> ToolsApart(configured)
  {
    if configured != [] {
      var n := |configured| - 1;
      var init, c := configured[..n], configured[n];
      var before := BuiltUpstreams(init);
      NamesIff(init);
      ToolsApartStep(configured);
      if Loads(c) {
        var guarded := Guarded(c.built.value.entries, c.circuitBreaker);
        var u := Upstream(c.name, c.toolPrefix, guarded, c.built.value.root);
        assert BuiltUpstreams(configured) == before + [u];
        assert Flat(before + [u]) == Flat(before) + guarded by {
          assert (before + [u])[..|before|] == before;
        }
        hide *;
        DistinctConcat(Flat(before), guarded);
        NoneSharedIff(Flat(before), guarded);
        GuardedNames(c.built.value.entries, c.circuitBreaker, Flat(before));
        NamesBefore(init, c.built.value.entries);
      } else {
        assert BuiltUpstreams(configured) == before + [] == before;
      }
    }
  }

  /** A reload is accepted exactly if the limits can be enforced and the store opens where
      caches are configured, every enabled upstream is sound, prefixes and tool names are
      apart, and every configured group's filter is valid. */
  lemma AcceptsIff(config: Config)
    ensures Accepts(config) <==>
            && config.enforcerBuilt && (config.caches != map[] ==> config.storeOpens)
            && (forall c :: c in config.upstreams ==> Sound(c, config))
            && PrefixesApart(config.upstreams) && ToolsApart(config.upstreams)
            && (forall g :: g in config.groups ==> g.filter != BadFilter)
  {
    PrefixesIff(config.upstreams);
    NamesIff(config.upstreams);
    FiltersIff(config);
    SoundIff(config);
    hide PrefixesApart, ToolsApart, PrefixesDistinct, DistinctNames, FiltersValid, EffectiveGroups, UpstreamsValid,
         ReferencesResolve, Sound, Flat, BuiltUpstreams;
  }

  lemma FiltersIff(config: Config)
    ensures FiltersValid(EffectiveGroups(config)) <==> forall g :: g in config.groups ==> g.filter != BadFilter
  {
    hide BuiltUpstreams;
  }

  lemma SoundIff(config: Config)
    ensures (forall c :: c in config.upstreams ==> Sound(c, config)) <==>
            UpstreamsValid(config.upstreams, config.rateLimits, config.circuitBreakers) &&
            ReferencesResolve(Flat(config.Built()), config.rateLimits, config.caches)
  {
    if UpstreamsValid(config.upstreams, config.rateLimits, config.circuitBreakers) {
      ReferencesIff(config);
      hide Flat, BuiltUpstreams, ReferencesResolve;
      if forall c :: c in config.upstreams ==> Sound(c, config) {
        forall i, e | IsEntry(config.upstreams, i, e) ensures Resolves(e, config) {
          assert Sound(config.upstreams[i], config);
        }
      }
      if ReferencesResolve(Flat(config.Built()), config.rateLimits, config.caches) {
        forall c | c in config.upstreams ensures Sound(c, config) {
          var i :| 0 <= i < |config.upstreams| && config.upstreams[i] == c;
          if c.enabled {
            assert forall e :: e in c.built.value.entries ==> IsEntry(config.upstreams, i, e);
          }
        }
      }
    } else {
      hide Flat, BuiltUpstreams, ReferencesResolve;
    }
  }
}
