# mcp-auto, modelled and verified in Dafny

mcp-auto turns OpenAPI specs, commands and scripts into MCP tools and serves them, per
group, from one proxy. This project models the parts of it in which names, keys, files and
registries must agree with each other, and proves what each part promises. `dafny verify
dfyconfig.toml` checks all of it.

## The parts

**Live registry** (`Registry`, `ServerSync`, `IncrementalRebuild`, `ReloadSync`,
`SharedEndpoints`, `AcceptedConfigs`, `ServedTools`, `Manager`). A registry is built once by
a reload and rebuilt after every incremental change; a manager diffs the new registry
against the published one on one MCP server per endpoint. `Registry` and `Manager` follow
the Go code in its own form (loops over maps and slices, a class with fields) and are proved
equal to state machines over values; whole-run theorems are about those. `AcceptedConfigs`
and `ServedTools` say of a reload, in terms of the configuration alone, when it is accepted
and which tools and pages each server then has. The `Valid()` of the classes says that the
registry is well formed.

**Tool-result cache** (`Json`, `CanonicalJson`, `CacheKey`, `CachedDispatch`,
`CacheSubjects`). Arguments are printed as canonical JSON, joined with the tool's name and
the subject by colons, and hashed. The printer has a left inverse, the join is unambiguous,
and the cached dispatch repeats only what the uncached one answered; `CacheSubjects` says to
whom.

**Refresher** (`Refresh`, `OverlayPolling`, `RefreshHealth`, `RefreshTogether`,
`Refresher`). A ticker fetches the spec and the overlay conditionally, counts failures, and
removes or restores the upstream's tools in the manager; `RefreshTogether` lets the ticks of
several upstreams interleave.

**Requests** (`ArgNames`, `ArgumentTexts`, `RequestCompiler`, `JqText`, `JqExact`,
`UrlTemplate`, `UrlOrder`, `UrlParts`, `RequestChain`). Parameters and body properties get
argument names in three places, requests are compiled to jq text, evaluated into an
envelope, and substituted into a URL template. `JqText` has a reader for the part of jq that
the compiler writes, `JqExact` says exactly when a text reads back, and `RequestChain`
proves the chain from operation to text to envelope to path as a whole.

**Names and schemas** (`Naming`, `NameScan`, `NameContent`, `Conflicts`, `ToolBuild`,
`ToolEntries`, `RefreshLoss`, `SchemaGraph`, `Synthetic`, `SchemaValues`). Sanitizing and
conflict resolution of tool names, the build of an upstream's entries from its operations
and what a refresh makes of it, and the synthetic value generator over a schema graph that
may be cyclic. The passes over a name are compared with one scan of the identifier
(`NameScan`), from which `NameContent` reads off which letters a name keeps and what stays
apart.

**Operator and commands** (`ConfigGen`, `UpstreamWatch`, `Selection`, `ConfigMapSync`,
`Operator`, `ProxyObjects`, `PassOutcomes`, `Unsettled`, `AnnotatedServices`, `Shell`,
`ShellQuotes`, `EnvExpansion`, `LimitWriter`). The reconcile loop over a cluster store, what
a pass leaves there in terms of the proxy's own fields, and the quoting of command arguments
against a reader of shell words.

## Where the code differs from what its comments or its design suggest

The model follows the code. Each item names the lemma that states it, with the exact condition
where there is one.

- A failed `UpdateUpstream` is not rolled back (pkg/mcp/manager.go:766-771). The published
  registry is then no longer the build of the stored sources
  (`IncrementalRebuild.UpdateFullIffSuccess`). Until the failed upstream is removed
  (`RemovalRepairsFailedUpdate`) or updated again, removing another one does nothing, unless
  that one was all the failed entries clashed with: then the entries of the failed update
  are published (`RemovalAfterFailedUpdateIff`). A refresher whose removal does nothing
  reports itself degraded beside its published tools (`RefreshHealth.DegradedBesideTools`);
  with prefixes that keep names apart this never happens
  (`RefreshTogether.AllHealthyIffPresent`).
- The tool diff looks the old group up by name, the server by endpoint, and servers of
  endpoints that leave the configuration are never touched. A reload leaves the servers in
  step if and only if no endpoint leaves and each group that takes over an endpoint has,
  before or after, the tools and pages of the one it replaces (`ReloadSync.ReloadInStepIff`,
  `AlwaysInStepIff`); a renamed group can keep stale tools (`RenamedGroupKeepsStaleTool`).
  Groups may share an endpoint: their one server is as the last of them wants it if and only
  if nothing that another put there, or that was there, is left over
  (`SharedEndpoints.SharedServerIff`), and after a first reload it is as all of them want it
  only if they have one name or no tools (`FirstReloadInStepIff`). A group's own tool called
  `search_tools` is lost when search is switched off (`OwnSearchToolLost`).
- Upstreams of one name share one stored spec tree. The next incremental rebuild has the
  members of the reload, for all filters, if and only if every upstream with an entry that
  has a node has the tree stored under its name (`Registry.IncrementalMembersIff`,
  `SharedNameLosesMembers`). The operator joins namespace and name with a dash;
  `ConfigGen.UpstreamNamesCollide` says exactly when two upstreams get one name.
- A refreshed upstream's tools lose their rate limits, their caches, their pages and their
  circuit breaker: the refresher builds entries and an upstream without them
  (pkg/upstream/http/refresh.go:314-344, against pkg/upstream/http/builder.go:88-128 and
  pkg/mcp/manager.go:266-285). Besides, the spec's operations come out of Go maps in any
  order, on which `first_wins` depends (`ToolBuild.SurvivorsOrderFreeIff`). So refreshes of
  an unchanged spec never change anything if and only if the resolution is not `first_wins`
  or no name repeats, and no surviving tool has any of these settings
  (`RefreshLoss.RefreshKeepsEntriesIff`, `RefreshSwapsTools`, `RefreshLosesPolicies`).
- The comment at pkg/upstream/http/refresh.go:116-118 says that tools come back when the
  spec server recovers. A 304 tick with no overlay due is a success that republishes nothing
  (`RefreshHealth.DegradedAfterSuccessIff`, `DegradedForever`).
- Tools are removed when the failure count reaches the maximum, not when it exceeds it as
  the specification's AC-02.8 has it (`RefreshHealth.RemovedAtMultiples`).
- A 200 answer without an ETag keeps the old tag with the new bytes
  (`Refresh.SpecPairingKeptIff`, `AlwaysPairedIff`, `UntaggedSpecGoesStale`).
- A cache hit is answered before the group is checked (`CachedDispatch.HitHonoursGroupIff`,
  `CacheIsTransparentIff`, `HitOutsideGroup`). Two tools can share a key when one's name,
  with a colon behind it, starts the other's; `CacheKey.KeysCollideIff` has the exact
  condition, with each tool's per-user setting.
- A caller without a subject can get a subject's own result: one that was stored before
  `per_user` was switched on, over a persistent backend
  (`CacheSubjects.AnonymousGetsOlder`). It is the only way to get another's result from a
  cache that keeps them apart (`HitIsTheCallersOwn`).
- Sanitizing is idempotent if and only if names are lower-cased, or camel case is not
  expanded, or braces are not deleted (`Naming.IdempotentIff`).
- Distinct prefixes do not prevent conflicts. Two upstreams can get one tool name if and
  only if one's prefix and separator, cut to the maximum length, begin the other's
  (`Conflicts.SharedNameIff`; `NestedPrefixesCollide` and `LongPrefixesCollide` are
  examples).
- The input schema is derived before path-level parameters are merged in
  (`ArgNames.SchemaBeforeMergeIff`). A raw name can equal a suffixed one
  (`InjectiveIffNoClash`).
- Argument names are put into jq text without escaping (`JqText.AccessReadsBackIff`), and
  `%q` writes control characters in ways that jq does not know (`KeyReadsBackIff`). The text
  of a whole operation reads back if and only if neither happens
  (`JqExact.CompiledReadsBackIff`).
- The comments at pkg/upstream/command/command.go:322-324 and 374-375 call quoted arguments
  safe. They are outside quotes. In a template that quotes them again they read as
  themselves only between single quotes and only if no character is special
  (`ShellQuotes.ReadsAsItselfIff`); between double quotes a dollar sign, a backquote or a
  double quote in the value is live (`QuotedStaysIff`, `DollarInDoubleQuotes`).
- Nested braces in a path template make the result depend on map order
  (`UrlOrder.OrderIrrelevantIff`).
- The path is put behind the base URL as text. A query at the end of the base URL swallows
  it (`UrlParts.BaseQuerySwallowsPath`).
- A namespace that `matchNames` names twice is listed twice
  (`Selection.ListedOncePerMention`), so each of its upstreams with a prefix is reported as
  in conflict with itself (`Selection.TwiceNamedConflicts`).
- A pass that fails after the configuration was generated leaves the status as the last pass
  wrote it, reconciled condition included (`PassOutcomes.FailedPassLeaves`).
- A required numeric query parameter that is absent is sent as the text `null`, which
  `RequestCompiler.Routed` states as such.
- The file copy treats an empty source value as equal to a missing key, so the key is not
  always written (`ConfigMapSync.FileThereIff`). An MCPUpstream and an annotated Service of
  one namespace and name have one file. If their specs differ every reconciliation writes,
  for ever, and if all such values agree none writes again
  (`Unsettled.WritesForeverOrNever`, `PetsNeverSettle`).
- The required-only instance of a schema lacks required names that are no properties, which
  the full instance has as null (`Synthetic.SecondInstanceWithinFirst`).

## Reading the model

- Strings are sequences of Unicode characters. JSON numbers are the text that
  `encoding/json` prints for them. `Sha256Hex` is a constructor, so it is injective. A
  JSONPath filter is the set of nodes it selects in each spec tree.
- The spec-to-tools pipeline, number formatting, the template engine's printing of values
  other than strings, and URL parsing and encoding are function parameters.
- Methods of the manager and of the reconciler are atomic steps, as they are under the mutex
  and in one reconcile worker. For two methods of the manager this is an assumption of the
  model: `DispatchForGroup` releases the lock before it asks the cache and stores a result, and
  `Rebuild` builds the upstreams before it takes the lock.
- A ConfigMap without entries is read back without Data, as the API server returns it.

## Model

| member | source | states |
|---|---|---|
| CanonicalJson.CollectSortedKeys | pkg/cache/cache.go:98-102 | the keys in strictly increasing order, in whatever order the map yields them |
| CanonicalJson.MarshalSorted | pkg/cache/cache.go:95-141 | the buffer filled in loops is the canonical text of the value, independent of the order of any map |
| CanonicalJson.SortedUnique | pkg/cache/cache.go:98-102 | a set has one strictly sorted listing, so the canonical text depends on the value alone |
| CanonicalJson.ParseQuoted | pkg/cache/cache.go:109-114 | an escaped string followed by anything reads back as the string and the rest |
| CanonicalJson.ParsePrint | pkg/cache/cache.go:79-141 | a parser for JSON (RFC 8259) gives back every nested value from its canonical text, whatever follows it |
| CanonicalJson.PrintInjective | pkg/cache/cache.go:79-141 | equal canonical text means equal values |
| CacheKey.ComputeKey | pkg/cache/cache.go:62-75 | the key is the hash of tool, effective subject and canonical arguments joined by colons, the subject only if the policy is per user and it is not empty |
| CacheKey.NoSplit | pkg/cache/cache.go:62-75 | no canonical object text is some text, a colon, and another canonical object text |
| CacheKey.PreImageUnambiguous | pkg/cache/cache.go:62-75 | two pre-images are equal if and only if what stands before the arguments and the arguments are |
| CacheKey.HeadInjective | pkg/cache/cache.go:62-75 | for tool names that do not nest (neither starts the other with a colon behind it) the part before the arguments determines tool and subject, whatever the subject contains |
| CacheKey.KeyUnambiguous | pkg/cache/cache.go:62-75 | two calls share a key if and only if head text and arguments are equal; for tool names that do not nest, if and only if tool, effective subject and arguments are equal |
| CacheKey.KeysCollideIff | pkg/cache/cache.go:62-75 | some calls of two different tools share a key if and only if the shorter name with a colon starts the longer one and the shorter tool is cached per user, the longer too if nothing follows the colon |
| CacheKey.NestedHasColon | pkg/cache/cache.go:62-75 | tool names nest only if one of them has a colon |
| Registry.IndexEntries | pkg/upstream/registry.go:130-145 | indexing succeeds if and only if all tool names are distinct, and then holds exactly the entries |
| Registry.CompileFilters | pkg/upstream/registry.go:147-158 | compiling succeeds if and only if every filter is valid, and each group finds its own filter |
| Registry.GroupTools | pkg/upstream/registry.go:161-200 | a group's members are the tools of its upstreams that its filter selects or that have no node, listed in registry order |
| Registry.FilterKeepsOrder | pkg/upstream/registry.go:195-202 | filtering keeps the order: of two lists in a row, one after the other |
| Registry.BuildGroups | pkg/upstream/registry.go:160-203 | the table of all groups' members and lists, later groups of one name over earlier ones |
| Registry.CheckPrefixes | pkg/upstream/registry.go:120-128 | accepts if and only if no two upstreams share a prefix |
| Registry.New | pkg/upstream/registry.go:110-206 | succeeds if and only if prefixes and tool names are distinct and filters valid, and yields exactly the view of the upstreams |
| Registry.Enumerate | pkg/upstream/registry.go:233-236 | the stored upstreams in whatever order the map yields them, each once |
| Registry.NewFromEntries | pkg/upstream/registry.go:214-318 | succeeds if and only if the stored sources can be built, and yields a view that does not depend on map order |
| Registry.SameConflicts | pkg/upstream/registry.go:234-256 | whether there is a conflict does not depend on the order in which the map yields the upstreams |
| Registry.IncrementalEqualsFull | pkg/upstream/registry.go:110-318 | where each upstream has the spec tree stored under its name, rebuilding from the entries of a reload gives the same index and the same members, and succeeds when the reload did |
| Registry.IncrementalMembersIff | pkg/upstream/registry.go:110-318 | for all upstream lists and all filters, the stored state has the members of the reload if and only if every upstream with an entry that has a node has the spec tree stored under its name |
| Registry.DistinctNamesAgree | pkg/upstream/registry.go:130-131 | upstreams of distinct names meet that condition |
| Registry.SharedNameLosesMembers | pkg/upstream/registry.go:130-131 | an instance: two upstreams of one name with different trees, and a filtered member that drops out |
| Registry.SubsetBuildable | pkg/upstream/registry.go:214-318 | dropping an upstream never makes the rest unbuildable |
| ServerSync.DiffReachesExpected | pkg/mcp/manager.go:472-621 | diffing takes the server that matches the old registry to the one that matches the new registry: tools, current definitions and limits, search tool, pages |
| ServerSync.StepKeepsInvariant | pkg/mcp/manager.go:201-813 | every reload, update and removal, failing or not, keeps all servers in step with the published registry |
| ServerSync.ServersFollowRegistry | pkg/mcp/manager.go:472-813 | in every run whose groups keep fixed (name, endpoint) pairs with distinct endpoints each server holds exactly its group's published tools, the search tool if and only if search is on, and exactly the UI pages of tools that have one |
| IncrementalRebuild.UpdateFullIffSuccess | pkg/mcp/manager.go:757-772 | after an update the published registry is the build of the stored sources if and only if the update succeeded, which it does if and only if the new entries have distinct names that no other stored upstream has; a failed update leaves its entries stored |
| IncrementalRebuild.RemoveNeverFails | pkg/mcp/manager.go:777-793 | from such a state a removal never fails and publishes the build of the remaining sources |
| IncrementalRebuild.SmoothRunsAreFull | pkg/mcp/manager.go:757-813 | in every run with no failed update the published registry is the full rebuild of the stored sources and no removal fails |
| IncrementalRebuild.RemovalRepairsFailedUpdate | pkg/mcp/manager.go:766-793 | removing the upstream whose update failed restores that state |
| IncrementalRebuild.RemovalAfterFailedUpdateIff | pkg/mcp/manager.go:766-793 | after a failed update, removing a third upstream succeeds if and only if the failed entries fit beside all others, and then publishes them; else it changes nothing |
| IncrementalRebuild.FailedUpdateBlocksRemovals | pkg/mcp/manager.go:766-793 | so while the failed entries clash with one upstream, removing any other changes nothing |
| ReloadSync.DiffExact | pkg/mcp/manager.go:486-616 | for any server contents, the diff reaches the tools that the new registry asks for if and only if every tool held belongs to the old or new group of that name or is a search tool being managed |
| ReloadSync.PagesExact | pkg/mcp/manager.go:706-752 | and the pages if and only if every page held belongs to the old or new group of that name |
| ReloadSync.ReloadInStepIff | pkg/mcp/manager.go:201-752 | from servers in step, an accepted reload leaves them in step if and only if no endpoint leaves the configuration and the group that takes over an endpoint has, before or after, the tools and pages of the one it replaces |
| ReloadSync.AlwaysInStepIff | pkg/mcp/manager.go:201-813 | the servers are in step throughout a run of reloads, updates and removals if and only if each accepted reload meets that condition |
| ReloadSync.KeptNamesHandOver | pkg/mcp/manager.go:486-616 | a reload that keeps every group's name at its endpoint meets it, whatever becomes of the tools |
| SharedEndpoints.HeldIff | pkg/mcp/manager.go:486-598 | a name is left on a shared server if and only if it was there, or some group there has it, and no later group there loses it |
| SharedEndpoints.SharedServerIff | pkg/mcp/manager.go:472-621 | whatever was held before, the server of an endpoint ends up as its last group wants it if and only if every tool and page left there is one of that group's |
| SharedEndpoints.FirstReloadSharedIff | pkg/mcp/manager.go:472-621 | after a first reload: if and only if every other group there has only tools of the last one |
| SharedEndpoints.SameWantedIff | pkg/mcp/manager.go:494-598 | two groups of an endpoint want the same server if and only if they have one name or no tools |
| SharedEndpoints.FirstReloadInStepIff | pkg/mcp/manager.go:201-621 | a first reload, whatever endpoints its groups have, leaves the servers in step if and only if groups that share one have one name or no tools |
| AcceptedConfigs.AcceptsIff | pkg/mcp/manager.go:201-336 | a reload is accepted if and only if limits can be enforced, the store opens where caches are configured, every enabled upstream can be built and names only limits, breakers and caches that exist, prefixes and tool names are apart, and every filter is valid |
| AcceptedConfigs.LoadedUpstreams | pkg/mcp/manager.go:215-285 | exactly the enabled upstreams that can be built are loaded, in their order, with their breaker before every entry |
| ServedTools.ConfiguredGroupsServe | pkg/mcp/manager.go:472-752 | after a reload that leaves the servers in step the groups are the configured ones, and each server has exactly the tools that the group's upstreams have and its filter lets through, under their own limits, the search tool if search is on, and the pages of those that have one |
| ServedTools.DefaultGroupServesAll | pkg/mcp/manager.go:293-305 | without configured groups there is one server, at `/mcp`, whose tools are those of all upstreams, each dispatching for the group `default` under its own limit |
| ServedTools.FirstReloadServes | pkg/mcp/manager.go:201-403 | a first reload with distinct endpoints leaves the servers in step |
| ReloadSync.RenamedGroupKeepsStaleTool | pkg/mcp/manager.go:494-511 | a run of two reloads after which a group renamed at its endpoint still serves the old group's tool |
| ReloadSync.OwnSearchToolLost | pkg/mcp/manager.go:604-617 | a group's own `search_tools` disappears when search goes off and is shadowed while it is on |
| Manager.DiffTools | pkg/mcp/manager.go:486-598 | removes exactly the tools that left the group and registers every current one |
| Manager.ApplyResourcesLocked | pkg/mcp/manager.go:706-752 | removes exactly the UI pages that left and registers every current one |
| Manager.CheckReferences | pkg/mcp/manager.go:313-336 | accepts if and only if every entry's rate limit and cache exist |
| Manager.BuildUpstreams | pkg/mcp/manager.go:215-285 | the enabled upstreams, built in order and given their circuit breakers, if and only if every limit and breaker they name exists and each can be built |
| Manager.NewUpstreamStates | pkg/mcp/manager.go:367-374 | the stored state of each upstream is its entries and spec tree in the new registry |
| Manager.BuildSearchState | pkg/mcp/manager.go:407-444 | a search tool for exactly the endpoints of the groups when search is on |
| Manager.GroupsOfConfig | pkg/mcp/manager.go:293-305 | the configured groups, or one default group of all upstreams that were built |
| Manager.GroupListIsMembers | pkg/upstream/registry.go:195-202 | a group's tool list names exactly its members, each with the definition of its indexed entry |
| Manager.Manager.constructor | pkg/mcp/manager.go:89-97 | a new manager has no servers, no registry and an empty cache |
| Manager.Manager.ApplyRegistryLocked | pkg/mcp/manager.go:472-621 | the loop over the groups brings every server to the diffed state and publishes the registry |
| Manager.Manager.Rebuild | pkg/mcp/manager.go:201-403 | accepts a configuration if and only if all its checks hold, and is the reload step of the state machine; on rejection nothing changes |
| Manager.Manager.RebuildFromStateLocked | pkg/mcp/manager.go:797-813 | succeeds if and only if the stored sources can be built, and then republishes them |
| Manager.Manager.UpdateUpstream | pkg/mcp/manager.go:757-772 | is the update step: on failure the new entries stay stored and the old registry published |
| Manager.Manager.RemoveUpstream | pkg/mcp/manager.go:777-793 | is the removal step: on failure everything is as before |
| Manager.Manager.DispatchForGroup | pkg/mcp/manager.go:149-195 | is the cached dispatch: look up, else dispatch and store what may be stored |
| Manager.RegistryDispatch | pkg/upstream/registry.go:361-374 | unknown groups, tools outside the group and unknown tools are refused, others get the executor's outcome |
| CachedDispatch.StoreAlwaysExplained | pkg/mcp/manager.go:149-195 | in every run, over reloads too, the store and every persistent backend hold only results without error that an uncached dispatch returned earlier under the same key |
| CachedDispatch.EventsAreDispatches | pkg/mcp/manager.go:170-195 | every logged dispatch is the registry's own answer to that call at that moment of the run |
| CachedDispatch.HitsRepeatEarlierResults | pkg/mcp/manager.go:149-195 | every hit repeats a successful result given earlier for the same tool, equal arguments and, if per user, the same subject, as long as no tool called before nests with it |
| CachedDispatch.CacheIsTransparentIff | pkg/mcp/manager.go:149-195 | in every run in which a cached tool's outcome depends only on tool, arguments and, if per user, subject, the answer is the uncached one if and only if it is no hit for a tool outside the call's group |
| CachedDispatch.HitHonoursGroupIff | pkg/mcp/manager.go:149-170 | a hit is what the registry would answer if and only if the tool is in the group of the call |
| CachedDispatch.HitOutsideGroup | pkg/mcp/manager.go:149-170 | a run in which a call through a group without the tool is answered from the cache |
| CacheSubjects.HitIsTheCallersOwn | pkg/mcp/manager.go:149-195 | every hit repeats what an earlier call of the tool with equal arguments was answered; if the cache keeps results apart, a call by the same subject, or else the caller has no subject and the result dates from when it did not |
| CacheSubjects.SharedIffNotKeptApart | pkg/mcp/manager.go:166-195 | the equal call of a subject gets what a call before it was answered, unless results are kept apart and the subjects differ; then it gets what it would have got without that call |
| CacheSubjects.NotCachedNotStored | pkg/mcp/manager.go:155-165 | a tool that names no configured cache is neither answered from the store nor stored |
| CacheSubjects.OnlyMembersRun | pkg/upstream/registry.go:361-374 | without a cached result the tool runs if and only if it is a member of the call's group; every other call, and every call before a reload, is an error and changes nothing |
| CacheSubjects.BackendOutlivesReload | pkg/mcp/manager.go:376-401 | a reload forgets a store in memory, and finds again what a persistent backend holds, whatever reloads came between |
| CacheSubjects.AnonymousGetsOlder | pkg/cache/cache.go:62-75 | a run in which a caller without a subject gets a subject's result from a cache that keeps results apart |
| Refresh.TickIsCurrent | pkg/upstream/http/refresh.go:154-221 | one tick keeps the snapshot equal to the pipeline on the spec the server holds and the overlay as last polled |
| Refresh.ConditionalRefinesPlain | pkg/upstream/http/refresh.go:154-259 | in every run with tags that identify bytes and that keeps bytes and tags paired, each successful tick gives what unconditional fetches would |
| Refresh.SpecPairingKeptIff | pkg/upstream/http/refresh.go:154-201 | exactly when a tick keeps the snapshot's bytes paired with their tags |
| Refresh.AlwaysPairedIff | pkg/upstream/http/refresh.go:154-259 | bytes and tags stay paired throughout a run if and only if no tick publishes new bytes without a tag beside an old tag |
| Refresh.SteadyTagsKeepPairing | pkg/upstream/http/refresh.go:154-201 | a server that sends tags always, or never, keeps them paired |
| Refresh.UntaggedSpecGoesStale | pkg/upstream/http/refresh.go:154-201 | with tags sent only sometimes a successful tick can keep a stale spec |
| OverlayPolling.PolledWhenOver | pkg/upstream/http/refresh.go:224-259 | a successful tick after the overlay's interval is over, or with none, has the bytes that the overlay server holds, and counts the interval from its end |
| OverlayPolling.NotPolledWithin | pkg/upstream/http/refresh.go:224-234 | within the interval a tick does not depend on the overlay server and keeps the overlay |
| OverlayPolling.OverlayNeverOlder | pkg/upstream/http/refresh.go:154-259 | in every run the overlay after a successful tick is the one its server held at the tick that fetched it last, no longer ago than the interval, or the one at the start |
| RefreshHealth.FlagAlwaysTruthful | pkg/upstream/http/refresh.go:95-145 | at every tick boundary the published registry is the other upstreams plus, if and only if the flag is down, the entries last accepted; the failure count stays below a positive maximum |
| RefreshHealth.AlwaysHealthyIffPresent | pkg/upstream/http/refresh.go:89-145 | in every run of ticks IsHealthy holds if and only if the entries last accepted are published, and fails if and only if none of them is |
| RefreshHealth.DegradedBesideTools | pkg/upstream/http/refresh.go:104-124 | beside another upstream's failed update the flag goes up whether or not the removal does anything, and exactly when it does |
| RefreshTogether.UpdateKeepsOrder | pkg/mcp/manager.go:757-772 | with entries named from prefixes whose cut stems do not begin one another, no update fails |
| RefreshTogether.AlwaysTrue | pkg/upstream/http/refresh.go:89-145 | so in every run of several refreshers' ticks in any order the published registry is the build of the stored sources, and each upstream is stored, with the entries last accepted, exactly while it is not degraded |
| RefreshTogether.AllHealthyIffPresent | pkg/upstream/http/refresh.go:89-145 | and IsHealthy holds of each if and only if its tools are published |
| RefreshHealth.DegradedAfterSuccessIff | pkg/upstream/http/refresh.go:162-214 | a successful tick leaves the flag up if and only if it was up and the tick was a 304 with no overlay due |
| RefreshHealth.DegradedForever | pkg/upstream/http/refresh.go:104-123 | a degraded upstream without overlay never comes back while the server keeps answering 304 |
| RefreshHealth.CounterIsStreakModulo | pkg/upstream/http/refresh.go:104-123 | the counter is the length of the current streak of failures modulo the maximum |
| RefreshHealth.RemovedAtMultiples | pkg/upstream/http/refresh.go:104-123 | in every run tools are removed exactly where the streak reaches a multiple of the maximum |
| RefreshHealth.RemovalsCounted | pkg/upstream/http/refresh.go:104-123 | the total is the sum over the maximal runs of failures of the length divided by the maximum |
| RefreshHealth.NeverRemoved | pkg/upstream/http/refresh.go:104-123 | with no positive maximum, or one the 32-bit counter cannot reach, tools are never removed |
| Refresher.Refresher.ShouldRefreshOverlay | pkg/upstream/http/refresh.go:224-234 | an overlay is due if and only if one is configured and its interval has passed |
| Refresher.Refresher.FetchOverlayBytes | pkg/upstream/http/refresh.go:240-259 | the new overlay and tag, or the kept ones on a 304, or nothing on failure |
| Refresher.Refresher.RefreshOnce | pkg/upstream/http/refresh.go:154-221 | one cycle is the modelled one: the snapshot advances only after the manager accepted the entries |
| Refresher.Refresher.OnTick | pkg/upstream/http/refresh.go:99-124 | the loop body is the modelled tick, with its effects on the manager |
| Refresher.Refresher.Healthy | pkg/upstream/http/refresh.go:136-145 | reports the modelled health |
| Refresher.Refresher.Loop | pkg/upstream/http/refresh.go:89-127 | the ticker loop over any stretch of ticks is the run of modelled ticks |
| ArgNames.Collect | pkg/openapi/inputschema.go:24-45 | for every name the places it occurs at, in order, whatever order the body's map yields |
| ArgumentTexts.ArgumentIs | pkg/openapi/inputschema.go:24-59 | an argument has the raw name if that stands at one place only, a parameter that is no cookie or the body; otherwise the place is added to it |
| ArgNames.DeriveArgMapping | pkg/openapi/inputschema.go:24-58 | maps exactly the occurring (place, name) pairs, each to its argument name |
| ArgNames.ArgNameOfMapping | pkg/openapi/inputschema.go:15-20 | looking a pair up gives its argument name, or the raw name where it does not occur |
| ArgNames.DeriveInputSchema | pkg/openapi/inputschema.go:70-143 | the schema's keys are the arguments, and required exactly those of required occurrences |
| ArgNames.BuildSyntheticSchema | pkg/openapi/validator.go:239-284 | the same for the third copy, with the cookies' raw names besides |
| ArgNames.MergeParams | pkg/openapi/generator.go:160-182 | in-place merging: operation parameters replace path parameters of one name and place, the rest are appended, and places stay distinct |
| ArgNames.MapKeyInjective | pkg/openapi/inputschema.go:15-20 | the joined key of the mapping determines place and name |
| ArgNames.CopiesAgree | pkg/openapi/inputschema.go:24-143 | the three copies name the same arguments, the third if and only if every cookie's name is an argument, and require the same ones, the third if and only if every required cookie's name is a required argument |
| ArgNames.AbsentPropertiesShow | pkg/openapi/inputschema.go:24-143 | with body properties whose schema is absent, and names free of clashes, the input schema names the mapped arguments if and only if there are none |
| ArgNames.InjectiveIffNoClash | pkg/openapi/inputschema.go:24-58 | the mapping is injective if and only if no raw name equals another's suffixed name |
| ArgNames.SchemaBeforeMergeIff | pkg/openapi/generator.go:75-110 | the schema derived before merging names the merged operation's arguments if and only if every path-level parameter outside the cookies is replaced |
| RequestCompiler.CollectEntries | pkg/openapi/request_jq.go:37-80 | the entries of one place, in order, each with the expression its place and type call for |
| RequestCompiler.GenerateRequest | pkg/openapi/request_jq.go:38-112 | the compiled sections: path, query, body and headers, those without entries left out |
| RequestCompiler.RunRequest | pkg/transform/engine.go:71-119 | the envelope decoded from the jq result, nulls dropped and other values written as text |
| RequestCompiler.EnvelopeDecodes | pkg/transform/engine.go:71-119 | of any transform's output: null is an empty request; otherwise it must be an object whose three maps, where they are there, are objects or null; values that are not null become texts, and the body is passed on |
| RequestCompiler.CompiledRequestRoutes | pkg/openapi/request_jq.go:18-122 | for every operation with distinct places and every argument map, evaluating the compiled request puts each argument under exactly its place and name, and nothing anywhere else |
| JqText.GenerateRequestJq | pkg/openapi/request_jq.go:18-122 | the operation's own request transform verbatim if it is not empty, or else the text of a compiled program of the operation |
| JqText.KeyReadsBackIff | pkg/openapi/request_jq.go:126-131 | a key reads back as the name if and only if Go's quoting of it is known to jq |
| JqText.AccessReadsBackIff | pkg/openapi/request_jq.go:136-141 | an access reads back as the argument's name if and only if the name is an identifier or has no quote and no backslash |
| JqExact.TextMeansProgramIff | pkg/openapi/request_jq.go:18-141 | the text of a program reads back as exactly that program if and only if every key and every argument name in it reads back |
| JqExact.CompiledReadsBackIff | pkg/openapi/request_jq.go:18-141 | the text compiled from an operation does if and only if every name that is compiled, and its argument name, does |
| JqText.CompiledTextRoutes | pkg/openapi/request_jq.go:18-122 | from operation to text to envelope: for all names that can be read back, cookies aside, the compiled text, read and evaluated, routes every argument |
| UrlTemplate.SegmentFaithful | pkg/upstream/http/executor.go:363 | percent-decoding an inserted segment gives back the value's UTF-8 bytes, different values give different segments, and no segment has a brace, slash, question mark or hash |
| UrlTemplate.ParseFacts | pkg/upstream/http/executor.go:361-364 | every template is its placeholders and single characters, and renders without values as itself |
| UrlTemplate.ReplaceFills | pkg/upstream/http/executor.go:362-364 | replacing one placeholder throughout fills exactly the holes of that name |
| UrlTemplate.OrderFree | pkg/upstream/http/executor.go:361-364 | for a template whose stray braces cannot form a placeholder, any order of substitution equals simultaneous substitution |
| UrlOrder.OrderIrrelevantIff | pkg/upstream/http/executor.go:361-364 | the order of substitution is irrelevant, for all values with brace-free names, if and only if no stray opening brace of the template has a stray closing brace after it |
| UrlOrder.StrayPairDependsOnOrder | pkg/upstream/http/executor.go:361-364 | from any such pair of stray braces, values and two orders with different results |
| UrlOrder.FillBetween | pkg/upstream/http/executor.go:362-364 | replacing a placeholder fills the text between two stray braces and leaves them standing |
| UrlTemplate.FillPath | pkg/upstream/http/executor.go:361-364 | the loop over the map is a substitution in some order, and for such templates the simultaneous one |
| UrlTemplate.SetQuery | pkg/upstream/http/executor.go:371-378 | exactly the entries that are not empty replace those of the base URL |
| UrlTemplate.BuildUpstreamURL | pkg/upstream/http/executor.go:360-382 | the URL of the filled path with the overlaid query; an unparsable one is an error |
| UrlParts.LeadsToPath | pkg/upstream/http/executor.go:360-382 | behind a base URL without a query, a flat template without one leads to exactly the base and the filled path, whatever the values, with the envelope's entries that are not empty as query |
| UrlParts.PathQueryStays | pkg/upstream/http/executor.go:371-379 | entries in the path's own query stay unless the envelope has them, too |
| UrlParts.BaseQuerySwallowsPath | pkg/upstream/http/executor.go:366-369 | a query at the end of the base URL takes in the whole path |
| RequestChain.TextToPath | pkg/upstream/http/executor.go:361-364 | from operation to text to envelope to path: the compiled text, read and evaluated, fills the template, in whatever order, with the escaped texts of the path arguments, and leaves no brace if and only if every placeholder is a path parameter's |
| Naming.CamelExpansion | pkg/openapi/naming.go:23-33 | the two passes only insert underscores and leave no lower-or-digit before a capital and no two capitals before a lower-case letter |
| Naming.SanitizeClean | pkg/openapi/naming.go:116-147 | output over the allowed characters, lower-case and without double underscores where the rules say so, no underscore at an end |
| Naming.IdempotentIff | pkg/openapi/naming.go:116-147 | sanitizing twice is sanitizing once, for every identifier, if and only if the rules lower-case, or do not expand camel case, or do not delete braces |
| Naming.BraceHidesHump | pkg/openapi/naming.go:122-130 | an identifier that changes again for every other setting |
| Naming.SlugifySharesRules | pkg/openapi/naming.go:46-73 | a slug is the verb and the path sanitized without camel-case expansion |
| NameScan.TidySpells | pkg/openapi/naming.go:52-71 | the passes after camel-case expansion equal one scan of the text: its letters and digits in order, between them as many underscores as the text between comes to, at most one if they are collapsed |
| NameContent.CamelBreaks | pkg/openapi/naming.go:23-33 | the two passes put an underscore exactly before each capital that follows a small letter or digit, or follows a capital and comes before a small letter |
| NameContent.NameKeepsLetters | pkg/openapi/naming.go:116-147 | a sanitized name has exactly the letters and digits of the identifier, in its order; a capital becomes the small letter of its place in the alphabet if names are lower-cased |
| NameContent.NameKeepsApart | pkg/openapi/naming.go:116-147 | two of them stand apart in the name if and only if something other than deleted braces stood between them, or camel case breaks there |
| NameContent.SlugKeepsLetters | pkg/openapi/naming.go:46-93 | a slug is the verb of the method and, behind an underscore, the letters and digits of the path |
| NameContent.SlugKeepsApart | pkg/openapi/naming.go:46-73 | they stand apart in it if and only if something other than deleted braces stood between them |
| Conflicts.PrefixedNameFacts | pkg/openapi/naming.go:170-185 | a name is never longer than a positive maximum, and begins with prefix and separator if they leave room |
| ToolEntries.NameIsCutText | pkg/openapi/naming.go:170-185 | a tool's name is the text of prefix, separator and base name, cut to the maximum length |
| Conflicts.DetectConflicts | pkg/openapi/naming.go:209-273 | error, first_wins, skip or an unknown resolution, as specified |
| Conflicts.FirstWinsFacts | pkg/openapi/naming.go:236-253 | no name twice and no name lost |
| Conflicts.SkipFacts | pkg/openapi/naming.go:255-268 | exactly the tools whose name occurs once survive |
| Conflicts.SurvivorsUnrepeated | pkg/openapi/naming.go:209-273 | whatever the resolution, survivors have distinct names and were there before |
| Conflicts.FilterSurvivors | pkg/openapi/generator.go:134-153 | the loops keep the tools whose name, path and method survived, in their order |
| Conflicts.FilteredFacts | pkg/openapi/generator.go:134-153 | what is kept has distinct names, is exactly what survived, and is everything if no name was repeated |
| Conflicts.SharedNameIff | pkg/openapi/naming.go:170-185 | two prefixes can lead to one tool name if and only if one of their stems, cut to the maximum length, begins the other |
| Conflicts.NoCrossConflicts | pkg/upstream/registry.go:130-145 | if no cut stem begins another, all tool names of all upstreams are distinct and neither constructor reports a conflict |
| ToolBuild.GenerateTools | pkg/openapi/generator.go:46-156 | a tool for each enabled operation under the name its prefix gives, in some order of the maps, then conflict resolution and the filter |
| ToolBuild.SurvivorsOrderFreeIff | pkg/openapi/generator.go:50-153 | the same tools survive whatever order the maps yield if and only if the resolution is not `first_wins` or no two enabled operations get one name |
| ToolBuild.Build | pkg/upstream/http/builder.go:38-135 | for some order of the operations, the entries of a built upstream: a tool's own limit and cache before the upstream's, and its page; an error if a surviving tool fails validation or its page cannot be loaded |
| ToolBuild.BuildRefreshed | pkg/upstream/http/refresh.go:279-360 | for some order of the operations, the entries that a refresh builds, without limit, cache, page and breaker |
| ToolBuild.BuiltIsNamedBy | pkg/openapi/generator.go:46-156 | whatever the operations, their order and the resolution, the entries of a build and of a refresh have distinct names made from the prefix |
| ToolEntries.FirstGetsIff | pkg/openapi/naming.go:236-253 | under `first_wins` an enabled operation gets a tool if and only if none before it in the order has its name |
| ToolEntries.BuiltEntriesAre | pkg/upstream/http/builder.go:66-134 | a build succeeds if and only if the names can be resolved and every operation that gets a tool passes validation and has its page; its entries are those operations, with their own limit and cache before the upstream's |
| ToolEntries.RefreshedEntriesAre | pkg/upstream/http/refresh.go:279-358 | the same of a refresh, without pages, limits and caches |
| ToolBuild.BuiltTogether | pkg/upstream/registry.go:130-145 | upstreams built from any specs, whose cut stems do not begin one another, load without conflict and stay rebuildable |
| RefreshLoss.RefreshKeepsEntriesIff | pkg/upstream/http/refresh.go:279-358 | refreshes of an unchanged spec, each in any order, give the loaded entries if and only if the resolution is not `first_wins` or no name repeats, and no surviving tool has a limit, a cache, a page or a breaker |
| RefreshLoss.RefreshSwapsTools | pkg/openapi/generator.go:50-51 | two operations of one name without any of these: loaded in one order and refreshed in the other, the one tool is swapped for the other |
| RefreshLoss.RefreshLosesPolicies | pkg/upstream/http/refresh.go:314-358 | once refreshed entries are published, no tool of theirs is limited, cached, served a page or guarded by a breaker |
| Conflicts.NestedPrefixesCollide | pkg/openapi/naming.go:170-185 | an instance: one prefix continues the other by the separator |
| Conflicts.LongPrefixesCollide | pkg/openapi/naming.go:170-185 | an instance: both prefixes fill the maximum length |
| SchemaGraph.BrokenIffReturns | pkg/openapi/synthetic.go:22-29 | a walk stops at exactly the schemas where some path from its root first returns to a marked schema |
| SchemaGraph.BreaksIffCyclic | pkg/openapi/synthetic.go:22-29 | it stops early if and only if some followed path from the root meets a schema twice; sharing is no cycle |
| Synthetic.Run.Generate | pkg/openapi/synthetic.go:17-80 | for every finite graph it terminates, leaves the visited map as it was, yields the specified value, and warns about exactly the schemas where it stops |
| Synthetic.Run.GenerateMarked | pkg/openapi/synthetic.go:31-108 | example, x-example, default, enum, oneOf, anyOf, allOf and type, in this order of priority |
| Synthetic.Run.MergeAll | pkg/openapi/synthetic.go:61-76 | allOf merges the parts that are objects, later fields over earlier ones |
| Synthetic.Run.GenerateObject | pkg/openapi/synthetic.go:157-177 | every property with its schema's value, and null for required names that are no properties |
| Synthetic.Run.GenerateArray | pkg/openapi/synthetic.go:179-192 | as many elements as the minimum, at least one |
| Synthetic.VisitedIrrelevant | pkg/openapi/synthetic.go:17-29 | where no cycle is broken the visited map has no influence on the value |
| Synthetic.GeneratesCompositionally | pkg/openapi/synthetic.go:17-108 | on an acyclic graph the value is made of the followed schemas' own values, as if there were no visited map |
| Synthetic.DepthBounded | pkg/openapi/synthetic.go:17-192 | a value nests no deeper than there are schemas, besides what given values add; only the mark of a broken cycle can add one more |
| Synthetic.CycleCostsOne | pkg/openapi/synthetic.go:22-29 | an object whose one property is itself nests deeper than its one schema |
| SchemaValues.SchemaMeans | pkg/openapi/synthetic.go:17-192 | a schema's value by its fields: its example, else its `x-example`, its default, its first enumerated value, its first `oneOf`, its first `anyOf`, its parts merged with later fields first, and only then by its type |
| Synthetic.GenerateRequiredOnly | pkg/openapi/synthetic.go:227-262 | exactly the properties that are required, each generated with a fresh visited map |
| Synthetic.GenerateThreeInstances | pkg/openapi/synthetic.go:198-224 | the full instance, the required-only one, and one for each alternative |
| Synthetic.SecondInstanceWithinFirst | pkg/openapi/synthetic.go:198-262 | without cycles the second instance of an object schema is the first cut down to its required properties |
| SchemaValues.RequiredInstance | pkg/openapi/synthetic.go:227-262 | the second instance has exactly the required properties of an object, and is the schema's own value if it has none and is none |
| SchemaValues.OneForEachVariant | pkg/openapi/synthetic.go:213-224 | one instance for each alternative in their order, empty ones skipped |
| SchemaValues.InstancesOfAlternatives | pkg/openapi/synthetic.go:211-224 | the alternatives are those of `oneOf`, or without any those of `anyOf` |
| ConfigGen.Generate | pkg/operator/configgen/generator.go:137-209 | a configuration if and only if every upstream can be built, in order, with the default port for zero, and the naming, limit, telemetry and authentication sections of the proxy, empty ones left out |
| ConfigGen.BuiltAt | pkg/operator/configgen/generator.go:190-198 | the n-th upstream of the configuration is the n-th upstream, built |
| ConfigGen.FileKeyInjective | pkg/operator/controller/mcpproxy_controller.go:236 | upstreams with one file are one upstream, as namespaces have no underscore |
| ConfigGen.UpstreamNamesCollide | pkg/operator/configgen/generator.go:212-217 | two upstreams get one name if and only if they are one, or the text after a dash in one's namespace stands before a dash in the other's name |
| UpstreamWatch.ListUpstreams | pkg/operator/controller/mcpproxy_controller.go:136-159 | per namespace the upstreams whose labels match, an error for an invalid selector |
| UpstreamWatch.ProxiesForUpstream | pkg/operator/controller/mcpproxy_controller.go:933-969 | the proxies with a valid selector that matches in one of their namespaces, each once |
| UpstreamWatch.TriggerExact | pkg/operator/controller/mcpproxy_controller.go:136-159 | an upstream's change triggers exactly the proxies whose list of upstreams has it |
| Selection.ListedAre | pkg/operator/controller/mcpproxy_controller.go:136-159 | a proxy has exactly the upstreams of its namespaces, its own if it names none, whose labels meet every requirement; the selector is an error exactly if one lists no values |
| Selection.ListedOncePerMention | pkg/operator/controller/mcpproxy_controller.go:142-157 | an upstream is listed as often as its namespace is named |
| Selection.ListsInOrder | pkg/operator/controller/mcpproxy_controller.go:147-157 | namespace by namespace |
| Selection.KeepsListOrder | pkg/operator/controller/mcpproxy_controller.go:147-157 | each in the order of the list |
| Selection.TwiceNamedConflicts | pkg/operator/controller/mcpproxy_controller.go:136-159 | an upstream with a prefix whose namespace is named twice is in conflict with itself |
| UpstreamWatch.DetectPrefixConflicts | pkg/operator/controller/mcpproxy_controller.go:707-736 | one conflict for each upstream whose prefix an earlier one has, with the kind of both |
| UpstreamWatch.ConflictsIff | pkg/operator/controller/mcpproxy_controller.go:707-736 | a conflict is reported if and only if two upstreams share a prefix that is not empty |
| Selection.ConflictsAre | pkg/operator/controller/mcpproxy_controller.go:707-736 | each upstream that is not the first of its prefix has one conflict, with the first, in the order of the upstreams and with the kind of both |
| ConfigMapSync.UpsertFacts | pkg/operator/controller/mcpproxy_controller.go:261-296 | an upsert changes one key of one map, which then reads as the value, and writes nothing if and only if it did before |
| ConfigMapSync.AllUpToDate | pkg/operator/controller/mcpproxy_controller.go:203-259 | after a successful pass every file reads as its source's value, if copies into one file agree |
| ConfigMapSync.SecondPassIff | pkg/operator/controller/mcpproxy_controller.go:203-296 | a second pass writes nothing if and only if copies into one file have one value |
| ConfigMapSync.FileThereIff | pkg/operator/controller/mcpproxy_controller.go:261-288 | a file's key is there if and only if it was before, or its value is not empty, or it is the first copy into an empty map |
| Operator.Cluster.ReconcileConfigMap | pkg/operator/controller/mcpproxy_controller.go:162-198 | the configuration is written unless it is already the only content |
| Operator.Cluster.UpsertConfigMap | pkg/operator/controller/mcpproxy_controller.go:261-296 | is the modelled upsert |
| Operator.Cluster.ReconcileUpstreamConfigMaps | pkg/operator/controller/mcpproxy_controller.go:203-259 | the loop makes exactly the copies of the upstreams that are no commands, in order, up to the first failure |
| Operator.BuildDeployment | pkg/operator/controller/mcpproxy_controller.go:325-464 | defaults, and the volumes and mounts of the maps that are needed |
| Operator.Cluster.ReconcileDeployment | pkg/operator/controller/mcpproxy_controller.go:299-323 | the Deployment is created or replaced unless its spec is the desired one |
| Operator.Cluster.ReconcileService | pkg/operator/controller/mcpproxy_controller.go:467-493 | only ports and selector are compared and written, other fields kept |
| Operator.Cluster.ReconcileHTTPRoute | pkg/operator/controller/mcpproxy_controller.go:779-823 | created, updated, or deleted without a gateway; an error where routes are wanted but unknown to the cluster |
| Operator.Cluster.UpdateStatus | pkg/operator/controller/mcpproxy_controller.go:533-593 | counts, generation and both conditions, written unless the compared ones are current |
| Operator.Cluster.Reconcile | pkg/operator/controller/mcpproxy_controller.go:56-133 | the whole pass is the modelled one, including what was written before an error |
| Operator.SettledIff | pkg/operator/controller/mcpproxy_controller.go:56-133 | a pass writes nothing if and only if every object and every file is what it should be |
| ProxyObjects.PassWritesTheProxy | pkg/operator/controller/mcpproxy_controller.go:56-133 | after a successful pass Deployment, Service, Route, status and configuration carry the proxy's own fields: image, replicas and resources, one port in all of them, gateway and hostname, the counts and the generation, whether two upstreams share a prefix, and each upstream's address and sources |
| ProxyObjects.UpstreamDescribed | pkg/operator/configgen/generator.go:212-330 | an upstream is configured with the address of its Service, or else its own, and with the mounted file, the URL or the discovered place of its spec |
| ProxyObjects.AddressesDiffer | pkg/operator/configgen/generator.go:281-291 | Services whose names and namespaces are DNS labels have different addresses |
| PassOutcomes.ConfigIff | pkg/operator/configgen/generator.go:190-301 | a configuration is generated if and only if every command has commands, and every other upstream an address and a place for its spec |
| PassOutcomes.FailedPassLeaves | pkg/operator/controller/mcpproxy_controller.go:56-133 | a failed pass changes nothing over the selector, takes back the status over an upstream that cannot be built, writes only ConfigMaps over a missing source, and all but Route and status where routes are unknown |
| PassOutcomes.PassKeepsOther | pkg/operator/controller/mcpproxy_controller.go:467-493 | a Service's other fields outlive every pass, and a proxy that is gone is left alone |
| Operator.ReconcileSettlesIff | pkg/operator/controller/mcpproxy_controller.go:56-133 | after a successful pass another writes nothing if and only if copies into one file agree |
| Operator.ReconcileReachesFixpoint | pkg/operator/controller/mcpproxy_controller.go:56-133 | with distinct upstreams and sources the proxy does not own, a successful pass followed by another writes nothing |
| Operator.NamedSpecsHold | pkg/operator/configgen/generator.go:295-301 | the spec file that the configuration names is in a mounted map and reads as the source's value |
| Operator.NamedOverlaysHold | pkg/operator/configgen/generator.go:318-323 | the same of overlays |
| Operator.OthersStaySettled | pkg/operator/controller/mcpproxy_controller.go:56-133 | reconciling one proxy does not unsettle another |
| Operator.NeverWritesAgain | pkg/operator/controller/mcpproxy_controller.go:56-133 | in every run of requests, once a proxy has been reconciled successfully no later request for it writes anything |
| Unsettled.RefReadsBack | pkg/operator/controller/annotations.go:180-189 | a reference of two parts that are not empty, the first without a colon, is read back from its text |
| AnnotatedServices.AcceptedIff | pkg/operator/controller/annotations.go:66-132 | a Service stands for an upstream if and only if it has a prefix and a port, exactly one source of its spec, and readable references |
| AnnotatedServices.ServiceIsConfigured | pkg/operator/controller/annotations.go:66-152 | every such Service can be built into the configuration, with its prefix, its address and base path, its spec where the annotation says, and its overlay |
| Unsettled.DoneIff | pkg/operator/controller/mcpproxy_controller.go:56-133 | a pass succeeds if and only if the selector is valid, every upstream can be configured, every source is there, and HTTPRoutes are known if one is asked for |
| Unsettled.WritesForeverOrNever | pkg/operator/controller/mcpproxy_controller.go:56-133 | in every run of requests, after one success every later request for the proxy succeeds; none of them writes if copies into one file agree, and every one writes if not |
| Unsettled.TwoSourcesDisagree | pkg/operator/controller/mcpproxy_controller.go:203-259 | copies disagree as soon as two upstreams of one namespace and name have specs whose sources differ |
| Unsettled.PetsNeverSettle | pkg/operator/controller/annotations.go:66-152 | a cluster with an MCPUpstream and an annotated Service of one name whose reconciliations all succeed and all write |
| Shell.QuotedReads | pkg/upstream/command/command.go:376-378 | outside quotes the shell reads a quoted text as exactly that text, added to the word being read |
| Shell.QuoteRoundTrip | pkg/upstream/command/command.go:376-378 | a list of quoted words joined by blanks reads back as the list |
| Shell.ShellSafeValue | pkg/upstream/command/command.go:333-352 | the recursion with its loops wraps exactly the string leaves |
| Shell.SafeKeepsValue | pkg/upstream/command/command.go:333-352 | wrapping loses and changes nothing |
| Shell.SafeKeepsShape | pkg/upstream/command/command.go:333-352 | the same places exist, and a leaf is quoted if and only if it was a string |
| Shell.TemplateMeans | pkg/upstream/command/command.go:358-372 | with string arguments outside quotes, or plain ones between single quotes, the shell reads a rendered command as the template means it |
| ShellQuotes.ReadsAsItselfIff | pkg/upstream/command/command.go:376-378 | wherever the reader is, a quoted text adds just its characters and leaves the reader there if and only if it is outside quotes, or between single quotes and all characters are plain |
| ShellQuotes.QuotedStaysIff | pkg/upstream/command/command.go:376-378 | between double quotes a quoted text stays between them if and only if it has no double quote, dollar sign or backquote that is not escaped |
| ShellQuotes.DollarInDoubleQuotes | pkg/upstream/command/command.go:358-372 | the template `"{{.x}}"` with a value that starts with a dollar sign: the value is not read as text |
| EnvExpansion.ExpandBraced | pkg/upstream/command/command.go:268-272 | the fast path for values without a dollar sign agrees with the loop |
| EnvExpansion.ExpandLoop | pkg/upstream/command/command.go:272-307 | the indexed loop is the recursive expansion, with the same error |
| EnvExpansion.ExpandSource | pkg/upstream/command/command.go:268-307 | expansion replaces exactly the references |
| EnvExpansion.ExpandsIff | pkg/upstream/command/command.go:268-307 | a value is accepted if and only if it is characters, references to set variables, and perhaps a final dollar sign |
| LimitWriter.KeptStep | pkg/upstream/command/command.go:424-437 | one write extends what is kept by as much as the limit leaves |
| LimitWriter.ReachedIsKept | pkg/upstream/command/command.go:424-437 | never more than the limit is passed on, and over a buffer exactly the first bytes of the output are |
| LimitWriter.Writer.Write | pkg/upstream/command/command.go:424-437 | however output is cut into writes and whatever the writer behind takes, of each write the bytes that the limit leaves are passed on, every write reports its full length, and an error is passed on |

## Left out

- HTTP, TLS, Redis, Postgres, file watching, telemetry, token counting, embeddings and search ranking: I/O or library behaviour.
- The circuit breaker, the rate limiter, the pools, and expiry and eviction in the cache: libraries; a Get is a value stored under that key or a miss. Other processes that write to a shared cache backend.
- The JS and Lua runtimes, UI rendering, the Caddy module, authentication and cryptography.
- YAML, overlay application, OpenAPI parsing and response validation; jq beyond what the compiler writes, so what a request transform of one's own does.
- What building an upstream gives is part of the configuration of a reload (`ToolBuild` models the build of HTTP upstreams).
- Manager.Manager.Rebuild: whether the rate limit enforcer and the cache store can be created is given with the configuration, as these are libraries.
- The registry's by-prefix index and its separator, which the modelled functions only write; nil entries and nil tools.
- ServerSync.ServersFollowRegistry: requires fixed (name, endpoint) pairs, because without them it is false; ReloadSync.AlwaysInStepIff has the exact condition.
- ServedTools.ConfiguredGroupsServe: requires groups of distinct names and no tool called `search_tools`; of groups of one name the later members count (Registry.BuildGroups).
- AnnotatedServices.ServiceIsConfigured: ports are natural numbers; an annotation may hold a negative one.
- ReloadSync.ReloadInStepIff: requires distinct endpoints in the new configuration and no tool called `search_tools`; SharedEndpoints.SharedServerIff says exactly what a shared server comes to, and OwnSearchToolLost what becomes of such a tool.
- JqExact.TextMeansProgramIff: characters beyond ASCII are taken to be printable; section names are identifiers, as the compiler's are.
- UrlTemplate.OrderFree: requires names without braces; which templates qualify is exact (UrlOrder.OrderIrrelevantIff).
- UrlTemplate.BuildUpstreamURL: parsing and encoding of URLs are parameters.
- UrlParts.LeadsToPath: takes the library to split a text without fragment at its first question mark and to read back the queries it encodes, as Go's net/url does but for escaping that it normalises.
- Synthetic.Run.Generate: strings and numbers, some of them random in the source, are taken to be one value per schema; warnings are a set, not a sequence.
- Truncation of descriptions: an easy member. Slug rules on characters beyond ASCII are those on any other character that is no letter or digit.
- API failures of the cluster other than missing objects and kinds, defaulting of Deployment and Service fields, owner references, and transition times of conditions.
- Which annotated Services a proxy finds is given with the proxy; `Unsettled` models how one is converted, given the port it exposes.
- Operator.NeverWritesAgain: proxies, upstreams and source ConfigMaps do not change during the run.
- Shell.QuotedReads: covers quoting and literal text; expansions, operators and reserved words stop the reader. A NUL character cannot be passed to a command at all.
- Shell.TemplateMeans: templates of text and field references; pipelines, conditionals and map keys printed by the engine are not modelled.
