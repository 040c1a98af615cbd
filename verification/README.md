# greentic-operator: verified model

A Dafny 4.11 model of seven components of greentic-operator, with proofs of what they guarantee over
every input, every history and every interleaving. `dafny verify dfyconfig.toml` checks everything.

- **Plan runner** (`WorkerPool.dfy`): the sequential branch, and the thread pool as a transition system.
  A worker step is one critical section or one item run; a schedule is any sequence of live workers.
  Items may succeed, fail or panic. A panic ends its thread and the join ignores it, so with as many
  panicking items as workers the end of the plan is reached and its beginning may be left behind; the
  proofs say exactly which part, independently of the schedule, and exactly when the two branches agree.
- **Event bus** (`EventBus.dfy`, `EventHistory.dfy`): publish, match, retry, delivery log, dead-letter log
  and replay. Schemas, JSON pointers, the runner and the disk are oracles, the latter two indexed by how
  often they were asked, so every behaviour of theirs is covered. Identifiers are numbers from a supply.
- **Static routes** (`RoutePaths.dfy`, `RouteTable.dfy`, `RouteValidation.dfy`): the validator works on path
  strings, the matcher on segments after a sort. The proofs bridge the two and say where the textual check
  falls short: placeholders, empty segments, reserved space and mixed scopes.
- **Capability registry** (`Registry.dfy`, `RegistryProperties.dfy`): a sorted index per capability beside a
  globally sorted view, shown to agree on ties. The ordered map is an ascending list of groups.
- **Provider registry cache** (`Slugs.dfy`, `ProviderCache.dfy`): reference files, digest files and the index
  under fetches, resolutions and losses of files: right whenever names have distinct slugs, and with
  colliding names the exact condition under which a file still holds what was last fetched.
- **Secrets and setup answers** (`SecretNames.dfy`, `Secrets.dfy`, `SecretSeeding.dfy`, `PackConfig.dfy`):
  canonical names, URIs, seeding, aliases, the gate, run-time reads and the emitted pack-config input.
- **Cards** (`Cards.dfy`): the OAuth rewriter of adaptive cards and the start-marker detector.

`Sequences.dfy`, `StableSort.dfy` and `Text.dfy` hold the shared vocabulary. `StableSort.Sort` stands for the
library's stable `sort_by`; `StableSortIsUnique` shows that this is no choice.

Objects the source updates in place are classes whose methods are proved equal to functions of the old
state; the lemmas then speak about these functions. Where code and documentation differ the model follows
the code: the comment above `emit_pack_config_input` calls an empty config a no-op, while the code removes any
earlier file; the module comment of `secrets_setup.rs` says every required secret is registered, while with an
empty provider id the gate looks under another URI (`Secrets.GatePassesAfterEnsureIff`).

## Model

| member | source | states |
|---|---|---|
| WorkerPool.RunSequential | src/cli.rs:6116-6158 | the sequential branch runs exactly the plan up to and including the first item that ends it (a failure in strict mode, or a panic) and returns that verdict |
| WorkerPool.StepKeepsInv | src/cli.rs:6178-6210 | every worker step keeps: the queue is a prefix of the plan, the panicking items popped are held by as many doomed workers, the last pop was made by a pool with a worker to spare, and errors follow the finished items |
| WorkerPool.RunKeepsInv | src/cli.rs:6164-6211 | that invariant holds under every interleaving of any length |
| WorkerPool.RunConserves | src/cli.rs:6160-6211 | under every interleaving queue + in flight + finished stays the plan, counted for every item |
| WorkerPool.EveryRunIsBounded | src/cli.rs:6164-6215 | no interleaving takes more than three steps an item plus one a worker, so every run ends |
| WorkerPool.JoinedRun | src/cli.rs:6160-6217 | once all workers are joined the outcome does not depend on the interleaving: what is left in the queue, the multiset of items that ran (each once), the panicking items lost with their workers, and the multiset of errors are functions of the plan |
| WorkerPool.NothingLeftBehindIff | src/cli.rs:6178-6215 | every item of the plan is popped exactly when fewer items panic than there are workers, or the last worker is lost on the plan's first item |
| WorkerPool.JoinedVerdict | src/cli.rs:6217-6232 | the threaded verdict, with its failure count, is the same for every interleaving |
| WorkerPool.BranchesAgreeIff | src/cli.rs:6116-6232 | the sequential and the threaded branch give the same verdict, for both values of best effort, exactly when the sequential run does not crash on a panic and, if it stops at a failure, some failing item lies in the part of the plan the pool reaches |
| WorkerPool.BranchesAgreeWhenPanicsAreFew | src/cli.rs:6116-6232 | with fewer panicking items than workers the two branches differ only when the sequential one crashes; without panics they always agree |
| WorkerPool.BranchesCanDiffer | src/cli.rs:6116-6232 | a plan of three items on two workers for which the sequential branch reports the first item's error and the threaded branch reports success |
| WorkerPool.RunPlan | src/cli.rs:6092-6233 | the runner with an arbitrary scheduler terminates with the determined verdict |
| EventBus.EventLogs.DeliverTo | src/capability_events.rs:259-335 | the delivery loop body with its retry loop refines the one-delivery specification on all three logs, the identifier supply and the runner calls |
| EventBus.EventLogs.DeliverMatched | src/capability_events.rs:251-338 | the loop over matched subscriptions stops at the first error and otherwise counts every outcome |
| EventBus.EventLogs.PublishEventInternal | src/capability_events.rs:189-338 | publishing refines its specification: topic, schema, event append, matching, deliveries, in that order, aborting at the first error |
| EventBus.EventLogs.PublishEvent | src/capability_events.rs:94-112 | a publish is the internal publish without a filter |
| EventBus.EventLogs.ReplayEvent | src/capability_events.rs:114-171 | a replay looks up the dead letter first, then the event, and re-enters the publish path restricted to the letter's subscription |
| EventHistory.RetryMeaning | src/capability_events.rs:271-309 | the retry loop ends at the first success, at the first runner error, or after the maximum with the last error; all attempts before are failures |
| EventHistory.DeliverAddsAtMostOneRecord | src/capability_events.rs:259-335 | one delivery adds at most one record to the delivery log, and that record says exactly what the runner did |
| EventHistory.DeliverAllRecordsAPrefix | src/capability_events.rs:251-335 | whatever the result, aborted runs included, the records gained are faithful and belong to the first matched subscriptions in order; all of them on Ok, strictly fewer when a delivery was aborted |
| EventHistory.DeliverAllAddsOneRecordEach | src/capability_events.rs:245-337 | on Ok each matched subscription has one record, the attempts recorded add up to the runner calls, and the report counts them |
| EventHistory.PublishLogsTheEventIff | src/capability_events.rs:199-230 | an event is logged exactly when its topic is defined, its schema accepts the payload and the append succeeds; a rejected publish changes nothing |
| EventHistory.PublishAccounting | src/capability_events.rs:199-338 | on Ok matched = successful + failed, one faithful record per matched subscription in order, runner calls equal the sum of recorded attempts |
| EventHistory.HistoryLinked | src/capability_events.rs:189-338 | over every history of publishes and replays, aborted ones included, the logs only grow and the linking invariant is kept |
| EventHistory.EveryHistoryIsLinked | src/capability_events.rs:94-171 | from empty logs every history is linked and extends each of its beginnings |
| EventHistory.LinkedMeaning | src/capability_events.rs:227-335 | linked means: every delivery names a logged event; every dead letter holds a logged event and has an err delivery with its identifier, subscription, attempts and error; every replay event names a dead letter |
| EventHistory.HistoryLedger | src/capability_events.rs:306-335 | the dead letters are one for one and in order the failed deliveries exactly when no call ended with an unwritten dead letter; otherwise the surplus is the number of such calls |
| EventHistory.WorkingDiskKeepsInStep | src/capability_events.rs:306-335 | when every append succeeds, the dead letters are one for one and in order the failed deliveries over every history, whatever the runner and the schemas do |
| EventHistory.IdCounts | src/capability_events.rs:211-230 | over every history a random event identifier is logged at most once, and the identifier of a dead letter's replay once for each replay of it that was logged |
| EventHistory.EventIdsUniqueIff | src/capability_events.rs:114-230 | over every history event identifiers are unique exactly when no dead letter's replay was logged twice |
| EventHistory.IdsCanRepeat | src/capability_events.rs:114-230 | a publish to a failing subscription followed by two replays of its dead letter, after which two logged events share an identifier |
| EventHistory.UniqueIdFindsTheEvent | src/capability_events.rs:139-148 | with unique identifiers a search by identifier, as a replay by event does it, finds the event that has it |
| EventHistory.SameTopicAgain | src/capability_events.rs:199-210 | naming the event type of the topic found finds the same topic record, even if the first request named none |
| EventHistory.NewLetterOfPublish | src/capability_events.rs:199-335 | a new dead letter holds the envelope of its publish and names a subscription that publish matched |
| EventHistory.ReplayReachesTheSameSubscriptions | src/capability_events.rs:114-243 | a dead letter replayed at any later time against unchanged topics and subscriptions is found, resolves to the same topic record, passes its schema, and matches exactly the originally matched subscriptions with its subscription id: at least one, no others |
| RoutePaths.RequestSegmentsArePieces | src/static_routes.rs:193-197 | trimming, splitting and filtering a path gives its maximal slash-free pieces |
| RoutePaths.CanonicalIff | src/static_routes.rs:584-596 | a path equals the rendering of its segments exactly when it starts with a slash, does not end in one and has no empty segment |
| RoutePaths.TextPrefixIsSegmentPrefix | src/static_routes.rs:574-582 | on all paths a textual prefix is a segment prefix |
| RoutePaths.PrefixTestsAgree | src/static_routes.rs:574-582 | on canonical paths the textual prefix test is the segment prefix test, both ways |
| RoutePaths.NormalizeKeepsSegments | src/static_routes.rs:584-596 | normalization keeps the segments of the trimmed path |
| RoutePaths.NormalizeIdempotentIff | src/static_routes.rs:584-596 | normalizing twice equals normalizing once exactly when the trimmed path is empty or a single slash, or something other than slashes and whitespace comes right before its trailing slashes |
| RoutePaths.NormalizeCanChangeTwice | src/static_routes.rs:584-596 | a path that normalizing twice changes twice, because of whitespace before its trailing slash |
| RoutePaths.ParsedRenders | src/static_routes.rs:495-530 | parsed route segments render back to the segments of the path |
| RoutePaths.ParseInjective | src/static_routes.rs:495-530 | parsing is injective on canonical paths |
| RouteTable.ActiveRouteTable.FromPlan | src/static_routes.rs:141-150 | the table is a rearrangement of the plan, sorted by segment count descending and then public path, in which tied routes keep their plan order |
| RouteTable.ActiveRouteTable.MatchFirst | src/static_routes.rs:188-231 | the matching loops return the first accepted table entry whose segments match, with the remaining segments as asset path |
| RouteTable.ActiveRouteTable.MatchRequest | src/static_routes.rs:163-165 | legacy matching accepts only routes without a scope |
| RouteTable.ActiveRouteTable.MatchRequestForRevision | src/static_routes.rs:174-186 | revision matching accepts only routes of the full scope triple |
| RouteTable.MatchServesTheBest | src/static_routes.rs:141-231 | matching serves, among the accepted matching routes of the plan, the one with the most segments, then the least public path, then the earliest in the plan; nothing exactly when none matches |
| RouteTable.BestIsUnique | src/static_routes.rs:141-150 | that route is unique |
| RouteTable.AssetPathCompletesRequest | src/static_routes.rs:222-227 | matched segments followed by the segments of the asset path are the request's segments; the asset path is empty exactly when the route covers the request |
| RouteTable.OnlyAcceptedRoutesMatter | src/static_routes.rs:163-231 | two plans that agree on the accepted routes answer every request alike |
| RouteTable.RevisionsDoNotInterfere | src/static_routes.rs:163-186 | matching for a revision, or for legacy routes, on the full table is matching on a table of only those routes, for any mixture of scopes |
| RouteTable.TableIgnoresPlanOrder | src/static_routes.rs:141-150 | with distinct public paths the table does not depend on the order of the plan |
| RouteValidation.ReservedRouteSet.InsertExact | src/static_routes.rs:110-125 | afterwards exactly the paths with the same normal form conflict, besides those that did before |
| RouteValidation.ReservedRouteSet.InsertPrefix | src/static_routes.rs:114-125 | afterwards exactly the paths whose normal form lies under the normalized prefix conflict, besides those that did before |
| RouteValidation.ConflictsOnCanonicalPaths | src/static_routes.rs:118-125 | on canonical paths a route is reserved exactly when it is an exact reserved path or a reserved prefix starts its segments |
| RouteValidation.StaticRoutePlan.CheckClaims | src/static_routes.rs:540-554 | the first pass reports, in plan order, reserved paths and duplicates with the last earlier claimant |
| RouteValidation.StaticRoutePlan.CheckOverlaps | src/static_routes.rs:555-567 | the second pass reports every overlapping pair once, in index order |
| RouteValidation.StaticRoutePlan.ValidatePlan | src/static_routes.rs:539-568 | validation appends exactly these problems to the failures already there |
| RouteValidation.ValidationCleanIff | src/static_routes.rs:539-568 | validation reports nothing exactly when no route is reserved and no two public paths overlap; distinctness follows |
| RouteValidation.CommonRequestIff | src/static_routes.rs:188-231 | some request is matched by both of two routes exactly when they agree wherever both have a literal; the request is constructed |
| RouteValidation.UnambiguousIff | src/static_routes.rs:188-231 | at most one route of a plan matches any request exactly when no two routes are unifiable |
| RouteValidation.LiteralOverlapIff | src/static_routes.rs:570-582 | for literal routes on canonical paths the textual overlap test decides unifiability |
| RouteValidation.LiteralPlanUnambiguousIff | src/static_routes.rs:539-582 | a literal plan on canonical paths is unambiguous exactly when the validator finds no overlap |
| RouteValidation.ValidatedTableIgnoresPlanOrder | src/static_routes.rs:141-150 | a plan the validator passes, placeholders included, gives the same table in every order |
| RouteValidation.PlaceholdersEscapeTheOverlapCheck | src/static_routes.rs:495-582 | a pair with a placeholder, its segments those its paths parse to, that passes the overlap check and is ambiguous |
| RouteValidation.EmptySegmentsEscapeTheOverlapCheck | src/static_routes.rs:570-582 | a pair with an empty segment that passes the overlap check and has the same segments |
| RouteValidation.RouteReachesReservedIff | src/static_routes.rs:118-231 | any route whose segments a request can carry, as every parsed route's can, serves some request under a reserved prefix exactly when it agrees with the prefix wherever both have a literal; the request is constructed, canonical if the prefix is |
| RouteValidation.RouteServesExactIff | src/static_routes.rs:118-231 | a route serves an exact reserved path exactly when it agrees with it and has no more segments |
| RouteValidation.NeverServesReservedIff | src/static_routes.rs:118-231 | no request in reserved space is answered from a plan's table, under any scope, exactly when no route of the plan agrees with a reserved path |
| RouteValidation.LiteralReachesReservedIff | src/static_routes.rs:118-125 | for a literal route that passes the reserved check, agreeing with a prefix means being a proper prefix of it: the check looks one way only |
| RouteValidation.PlaceholdersEscapeTheReservedCheck | src/static_routes.rs:118-231 | a placeholder route, its segments those its path parses to, that validates against a reserved prefix and serves a request in it |
| RouteValidation.FalselyRejectedIff | src/static_routes.rs:532-568 | a plan without reserved routes is rejected although it is unambiguous within every scope exactly when some pair overlaps and no unifiable pair shares a scope |
| RouteValidation.RevisionsShareNoPath | src/static_routes.rs:532-568 | a plan with one path, parsed, under two revisions that is rejected although each revision is unambiguous |
| Registry.CapabilityRegistry.BuildFromPackIndex | src/capabilities.rs:126-187 | building succeeds exactly when every pack is readable, and groups and sorts the declared offers |
| Registry.CapabilityRegistry.SelectInScope | src/capabilities.rs:196-211 | the view in scope is the stable sort of the offers in scope over all groups in key order |
| Registry.CapabilityRegistry.SelectRequiringSetup | src/capabilities.rs:276-296 | the same for offers that require setup |
| RegistryProperties.GroupIsSortedDeclarations | src/capabilities.rs:126-187 | a capability's group is the declared offers of that capability, stably sorted; keys strictly ascend |
| RegistryProperties.DefaultIdsAreDistinct | src/capabilities.rs:136-146 | offers of one pack that declare no identifier, or a blank one, get distinct stable ids |
| RegistryProperties.RegistryKeepsOffers | src/capabilities.rs:126-187 | building loses and invents no offer |
| RegistryProperties.ResolveFindsTheBest | src/capabilities.rs:222-247 | resolving returns the least (priority, stable id) among the version-, scope- and op-matching declared offers of the capability, the earliest declared on ties, and None exactly when there is none |
| RegistryProperties.ResolveIsFirstInScope | src/capabilities.rs:196-247 | resolving without a version is the first entry of the view in scope that has the capability and allows the op, ties included |
| RegistryProperties.RequiringSetupIsFilteredView | src/capabilities.rs:276-296 | the setup list is the view in scope filtered, in the same order |
| RegistryProperties.HookChainIsSortedDeclarations | src/capabilities.rs:249-274 | a hook chain is every declared offer of the stage that applies to the op, stably sorted, whatever its scope and version |
| RegistryProperties.ViewIsSortedDeclarations | src/capabilities.rs:196-211 | the view in scope is the declared offers in scope stably sorted by (priority, stable id, capability) |
| RegistryProperties.ResolveIgnoresPackOrder | src/capabilities.rs:130-184 | when no two offers of a capability in different packs tie, its group and every resolution do not depend on pack order; ties inside one pack do no harm |
| RegistryProperties.PackOrderIgnoredIff | src/capabilities.rs:126-187 | for packs with distinct paths, as in the index, a capability's group is the same for every order of the packs exactly when no two of its offers in different packs tie |
| RegistryProperties.ResolveForOpBindsTheBest | src/capabilities.rs:222-247 | resolving for an operation returns the binding of the best declared offer, or nothing exactly when none suits |
| RegistryProperties.HookChainBindsSortedDeclarations | src/capabilities.rs:249-274 | a resolved hook chain is the bindings of the declared hooks that apply, one for one, in stably sorted order |
| Slugs.MakeSlug | src/provider_registry.rs:336-354 | the slug loop computes the lower-cased alphanumeric runs joined by single dashes |
| Slugs.SlugIdempotent | src/provider_registry.rs:336-354 | a slug is its own slug |
| Slugs.SlugsCollideIff | src/provider_registry.rs:120-135 | two values share a file exactly when their lower-cased alphanumeric runs agree, none counting as the run registry |
| ProviderCache.RegistryCache.CacheRemoteRegistryFile | src/provider_registry.rs:275-298 | storing writes the digest file, the reference file and the index entry, in that order |
| ProviderCache.RegistryCache.FetchRemoteRegistryToCache | src/provider_registry.rs:178-225 | fetching refines its specification, with the unchanged-digest shortcut before any bytes are read |
| ProviderCache.RegistryCache.ResolveCatalogPath | src/provider_registry.rs:14-83 | resolving refines its specification: explicit file, local reference, refresh with fallback, cache, offline error, fetch |
| ProviderCache.FetchReturnsItsContent | src/provider_registry.rs:178-225 | with slug-distinct names, after any run, a successful fetch leads to the fetched digest's content, by shortcut or store; a failed one changes nothing |
| ProviderCache.RunKeepsInv | src/provider_registry.rs:145-298 | with slug-distinct names, after any run of fetches, resolutions and losses of cache files or of the index, every digest file holds its digest's content, every reference file the content last fetched for its reference, and the index only digests last fetched |
| ProviderCache.ResolveReturnsLastFetched | src/provider_registry.rs:41-83 | with slug-distinct names, after any such run, a resolution succeeds exactly when something is cached or its fetch succeeds, leads only to the content last fetched for the reference, and offline changes nothing |
| ProviderCache.RunFollowsPast | src/provider_registry.rs:41-298 | over every run, whatever names collide, each cache file holds the content its last writer wrote, and the last writer of a reference file has fetched no other digest since |
| ProviderCache.RefFileRightIff | src/provider_registry.rs:120-225 | after any run a reference file was last written by a reference with the same runs, and holds the content last fetched for a reference exactly when that reference last fetched the same content as the one that wrote it |
| ProviderCache.ResolveRightIff | src/provider_registry.rs:41-225 | after any run, whatever names collide and with every combination of flags, a resolution succeeds exactly when something is cached or its fetch succeeds, leads to the reference's file or the file of the digest last fetched, last written under a name with the same runs, and to the content last fetched exactly when the digest last written there has that content |
| ProviderCache.ShortcutLeavesTheWrongFile | src/provider_registry.rs:178-225 | three fetches under two colliding references: the last returns the right content by the unchanged-digest shortcut, and the reference file keeps the other one's |
| ProviderCache.SeparatorsCollide | src/provider_registry.rs:336-354 | two references that share a file |
| ProviderCache.RemoteFileIsNotTheIndex | src/provider_registry.rs:120-143 | the file of a fetchable remote reference is never the index file |
| SecretNames.CanonicalSecretName | secret_name/src/lib.rs:31-57 | the canonicalization loop computes the words joined by single underscores, or the fixed fallback |
| SecretNames.CanonicalNameShape | secret_name/src/lib.rs:20-57 | a canonical name is a non-empty join of words of lower-case letters and digits, and has the words of its raw name |
| SecretNames.CanonicalNameIdempotent | secret_name/src/lib.rs:31-57 | canonicalizing is idempotent |
| SecretNames.CanonicalNamesCollideIff | secret_name/src/lib.rs:31-57 | two raw names share a canonical name exactly when their words agree |
| SecretNames.CanonicalKeyPathIdempotent | secret_name/src/lib.rs:60-66 | canonicalizing a key path is idempotent |
| Secrets.UrisCollideIff | src/secrets_gate.rs:297-315 | under one identity and provider two keys share a URI exactly when their canonical names agree |
| Secrets.UrisIsolateIff | src/secrets_gate.rs:297-315 | an identity and provider without slashes share a secret URI with any others, slashed ones included, exactly when environment, tenant, canonical team, provider segment and canonical name agree |
| Secrets.TenantSharesSecretIff | src/secrets_gate.rs:297-315 | for every key, some other environment and tenant with the same team and provider has the same secret URI exactly when environment or tenant holds a slash; the other tenant is constructed |
| Secrets.SlashesMixTenants | src/secrets_gate.rs:297-315 | two tenants of different environments that share every secret because of a slash |
| Secrets.EmptyProviderNeverFound | src/secrets_gate.rs:304-309 | without a provider id the gate's URI is never one that is written |
| Secrets.SecretsSetup.CollectMissing | src/secrets_setup.rs:81-111 | the loop stops at the first unreadable URI, otherwise collects a seed or placeholder for every absent one, in order |
| Secrets.SecretsSetup.EnsurePackSecrets | src/secrets_setup.rs:76-126 | setup writes exactly the missing entries and reports read and seed failures |
| Secrets.EnsureMeaning | src/secrets_setup.rs:76-126 | whatever the result, no existing secret changes and only required URIs are added, each with its seed or placeholder; on success all are there |
| Secrets.EnsureTwice | src/secrets_setup.rs:76-126 | after a success a second call succeeds and writes nothing |
| Secrets.CheckProviderSecrets | src/secrets_gate.rs:372-514 | the gate returns the unresolved candidate URIs in key order, or None when there are none |
| Secrets.CheckPassesIff | src/secrets_gate.rs:372-514 | the gate passes exactly when every candidate URI can be read |
| Secrets.GatePassesAfterEnsureIff | src/secrets_gate.rs:304-356 | after a successful setup with the same identity the gate passes exactly when the provider id is not empty or everything it looks for was there before |
| Secrets.FallbackIff | src/secrets_gate.rs:114-129 | a written URI has a wildcard fallback exactly when it names a team and no part holds a slash; the fallback is the URI without a team |
| Secrets.TeamReadsTenantSecretIff | src/secrets_gate.rs:57-101 | a secret seeded without a team is read at run time under a team exactly when that team is none or no part of the identity holds a slash |
| SecretSeeding.AnswerStore.CollectAnswers | src/qa_persist.rs:189-208 | the loop over answers yields one entry and one saved key per non-blank answer, in order |
| SecretSeeding.AnswerStore.SeedSecretRequirementAliases | src/qa_persist.rs:249-302 | aliases are appended after the direct entries, one for each requirement that is not already named and has a fitting answer |
| SecretSeeding.AnswerStore.PersistAllConfigAsSecrets | src/qa_persist.rs:162-243 | persisting applies direct entries and aliases to the store and reports failure exactly when some entry cannot be written |
| SecretSeeding.RequirementSeededIff | src/qa_persist.rs:189-302 | the seeded entries contain a requirement's URI exactly when its canonical name ends with the canonical name of some key with a non-blank answer |
| SecretSeeding.AliasesAreNotDirect | src/qa_persist.rs:263-273 | an alias never shares a URI with a direct answer |
| SecretSeeding.PersistedText | src/qa_persist.rs:162-302 | afterwards the store holds at any key's URI the last direct answer with that canonical name, otherwise, for a declared requirement, the first answer whose canonical key ends that name, and otherwise what it held before |
| SecretSeeding.DeclaredSeededIff | src/qa_persist.rs:275-292 | a declared requirement is seeded exactly when some non-blank answer fits it |
| SecretSeeding.GatePassesAfterPersistIff | src/secrets_gate.rs:304-560 | after persisting, whatever could be written, the gate with its own list of keys passes exactly when every key can be read and is seeded or was already stored; without a provider id it passes exactly when it did before |
| PackConfig.BundleConfigs.EmitPackConfigInput | src/qa_persist.rs:442-541 | emission removes, replaces or leaves the file of its pack id as one call alone prescribes |
| PackConfig.EmittedPartitionsAnswers | src/qa_persist.rs:442-541 | no file exactly when no answer is visible and non-blank; otherwise the two key sets partition those answers, secrets as references, the rest with their values |
| PackConfig.FileIsLastCallAlone | src/qa_persist.rs:442-561 | after any sequence of calls, other packs' and rejected ones included, a pack's file is exactly what its last successful call alone would have produced |
| PackConfig.StaleFileIff | src/qa_persist.rs:442-561 | after any sequence of calls a pack's file differs from what the last call for that pack alone produces exactly when that call has an invalid identifier or secret key and the last call without one kept some answer |
| PackConfig.SlashedSecretLeavesStaleFile | src/qa_persist.rs:503-506 | two calls, the second rejected for a slash in a secret question's id, after which the first one's file is still there |
| PackConfig.SecretsDoNotShow | src/qa_persist.rs:489-516 | changing secret answers to other non-blank values, visibility unchanged, changes nothing in what is emitted |
| Cards.RewriteIsRedirect | src/cards.rs:187-249 | on a card without placeholder text the rewriter changes nothing but the url of marked open-url actions |
| Cards.RewriteRemovesMarkersIff | src/cards.rs:165-249 | such a card holds a start marker after rewriting exactly when it held one before and the start url is the marker itself |
| Cards.RewriteKeepsUnmarked | src/cards.rs:187-249 | rewriting is the identity on such cards without markers |
| Cards.RewriteIdempotent | src/cards.rs:187-249 | rewriting such a card twice, even with another connection, is rewriting it once |
| Cards.RewriteLeavesMarkerIff | src/cards.rs:165-249 | any card, placeholder text included, holds a start marker after rewriting exactly when some object's rewritten type and url make one |
| Cards.RewriteCanMakeMarker | src/cards.rs:231-245 | a card without a marker that gets one by rewriting, because dropping a placeholder puts it together |
| Cards.RewriteLeavesNoPlaceholder | src/cards.rs:187-249 | a card in which every opening brace belongs to a whole placeholder holds no placeholder text after rewriting, when start url and connection name have no opening brace |
| Cards.RewriteCanLeavePlaceholder | src/cards.rs:231-245 | a text with one placeholder inside another's halves that rewriting turns into a placeholder |
| StableSort.SortCommutesWithFilter | src/capabilities.rs:178-184 | the library's stable sort commutes with every filter |
| StableSort.StableSortIsUnique | src/capabilities.rs:178-184 | a sorted rearrangement that keeps tied elements in order is the stable sort, so modelling the library call by one function loses nothing |
| StableSort.FirstOfSort | src/static_routes.rs:141-150 | searching a sorted sequence finds the first least matching element of the unsorted one |

## Left out

- Access changes and pack filtering (`src/cli.rs:4019-4101`, `src/cli.rs:4318-4389`, `src/cli.rs:6070-6089`): ordered de-duplication, which would add only easy members.
- Route discovery (`src/static_routes.rs:271-441`) and the table of operator defaults (`src/static_routes.rs:71-108`): reading packs and a list of constants; routes enter as parsed descriptors.
- `offers_for_capability`, messaging warnings, event bindings and install records (`src/capabilities.rs:189-194`, `src/capabilities.rs:298-509`): filters and serialization that would add only easy members.
- `cache_registry_file` and a crash between the two file writes and the index write (`src/provider_registry.rs:85-104`): they break the stated cache invariant by design.
- `persist_qa_secrets`, `filter_secrets` and `persist_qa_results` (`src/qa_persist.rs:34-151`, `src/qa_persist.rs:322-390`): the same loops as the members modelled, and one filter.
- `render_if_needed` around the rewriter (`src/cards.rs:23-121`): JSON decoding and payload plumbing.
- The card tree and the object maps inside it are values: the source edits a uniquely owned tree in place, so the model does not capture update in place, only the tree before and after.
- Decoding of zip, CBOR, JSON and YAML, JSON Schema, JSON pointers, form visibility, OCI transport and the dev store's file format: inputs or oracles of the model.
- File names and operating-system errors: log appends, seed writes and fetches may fail; other file operations are taken to succeed, and a failed append is taken to leave no partial line.
- Timestamps, tracing, printing and translation.
- Unicode lower-casing of requirement keys before the gate sees them: keys enter as they are after it.
- One event-log scope is modelled; scopes of other tenants and teams live in other files.
