# Projectbook backend: verified model of its core

A Dafny model of the parts of the Projectbook backend in which several requests, two stores
or several guards have to work together, with proofs of what they promise. Nothing outside
these files is needed; `dafny verify dfyconfig.toml` checks all of them.

| file | what it models |
|---|---|
| `Text.dfy` | strings as the service uses them: trimming, case folding, joining, decimals, byte order |
| `BumpMiss.dfy` | the bump-miss cache protocol as interleaved Redis commands, commits and queries |
| `TokenAges.dfy` | how old a cached version token can be, and which step of that protocol changes what |
| `CacheTags.dfy`, `ReadKeys.dfy` | tag names, tag tokens and read keys, and why they are unambiguous |
| `CacheManager.dfy` | the cache manager's mutable part: token cache, version counters, response capture |
| `Patches.dfy`, `PatchHeap.dfy` | document patches: validation and shallow merge, on values and on mutable maps |
| `Documents.dfy` | the two-store write of one artifact (Postgres row, Mongo document) and the transaction scope |
| `Lifecycle.dfy` | artifact rows and the UPDATE statements on them, in SQL's three-valued logic |
| `Artifacts.dfy` | reading a patch, the service's checks, the gates between artifacts, link rows |
| `ArtifactRuns.dfy` | interleaved update calls, statement by statement, and their invariants |
| `ArchiveRuns.dfy` | archiving and restoring over whole runs |
| `CurrentCalls.dfy` | runs in which the status a call has checked still holds when it acts, and what they keep |
| `ArtifactDocuments.dfy` | the rule tables and default documents of the six kinds |
| `ArtifactCalls.dfy` | one call as a function, calls as runs, what overlapping calls can break |
| `UpdateLaws.dfy` | which update calls are accepted and what they change, in terms of the patch and the old row |
| `ArtifactRepo.dfy` | the repository's update path on mutable tables, proved against that function |
| `PermissionCache.dfy` | effective masks and the per-user permission cache under WATCH and MULTI |
| `PermissionBits.dfy` | permission masks as sets of bit positions |
| `RoutePolicies.dfy` | route policies, their composition, and the route validator as a type checker |
| `RouteOutcomes.dfy` | the answers of whole routes, and the validator's acceptance as well-typedness |
| `RateLimit.dfy` | the fixed-window script and the limiter around it |
| `Pagination.dfy` | offset cursors and the walk along `next_cursor` |
| `Sampling.dfy` | the access log's sampling key |

Protocols are state machines: `Step` names the atomic steps, `Enabled` and `Do` say when a
step may run and what it does, and a `Run` is any sequence of enabled steps. Where a promise
of the code holds only under a condition, the condition is a field of the machine's `Config`
(or a guard on the state), and a lemma whose name ends in `ExactlyWhen` proves both
directions; the failing direction is a concrete run.

What these lemmas say about the code as it stands:

- Cache hits are fresh in every interleaving if and only if the in-process token cache is off
  and Redis never drops a version counter. `internal/core/config/config.go:459` turns the
  token cache off by default; `docs/cache-guide.md` states a default of 250ms, and the model
  follows the code. With the token cache on, another process can serve a response that misses
  a committed and bumped write.
- Tasks keep hanging on a selected idea, and locked or selected artifacts keep their content,
  in all runs if and only if update calls do not overlap: the service checks a status before it
  opens the transaction, and the SQL guards do not repeat the whole check. Of a single run it is
  enough that an UPDATE of a frozen row still finds the checked status, and that a task's idea
  is still selected at the commit.
- A cursor parameter by any other name than `cursor` and `pagination.cursor`, such as
  `list.cursor`, is collapsed in the cache key but not bypassed, so that its pages share one
  cached response.
- The document store follows the rows if and only if a document write whose call failed
  cannot land after its transaction released the row lock.
- A backfill changes only its own entries if and only if an expiring watched key makes EXEC
  fail; after an invalidation the cache is fresh if and only if no backfill that could still
  write was under way.
- A rate limit window shorter than a millisecond blocks nothing, and a caller who retries
  exactly when told is let through if and only if a key is gone in the millisecond of its
  deadline. Where the key is still there, a caller blocked in that millisecond is told to wait a
  whole window although the next millisecond would do.
- An idea update without a status needs a locked problem although it selects nothing
  (`NULL <> 'Selected'` is not true), and a feedback update keeps exactly the links it lists.
- Restoring an archived artifact under another status than it came from leaves the row with the
  status it came from and the document with the one asked for; in every other accepted call
  that asks for a status they agree.
- A custom member of a project whose role has no permission row is refused with a dependency
  failure, because the NULL role mask cannot be scanned into an integer.

Assumptions, stated once: hashing is injective and its output is free of separators; one
Redis command, script or EXEC is atomic; a row lock is held from the UPDATE to the end of
its transaction and other statements read committed rows; ids are unique across tables; time
is an integer that does not go back. A character stands for one byte, and space and case
rules are those of ASCII.

## Model

| member | source | states |
|---|---|---|
| BumpMiss.TokenCacheOffIsFresh | internal/core/policy/cache.go:186-234 | With the token cache off and version counters kept, in every interleaving of readers and writers a hit served to a reader whose version read follows a writer's increment of a shared tag contains that writer's commit. |
| BumpMiss.FreshExactlyWhen | internal/core/cache/manager.go:328-428 | That promise holds in all runs if and only if the token cache is off and Redis does not drop version counters. |
| BumpMiss.StepKeepsInv | internal/core/policy/cache.go:269-288 | Every step keeps: counters count exactly the increments that ran, increments follow commits, and no stored response or running handler is older than a writer its key has counted. |
| BumpMiss.TokenCacheServesStale | internal/core/cache/manager.go:430-463 | With the token cache on, a concrete run serves a stale hit. |
| BumpMiss.EvictedVersionServesStale | internal/core/cache/manager.go:343-360 | A dropped version counter starts again at zero, and a concrete run serves a stale hit. |
| TokenAges.ReusedIsRecent | internal/core/cache/manager.go:430-463 | In every interleaving a reader that reuses a token gets one that a reader of its own process cached for the same tags at most the configured time ago, with no bump finished by that process since. |
| TokenAges.ReadsExactlyWhen | internal/core/cache/manager.go:435-451 | A reader reads the versions anew if and only if no token that has not expired is cached in its process for its tags. |
| TokenAges.TokenEffects | internal/core/cache/manager.go:453-463 | Only a reader that has read its versions adds a token, for the configured time; only a finished bump drops tokens, all those of its own process. |
| TokenAges.ClockEffects | internal/core/cache/manager.go:453-463 | The clock that token lifetimes are measured by moves only between the commands, by the time that passes. |
| TokenAges.VersionEffects | internal/core/cache/manager.go:408-428 | Only commits extend the database, and a version changes only by an increment that takes effect, by one, or by being dropped. |
| TokenAges.EntryEffects | internal/core/policy/cache.go:186-234 | Only a handler that missed stores a response, with what its queries saw, under the key it missed. |
| CacheManager.Manager.NormalizeResolvedTags | internal/core/cache/manager.go:498-518 | The result is the strictly sorted list of the distinct trimmed non-blank tags. |
| CacheManager.Manager.TagVersionToken | internal/core/cache/manager.go:328-369 | The token is the cached one while it lives, otherwise it lists every tag with its current version and is cached until its time is up; no other cached token changes, and without Redis there is no token and an expired one is dropped. |
| CacheManager.Manager.BumpTags | internal/core/cache/manager.go:408-428 | Every distinct tag is incremented exactly once on success; on an error any of the increments may have taken effect, each at most once; no other tag changes, and the token cache is cleared exactly on success. |
| CacheManager.IncrementsRefineBump | internal/core/cache/manager.go:416-421 | The increments of the interleaving model, whichever take effect, do to the counters what BumpTags promises. |
| CacheManager.CachingResponseWriter.Write | internal/core/policy/cache.go:339-350 | The buffer holds everything written exactly as long as it fits. |
| CacheManager.CachingResponseWriter.Cacheable | internal/core/policy/cache.go:390-403 | Only a complete, unstreamed, cookie-free response with a listed status may be stored. |
| CacheTags.EscapeRoundTrip | internal/core/cache/manager.go:693-695 | Unescaping undoes the escaping of tag values, for every byte string. |
| CacheTags.SameTagExactlyWhenAgree | internal/core/cache/manager.go:648-691 | Two requests resolve a spec whose names hold no tag separator to the same tag if and only if they agree on every scoped value. |
| CacheTags.SameTagExactlyWhen | internal/core/cache/manager.go:648-691 | Across specs, equal tags mean equal spec names and the same dimensions with the same values, however often and in whatever order, and conversely. |
| CacheTags.FailsExactlyWhen | internal/core/cache/manager.go:655-680 | A named spec fails to resolve if and only if a path parameter it names is blank or it needs a project or user that the request does not have. |
| CacheTags.PipeMerges | internal/core/cache/manager.go:648-691 | Why names with the tag separator are excluded: a family of specs under which requests that disagree on both values share one tag. |
| CacheTags.NormalFormUnique | internal/core/cache/manager.go:498-518 | Normalized tag lists are equal if and only if the sets of trimmed non-blank tags are: order and duplicates do not matter. |
| CacheTags.TokenInjective | internal/core/cache/manager.go:346-364 | Equal tokens come from the same tags at the same versions. |
| CacheTags.ResolvedTagFree | internal/core/cache/manager.go:648-695 | A resolved tag contains no comma, so tokens of resolved tags are unambiguous. |
| ReadKeys.SameKeyExactlyWhen | internal/core/cache/manager.go:255-319 | When the values the template selects hold no separator, and repeated ones no comma, two requests share a canonical key if and only if they are for one route, agree on everything the template varies by, and read the same tags at the same versions. |
| ReadKeys.CommasMerge | internal/core/cache/manager.go:293-295 | Why repeated values must hold no comma: several values of a header share a key with the one value that joins them. |
| ReadKeys.KeysSeparateExactlyWhen | internal/core/cache/manager.go:709-741 | Among such requests that reach key building, equal keys mean equal dimensions if and only if every cursor-like parameter of the template has one of the two names the bypass knows. |
| ReadKeys.UnknownCursorMerges | internal/core/policy/cache.go:413-442 | Any two pages under a cursor-like name the bypass does not know share one key. |
| ReadKeys.SeparatorsMerge | internal/core/cache/manager.go:283-297 | Why separators are excluded: a family of different requests with the same canonical key. |
| ReadKeys.NotBypassedBlank | internal/core/policy/cache.go:413-442 | A request that reaches key building has blank cursors under the names the bypass knows. |
| ReadKeys.BypassedExactlyWhen | internal/core/policy/cache.go:413-442 | With known cursor names, a request is kept from the cache if and only if the template varies by a cursor and the request holds one: first pages are cached. |
| ReadKeys.SuffixIsCursorLike | internal/core/cache/manager.go:738-741 | Every parameter whose name ends in `.cursor` is collapsed. |
| Patches.ValidateMap | internal/core/patchx/patchx.go:15-72 | Accepts exactly the documents that conform to the rules at every depth, and otherwise names an offending field, whatever the iteration order. |
| Patches.MergeIsLawful | internal/core/patchx/patchx.go:84-108 | Field by field at both levels: what the patch does not name stays, a null removes, an object of both is merged one level deep, everything else is the patch's. |
| Patches.MergeLawDecides | internal/core/patchx/patchx.go:84-108 | That law leaves no choice: two documents that obey it are equal. |
| Patches.MergeConforms | internal/core/patchx/patchx.go:75-111 | A conforming document merged with a conforming patch conforms, at every depth. |
| Patches.MergeTwiceExactlyWhen | internal/core/patchx/patchx.go:84-108 | Applying a patch twice equals applying it once if and only if no nested null was kept because the base had no object there. |
| PatchHeap.MergeShallow | internal/core/patchx/patchx.go:75-111 | On mutable maps, in any iteration order, the result obeys the merge law field by field at both levels and is fresh at every depth; base and patch are unchanged. |
| PatchHeap.CloneMap | internal/core/patchx/patchx.go:118-153 | The clone denotes the same value and shares nothing with the original. |
| Documents.RunIsSafe | internal/modules/artifacts/repo.go:2206-2275 | Across failed writes, failed commits and crashes the document is at most one revision ahead of the row, its content is the fold of the landed patches in row-lock order, and every committed patch has landed. |
| Documents.SafeExactlyWhen | internal/modules/artifacts/repo.go:2206-2243 | This holds in all runs if and only if a failed document write cannot land late. |
| Documents.RevisionCounts | internal/modules/artifacts/repo.go:324-329 | In every run the revision of the row is one more than the number of committed updates. |
| Documents.RowEffects | internal/modules/artifacts/repo.go:324-329 | A commit raises the row's revision by one, to that of the document; no other step changes it. |
| Documents.DocEffects | internal/modules/artifacts/repo.go:2206-2243 | A write that takes effect merges the patch, field by field, into what is stored, under the revision after the row's; no other step but a late landing changes the document. |
| Documents.StoredConforms | internal/modules/artifacts/repo.go:2206-2243 | From a conforming first document, every stored document conforms to its rule table in every run, also where late writes lose patches, for any table. |
| ArtifactDocuments.DefaultsConform | internal/modules/artifacts/repo.go:3081-3211 | The default document of each of the six kinds conforms to the rule table of its kind. |
| ArtifactDocuments.CreatedIsStored | internal/modules/artifacts/repo.go:1490-1500 | The document creation writes, for a task with its owner assigned, is merged into nothing and stored as it is. |
| ArtifactDocuments.CanonicalConforms | internal/modules/artifacts/dto.go:622-749 | Writing the canonical status and outcome back into a valid patch leaves it valid. |
| ArtifactDocuments.AssigneesConform | internal/modules/artifacts/repo.go:1702-1712 | So does writing the resolved assignees back into a task's patch. |
| ArtifactDocuments.EveryStoredConforms | internal/modules/artifacts/dto.go:83-185 | Every document ever stored for an artifact, from its creation through any validated updates, conforms to the rule table of its kind. |
| Documents.LateWriteLosesPatch | internal/modules/artifacts/repo.go:2228-2240 | With late writes, a concrete run loses a committed patch. |
| Documents.WithTx | internal/core/storage/postgres_store.go:60-96 | The transaction is ended exactly once, takes effect if and only if the caller sees success, and a panic is passed on after the rollback. |
| Lifecycle.UpdateKeepsRowOk | internal/modules/artifacts/repo.go:289-343 | Every UPDATE keeps: archived_from_status set exactly on archived rows, is_locked equal to status Locked, selected ideas dated and with a problem, running and completed tasks dated; and locked stays locked, dates stay as set. |
| Lifecycle.UpdateKeepsOrigin | internal/modules/artifacts/repo.go:997-1019 | Every UPDATE that archives a row, leaves it archived or restores it keeps the status the row came from. |
| Lifecycle.RestoreReturnsOrigin | internal/modules/artifacts/repo.go:292-311 | A restoring UPDATE directly after an archiving one returns the status before it, whatever status was asked for. |
| ArchiveRuns.RestoreReturns | internal/modules/artifacts/repo.go:1286-1315 | In every interleaving, a row that was archived throughout some stretch of the run comes back with the status it had before, whatever happened to it in between and whatever was asked for. |
| ArchiveRuns.ArchivedKeepsOrigin | internal/modules/artifacts/repo.go:2026-2041 | In every interleaving, while a row stays archived the status it came from stays. |
| Lifecycle.LockedOnlyArchives | internal/modules/artifacts/repo.go:321-329 | A locked or archived story, journey or problem accepts exactly archiving and restoring requests, and ends up in the stated status. |
| Lifecycle.StatuslessIdeaUpdate | internal/modules/artifacts/repo.go:1335-1350 | An idea update without a status is accepted if and only if the idea is considered and its problem is locked. |
| UpdateLaws.UpdatedIsLawful | internal/modules/artifacts/repo.go:289-329 | Every UPDATE that selects its row obeys the column law: without a status, status and archived_from_status stay; title, persona, counts, deadline, outcome and reference change exactly when sent; dates are set once, completion each time; the revision grows by one. |
| UpdateLaws.SelectsExactlyWhen | internal/modules/artifacts/repo.go:321-329 | The rows each kind's WHERE clause selects, in two-valued logic. |
| UpdateLaws.AcceptedExactlyWhen | internal/modules/artifacts/service.go:146-180 | An update call succeeds if and only if its artifact exists, status and outcome are spelled right, and its kind accepts it: what service checks, gates and WHERE clauses come to together, kind by kind. |
| UpdateLaws.CallIsLawful | internal/modules/artifacts/repo.go:2206-2243 | An accepted call changes its row by the column law, its links to exactly those it names where it rewrites them, its document by the merge law with the canonical patch, and no other row, link or document. |
| UpdateLaws.EntriesNameExactlyWhen | internal/modules/artifacts/repo.go:2334-2384 | Which entries of the two link lists name which artifact. |
| ArtifactRuns.StepKeepsInv | internal/modules/artifacts/repo.go:1261-1376 | Every statement of every interleaving keeps all row, reference and link invariants, including those of uncommitted transactions, and rows only evolve. |
| ArtifactRuns.SelectedIdeaStands | internal/modules/artifacts/repo.go:1286-1350 | In every interleaving a selected idea, archived or not, has a problem that is and stays locked or archived from locked, and a selection time that never changes. |
| ArtifactRuns.LockedForGood | internal/modules/artifacts/repo.go:997-1049 | In every interleaving a locked story, journey or problem is forever locked or archived from locked. |
| ArtifactRuns.LinksSayPrimaries | internal/modules/artifacts/repo.go:2400-2497 | In every reachable state the link table agrees with the primary columns, no link crosses projects, and a problem's sources are locked for good. |
| ArtifactRuns.CompletedWasStarted | internal/modules/artifacts/service.go:553-559 | In every interleaving a completed task has a start time: the service completes only what it saw in progress, and a start time stays. |
| CurrentCalls.FrozenTakesStatusOnly | internal/modules/artifacts/service.go:716-768 | On an immutable artifact the service lets through only a patch that is a status alone, and nothing on an ended task. |
| CurrentCalls.CurrentIsChained | internal/modules/artifacts/repo.go:2830-2907 | In every run, overlapping or not, in which an UPDATE of a frozen row finds the status its call has checked and a task is committed only while its idea is selected, every task hangs on a selected idea with a locked problem and locked sources. |
| CurrentCalls.SettledForGood | internal/modules/artifacts/service.go:716-768 | In every run in which checked statuses hold in that sense, however calls overlap, a settled artifact keeps row content, links and document, its status aside, to the end. |
| CurrentCalls.RunKeepsFrozen | internal/modules/artifacts/service.go:443-479 | In such a run no step changes the content, links or document of an immutable artifact, its status aside. |
| CurrentCalls.SerializedHolds | internal/modules/artifacts/service.go:443-479 | In a run without overlapping calls every check still holds when its call acts. |
| ArtifactCalls.ChainedExactlyWhen | internal/modules/artifacts/repo.go:2830-2907 | Every task's primary idea is selected, its problem locked and the problem's sources locked, in all states of all runs, if and only if calls do not overlap. |
| ArtifactCalls.SettledKeptExactlyWhen | internal/modules/artifacts/service.go:348-384 | Settled artifacts keep their content in all runs if and only if calls do not overlap. |
| ArtifactCalls.OverlapBreaksChain | internal/modules/artifacts/service.go:452-467 | A concrete run of overlapping calls leaves a task on a rejected idea. |
| ArtifactCalls.OverlapRetitlesLocked | internal/modules/artifacts/service.go:155-170 | A concrete run of overlapping calls archives a locked story under another title. |
| ArtifactCalls.CallIsRun | internal/modules/artifacts/service.go:443-479 | Whatever a call does as a function on the tables, the state machine can do as a run of statements. |
| ArtifactCalls.RunIsCall | internal/modules/artifacts/service.go:443-479 | A call of the state machine that nothing disturbs from its beginning to its commit leaves exactly the tables of that function. |
| ArtifactCalls.DocStatusExactlyWhen | internal/modules/artifacts/repo.go:996-1078 | After a call that asks for a status, document and row name the same one if and only if the call does not restore an archived artifact under another status than it came from. |
| ArtifactCalls.DocOutcomeAgrees | internal/modules/artifacts/dto.go:727-749 | A feedback update that asks for an outcome, in any spelling, leaves row and document with that outcome. |
| ArtifactCalls.EndedTaskRefusesAll | internal/modules/artifacts/service.go:539-561 | A completed or abandoned task accepts no update at all. |
| ArtifactCalls.FeedbackLinksAreNamed | internal/modules/artifacts/repo.go:2432-2497 | After an update the links into feedback are exactly those its patch names: an old link survives if and only if it is named again. |
| ArtifactCalls.FeedbackLosesLinks | internal/modules/artifacts/repo.go:2008-2020 | A feedback update whose list of links is missing, null, not an array or empty removes all links and the primary task. |
| ArtifactCalls.StatusReadsBack | internal/modules/artifacts/dto.go:776-790 | The canonical spelling of every status is read back as that status. |
| ArtifactRepo.Repo.ReplaceProblemSourceLinks | internal/modules/artifacts/repo.go:2334-2384 | Succeeds exactly if every entry names a locked story or journey of the project, and then the links into the problem are exactly those. |
| ArtifactRepo.Repo.ReplacePrimaryLink | internal/modules/artifacts/repo.go:2400-2430 | Replaces the links of that kind into the target by the one given. |
| ArtifactRepo.Repo.ResolveFeedbackLinks | internal/modules/artifacts/repo.go:2432-2460 | Skips what does not parse, fails on what does not resolve, and picks the first task as primary. |
| ArtifactRepo.Repo.ReplaceFeedbackLinks | internal/modules/artifacts/repo.go:2467-2497 | The links into the feedback become exactly the resolved ones. |
| ArtifactRepo.Repo.Update | internal/modules/artifacts/service.go:348-384 | A call changes the tables as the specification function says, or is refused and changes nothing. |
| PermissionCache.ResolveMember | internal/core/permissions/relational.go:54-123 | When a mask is returned, which mask and time stamp, and which error otherwise. |
| PermissionCache.Backfill | internal/core/permissions/resolver.go:165-213 | The loop puts the answer's mask, role and time stamp under the requested name and, where it differs in more than case, the project's id, unless a newer entry is there; it changes nothing else and reports whether it set any. |
| PermissionCache.ResolveIsAnswer | internal/core/permissions/resolver.go:99-150 | In every run a resolution is the cached entry where there is one, with mask, role, origin and time stamp of an earlier answer for this user and project, and otherwise the fallback's answer, which goes to a backfill. |
| PermissionCache.HitWasAnswered | internal/core/permissions/resolver.go:124-150 | For every hit in every run there is an earlier answer of the fallback for that name or project id with the same mask, role, origin and time stamp. |
| PermissionCache.ExecMakesHits | internal/core/permissions/resolver.go:165-224 | A backfill whose EXEC takes effect makes each of its names hit with its answer where it read no newer entry, whatever was interleaved. |
| PermissionCache.WarmedHits | internal/core/permissions/resolver.go:165-224 | After an undisturbed backfill exactly its own names hit with the answer, newer entries and all other names staying as they were. |
| PermissionCache.ResolvedTwice | internal/core/permissions/resolver.go:99-122 | Resolving twice with an undisturbed backfill in between gives the same mask, role and time stamp, the second time without the fallback. |
| PermissionCache.EntriesStay | internal/core/permissions/resolver.go:165-224 | In every interleaving of backfills, between deletions no entry is lost and no time stamp goes back. |
| PermissionCache.OnlyOwnExactlyWhen | internal/core/permissions/resolver.go:194-223 | Backfills change only their own entries in all runs if and only if an expiring watched key makes EXEC fail. |
| PermissionCache.FreshExactlyWhen | internal/core/permissions/resolver.go:254-282 | After an invalidation every entry stems from a later answer, in all continuations, if and only if no backfill that could still write was under way. |
| PermissionCache.InvalidationKeys | internal/core/permissions/resolver.go:254-282 | The deleted keys are those of the given users, each once. |
| PermissionCache.RbacKeyExactlyWhen | internal/core/permissions/resolver.go:284-286 | Two users share a key if and only if they differ in surrounding blanks only. |
| RoutePolicies.Chain | internal/core/policy/policy.go:26-34 | Wrapping backwards runs the policies forwards and skips missing ones. |
| RoutePolicies.ValidateOrdering | internal/core/policy/validator_rules.go:28-61 | Accepts exactly the lists whose stages ascend and whose project matches follow a project requirement; an error names the first policy out of order. |
| RoutePolicies.AcceptedIsTyped | internal/core/policy/validator_rules.go:8-155 | The validator's rules imply, policy by policy, that what a policy needs was established before it. |
| RouteOutcomes.AcceptedExactlyWhen | internal/core/policy/validator_rules.go:8-155 | The validator accepts a list if and only if it keeps the documented stage order, every policy finds what it needs established before it, and its project policies are those the pattern asks for. |
| RouteOutcomes.RouteParamExactlyWhen | internal/core/policy/validator_rules.go:212-222 | The project parameter of a pattern is read off the two placeholders, wherever they stand and in any case. |
| PermissionBits.HasPermExactlyWhen | internal/core/policy/rbac.go:25-28 | A permission is held if and only if some bit position below 64 is set in mask and permission; a zero mask holds none. |
| RoutePolicies.PassPermitsExactlyWhen | internal/core/policy/rbac.go:48-114 | A permission check lets a request through unchanged exactly if the mask has the bits it demands, and answers 403 otherwise. |
| RoutePolicies.ZeroMaskFails | internal/core/policy/rbac.go:14-23 | A request without a principal, whose mask is zero, passes no permission check. |
| RouteOutcomes.MissingBitsStop | internal/core/policy/rbac.go:53-63 | In a whole route a permission check whose bits are missing answers 403 and nothing behind it runs. |
| RouteOutcomes.ToldStops | internal/core/policy/ratelimit.go:42-88 | A rate limit that refuses stops the route there; one that does not lets the request through as it is. |
| RouteOutcomes.PathProjectIs | internal/core/policy/auth.go:270-286 | The project of a request is the first of the four places that is not blank, trimmed. |
| RouteOutcomes.ProjectRouteOutcome | internal/modules/artifacts/routes.go:101-110 | The answer of every request to a standard project route: who gets 401, 400, 403 or the resolver's status where, and otherwise exactly which user, project, role and mask the rest of the route sees. |
| RoutePolicies.HandlerIsGuarded | internal/core/policy/rbac.go:48-114 | On an accepted route, when the handler runs every permission check was satisfied by exactly the mask the resolver returned for the authenticated user and the project of the path. |
| RoutePolicies.TypedRbacIsGuarded | internal/core/policy/permissions.go:26-69 | The same for each permission check a request has passed. |
| RoutePolicies.GrantedForPath | internal/core/policy/permissions.go:42-66 | With one resolution on the route, that mask is the answer for the project in the path itself. |
| RoutePolicies.CacheBehindGuards | internal/core/policy/cache.go:163-212 | A cached response is served only after every authentication, project, permission and rate limit policy of the route let the request through. |
| RouteOutcomes.ServedExactlyWhen | internal/core/policy/cache.go:163-212 | A route is answered from the cache at a policy if and only if everything before let the request through, the policy reads for its method and has an entry, and it does not mix callers. |
| RouteOutcomes.CacheStopsExactlyWhen | internal/core/policy/cache.go:186-206 | A cache without an answer stops a request exactly where it fails and is configured to fail closed. |
| RoutePolicies.AcceptedNeverPanics | internal/core/policy/cache.go:444-449 | On an accepted route the run-time cache safety check never panics. |
| RoutePolicies.CacheSafetyExactlyWhen | internal/core/policy/validator_rules.go:139-155 | For a list that satisfies the other rules, the run-time check can never panic if and only if the static rule accepts it. |
| RateLimit.CounterIs | internal/core/ratelimit/ratelimit.go:129-150 | In every run a live counter counts the requests since its window opened and expires one window after that. |
| RateLimit.ExpiryIsSet | internal/core/ratelimit/ratelimit.go:138-141 | The branch for a counter without an expiry is never taken. |
| RateLimit.WindowAdmitsLimit | internal/core/ratelimit/ratelimit.go:129-150 | A window admits the first limit requests and no other. |
| RateLimit.StretchAdmits | internal/core/ratelimit/ratelimit.go:129-150 | Any stretch within one window length admits at most 2 * limit - 1 requests. |
| RateLimit.StretchBoundReached | internal/core/ratelimit/ratelimit.go:129-150 | That bound is reached, for every limit and every window that leaves two different milliseconds to open and to fill it. |
| RateLimit.UnlimitedExactlyWhen | internal/core/ratelimit/ratelimit.go:177 | Nothing is ever blocked if and only if the window is shorter than a millisecond. |
| RateLimit.WindowOverExactlyWhen | internal/core/ratelimit/ratelimit.go:129-150 | Whoever sends requests in between, a later request falls into a later window if and only if the time to the deadline has passed. |
| RateLimit.WaitingHelps | internal/core/ratelimit/ratelimit.go:222-228 | A caller who comes back later than the returned delay in nanoseconds finds the blocking window over; the request is let through exactly if the budget of its own window covers it, and the next request always is. |
| RateLimit.RetryAfterIs | internal/core/ratelimit/ratelimit.go:222-228 | The delay returned to a blocked caller is the time to the window's deadline in nanoseconds, and a whole window in the millisecond of the deadline itself. |
| RateLimit.DelayIsExact | internal/core/ratelimit/ratelimit.go:222-228 | The blocking window is over from the delay on and not a millisecond before, where a key is gone at its deadline; after it, where the key is still there. |
| RateLimit.HeaderSuffices | internal/core/ratelimit/ratelimit.go:404-409 | The seconds of the Retry-After header are enough, and one second less is not. |
| RateLimit.RemainingExactlyWhen | internal/core/ratelimit/ratelimit.go:207-214 | As long as the window lasts, exactly the remaining number of further requests is let through. |
| RateLimit.WaitingSufficesExactlyWhen | internal/core/ratelimit/ratelimit.go:222-228 | Coming back exactly at the returned delay is enough, for every limit and window, if and only if a key is gone at its deadline. |
| RateLimit.RedisLimiter.RunScript | internal/core/ratelimit/ratelimit.go:129-150 | The script's statements on the stored counter do what the specification function says and touch no other key. |
| RateLimit.RedisLimiter.Allow | internal/core/ratelimit/ratelimit.go:171-232 | The decision is the one the waiting laws are about; the fail-open and fail-closed answers, the refused parameters, and the new counter. |
| RateLimit.RetryAfterSeconds | internal/core/ratelimit/ratelimit.go:404-409 | The delay rounded up to whole seconds. |
| Pagination.DecodeUndoesEncode | internal/core/pagination/cursor.go:13-45 | Decoding undoes encoding for every offset an int can hold. |
| Pagination.BytesOfSextets | internal/core/pagination/cursor.go:18-32 | Unpadded base64url decoding undoes encoding, for every byte string. |
| Pagination.SextetsAreDigits | internal/core/pagination/cursor.go:12-18 | The symbols are the base 64 digits of the number whose base 256 digits are the bytes, with zeros for the spare bits. |
| Pagination.AlphabetIs | internal/core/pagination/cursor.go:12-18 | The alphabet is that of section 5 of RFC 4648. |
| Pagination.ValuesExactlyWhen | internal/core/pagination/cursor.go:27-30 | The decoder reads exactly the symbols of the alphabet, with line breaks anywhere. |
| Pagination.BytesExactlyWhen | internal/core/pagination/cursor.go:27-30 | Of those it refuses only lengths that leave a single symbol over. |
| Pagination.DecodedIsVersioned | internal/core/pagination/cursor.go:32-42 | An accepted cursor holds the version prefix and the number that is its offset. |
| Pagination.AtoiReadsDigits | internal/core/pagination/cursor.go:37-41 | Nothing but digits, after an optional sign, is read as a number. |
| Pagination.AtoiOfSigned | internal/core/pagination/cursor.go:37-41 | Negative numbers are read as such, and numbers an int cannot hold are refused. |
| Pagination.FirstCursor | internal/core/pagination/cursor.go:12-18 | The cursor of the first page, symbol by symbol. |
| Pagination.LimitIs | internal/modules/artifacts/handler.go:420-424 | A missing limit is 20, a positive one is taken as it is, a negative one is refused. |
| Pagination.PageIs | internal/modules/artifacts/service.go:79-93 | What a page shows, and that it has a next cursor exactly if more items follow. |
| Pagination.WalkFrom | internal/modules/artifacts/service.go:676-682 | From any offset within the list, following next_cursor ends and yields exactly the rest. |
| Pagination.WalkYieldsAll | internal/modules/artifacts/handler.go:411-425 | Following next_cursor from the start ends and yields every item exactly once and in order, for every list and requested limit. |
| Sampling.MixUndone | internal/core/httpx/accesslog.go:159-166 | The mixer is a bijection on 64-bit words. |
| Sampling.MixUint64 | internal/core/httpx/accesslog.go:159-166 | The result in plain arithmetic on numbers, and that the input can be computed back from it. |
| Sampling.ParseHexPrefix64 | internal/core/httpx/accesslog.go:129-157 | Succeeds exactly on sixteen leading hexadecimal digits and returns their value. |
| Sampling.HexNibbleExactlyWhen | internal/core/httpx/accesslog.go:146-157 | The hexadecimal digits are those of either case, with their values. |
| Sampling.HexKeyIsPrefix | internal/core/httpx/accesslog.go:129-157 | For the rendering of a byte string, in either case, that is the big-endian value of its first eight bytes. |
| Sampling.SampleKey | internal/core/httpx/accesslog.go:110-127 | The parsed prefix where there is one; otherwise undoing the mixing leaves the first eight bytes xor the salted length. |
| Sampling.HashKeySeparates | internal/core/httpx/accesslog.go:115-126 | Hashed ids of one length collide if and only if their first eight bytes agree. |
| Sampling.LengthSeparates | internal/core/httpx/accesslog.go:124 | Hashed ids that start alike collide if and only if they have one length. |

## Left out

- Redis, Postgres, Mongo, the router, goAuth and the other clients themselves; only the semantics named above are used.
- MGET reads all versions of a token at once in the model, as one Redis command does; a sharded cluster is not modelled.
- Names in cache configuration (vary dimensions, tag specs) are taken as already normalized at route registration.
- Non-ASCII white space and case folding, and JSON as bytes: payloads are values, strings are byte strings.
- Document writes in the artifact runs take effect at once; failed, lost and late writes are the subject of `Documents.dfy`, one artifact at a time.
- The `Repo` class keeps the tables and documents as maps and sets that its methods reassign, so row storage and indexes are not captured; creation is modelled in the runs only.
- ArtifactRepo.Repo.Update: one method for the six Update functions, with the branches by kind; a rollback restores the tables read before the transaction.
- Slugs, owners, orphan flags, task assignees, parsing of the deadline date, links from resources and pages, activity and notification entries: written beside the modelled columns and read by none of the modelled guards.
- Reads for display (lists, pages, option lists), DTO decoding and error texts.
- ResolveMember: wall-clock time and the query timeout are parameters of the call.
- The permission cache is modelled for one user's key; payloads that do not decode occur only initially, since no writer stores one.
- RoutePolicies.Pass: the goAuth guard is reduced to its credentials or their absence, so suppressing its early 401 response is not modelled; a blank HTTP method, which the validator also refuses, is not either.
- Role mask constants and seeding, the policy presets, and looking policy metadata up by function pointer: metadata is taken as faithful.
- RateLimit.RetryAfterSeconds: the rounding of floating-point seconds for very long delays is not modelled.
- Rate limiter keys (route, scope and identifier normalization) are given to the limiter as text; evicted counters are not modelled.
- Floating-point sampling thresholds, configuration loading, metrics, tracing and logging.
