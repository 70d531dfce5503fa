# Verified model of the sandbox control plane

A Dafny model of the parts of this repository where several functions, queries
or loops have to agree: the paged sandbox listing, the reconciliation of
clusters and their instances, the tables behind templates, builds and
snapshots, volume mounts, the team metric queries, and the connect and resume
handlers. `dafny verify dfyconfig.toml` checks all of it.

| file | what it holds |
|---|---|
| `Common.dfy`, `Lexicographic.dfy`, `Keyset.dfy` | filtering and mapping of sequences; byte order of texts; sorting, top-k merge, pages and walks over any strict order |
| `SandboxListing.dfy`, `ListingPage.dfy`, `ListingWalk.dfy`, `PauseWalk.dfy`, `PauseRefinement.dfy`, `PageToken.dfy` | the sandbox listing: the SQL page, the handler, walks over a frozen state and during pauses, the statements behind a pause, and page tokens |
| `BuildPaging.dfy` | the template builds query with its text cursor over uuids |
| `Instances.dfy`, `InstancePool.dfy`, `Reconcile.dfy`, `ClusterLedger.dfy`, `LateRounds.dfy` | one instance's health; one cluster's pool and its sync loops; convergence; the outer pool and the ledger of connections; rounds of clusters already dropped |
| `Tables.dfy`, `TableRuns.dfy`, `SnapshotHistory.dfy`, `BuildRegistry.dfy`, `TemplateDeletion.dfy` | the SQL statements as atomic steps, one machine that runs them in any order, and what holds over every run |
| `MountPaths.dfy`, `VolumeMounts.dfy`, `MountCycle.dfy` | lexical path cleaning, validation of volume mounts, and mounts through pause, resume and listing |
| `TeamMetrics.dfy` | bucketed rows and the two largest-value queries |
| `ConnectResume.dfy` | the two handlers against an arbitrary environment |

Objects and loops of the source are classes and methods here: the instance, the
cluster's pool, the clusters pool and the tables are objects whose methods state
their whole new state through functions on values, and the lemmas reason about
those functions. Queries are functions.

What the model shows about the code, beyond what one would expect of it:

- The query compares start times in whole microseconds while sandboxes in memory
  are compared in nanoseconds. A walk can therefore miss a sandbox that shares its
  microsecond with another: `PauseWalk.HandsOverExactly` gives the exact condition,
  `PauseWalk.SharedMicrosecondMisses` an input.
- A round can run on a cluster that was already closed and dropped, as
  `discoverClusterNode` holds one across the removal and a ticker may fire once
  more. It then closes connections twice or leaves new ones open, unless the
  condition of `LateRounds.LateRoundExactly` holds.
- A progress report sent after a superseding registration leaves a running build
  without an active row: `BuildRegistry.LateProgressLosesTrack`; and a tag removed
  from a waiting build lets two builds of that tag wait side by side:
  `BuildRegistry.UntaggedIsPassedBy`.
- Removing tags can take a build's last holder without any report:
  `TemplateDeletion.UntagReleasesExactly`.
- The message for an unclean mount path speaks of `.` and `..` components; the
  code also rejects empty ones (`//`, or a trailing slash):
  `MountPaths.ValidMountPathExact`.

Two inputs show what a statement admits rather than what a caller of today does:
no caller sets a build back to pending (`BuildRegistry.PlainUpdateCanBreak`), and
the exclusive builds query, which does not know the team that the deletion checks
(`TemplateDeletion.WrongTeamReportsTwice`), has no caller in the application yet.

## Model

| member | source | states |
|---|---|---|
| `Keyset.TopMerge` | packages/api/internal/handlers/sandboxes_list.go:197-243 | cutting one source to its own top n before a merge changes none of the first k < n rows of the sorted union, nor whether more than k remain |
| `Keyset.AfterShown` | packages/api/internal/utils/pagination.go:106-116 | the rows after the last row of a page are exactly the rows not shown yet, so a next cursor is the key of the last kept row |
| `Keyset.WalkComplete` | packages/api/internal/utils/pagination.go:46-116 | following next cursors shows every row after the first cursor once, in order, on full pages except the last |
| `Keyset.ShrinkingWalkComplete` | packages/api/internal/utils/pagination.go:46-116 | when rows disappear between pages, following next cursors shows rows in order, none twice, only rows there at the first page, and every row still there at the last |
| `SandboxListing.FewExcluded` | packages/api/internal/handlers/sandboxes_list.go:47-81 | on rows with unique sandbox IDs, excluding a list of IDs drops at most as many rows as IDs that occur |
| `SandboxListing.OverFetch` | packages/api/internal/handlers/sandboxes_list.go:47-81 | fetching as many extra rows as excluded IDs, excluding, then cutting to q equals excluding from all rows and cutting to q |
| `SandboxListing.FetchExact` | packages/db/queries/get_snapshots_with_cursor.sql.go:45-51 | the same for the query itself: its WHERE, ORDER BY and LIMIT with the over-fetched limit, against the whole matching table |
| `SandboxListing.ExcludeInPlace` | packages/api/internal/handlers/sandboxes_list.go:63-77 | compaction into the prefix of the same backing array leaves there exactly the unexcluded rows of the array as it was, in order |
| `SandboxListing.ExcludeAndCut` | packages/api/internal/handlers/sandboxes_list.go:63-81 | with or without IDs to exclude, the kept slice is the first queryLimit unexcluded rows |
| `SandboxListing.SnapshotsToPaginated` | packages/api/internal/handlers/sandboxes_list.go:248-304 | every row becomes one paused item keyed by its start time and sandbox ID, in order |
| `SandboxListing.GetPausedSandboxes` | packages/api/internal/handlers/sandboxes_list.go:33-86 | returns the first queryLimit unexcluded matching rows below the cursor, whatever the number of excluded IDs |
| `ListingPage.InstanceInfoToPaginated` | packages/api/internal/handlers/sandboxes_list.go:306-344 | every sandbox in memory becomes one item keyed by its start time and ID, in order; a pausing one is listed as paused |
| `ListingPage.FilterSandboxesOnMetadata` | packages/api/internal/utils/sandboxes_list.go:106-137 | the slice compacted in place holds exactly the sandboxes whose metadata include every requested pair, in order |
| `ListingPage.FilterBasedOnCursor` | packages/api/internal/utils/sandboxes_list.go:79-92 | keeps exactly the items after the cursor in the listing order |
| `ListingPage.MemorySandboxes` | packages/api/internal/handlers/sandboxes_list.go:197-204 | conversion followed by the metadata filter, as one filter over the converted list |
| `ListingPage.RunningOnly` | packages/api/internal/handlers/sandboxes_list.go:197-211 | the running items after the cursor, and a running total that ignores the cursor and the limit |
| `ListingPage.PausedAndPausing` | packages/api/internal/handlers/sandboxes_list.go:212-236 | the paused part is the top queryLimit of all paused rows that the store does not hold; the pausing part comes from the store |
| `ListingPage.MatchingUnique` | packages/api/internal/handlers/sandboxes_list.go:182-236 | the parts of the listing name every sandbox at most once, because rows of sandboxes the store holds are excluded by ID |
| `ListingPage.PausedListedExactly` | packages/db/queries/get_snapshots_with_cursor.sql.go:33-50 | listed as paused from the table are exactly the team's rows with a ready build and the requested metadata, of sandboxes the store holds neither running nor pausing, each under its start time and ID |
| `ListingPage.MemoryListedExactly` | packages/api/internal/handlers/sandboxes_list.go:197-229 | listed from memory are exactly the running sandboxes, as running, and the pausing ones, as paused, with the requested metadata, when that state is requested |
| `ListingPage.ServedPageExactly` | packages/api/internal/handlers/sandboxes_list.go:236-243 | a page holds at most limit of the considered items, latest start first and then by ID, before all the others, and has a next cursor exactly when others remain, the key of its last item |
| `ListingPage.RequestDefaults` | packages/api/internal/handlers/sandboxes_list.go:145-164 | without parameters a request asks for both states, 100 items, and everything up to now; a limit above 100 is cut to it |
| `ListingPage.PausedTop` | packages/db/queries/get_snapshots_with_cursor.sql.go:45-51 | the truncated SQL page is the top of all paused items after the cursor |
| `ListingPage.MergeSorted` | packages/api/internal/handlers/sandboxes_list.go:236-243 | only the top limit+1 of the paused items are needed for a page of the sorted union with the items from memory |
| `SandboxListing.StoredExactly` | packages/db/migrations/20250404151700_add_snapshots_sbx_started_at.sql:4-6 | a stored time is the start of the microsecond the full time is in |
| `ListingPage.RowSeenExactly` | packages/db/queries/get_snapshots_with_cursor.sql.go:49 | as the query compares whole microseconds, it sees a row past the client's cursor if and only if the row is not in the cursor's cut microsecond under an ID not above the cursor's |
| `ListingPage.ServedExactly` | packages/api/internal/handlers/sandboxes_list.go:197-236 | a request considers exactly the matching items past its cursor, less the rows hidden that way |
| `ListingPage.ServedIsReference` | packages/api/internal/handlers/sandboxes_list.go:133-246 | when no row is hidden, the page is the reference page: sort everything that matches, skip what the cursor passed, keep limit |
| `ListingPage.GetV2Sandboxes` | packages/api/internal/handlers/sandboxes_list.go:133-246 | for every request and both reads: 400 on a bad token or filter, 500 on a failed read that was needed, otherwise the sorted and cut page of everything considered, which is the reference page when no row is hidden, with a running total that ignores cursor and limit |
| `ListingWalk.FrozenWalk` | packages/api/internal/handlers/sandboxes_list.go:133-246 | following next cursors of reference pages over a frozen state gives the sorted list of all matching sandboxes after the first cursor, each once; all but the last page are full |
| `ListingWalk.ServedWalkIsListWalk` | packages/api/internal/handlers/sandboxes_list.go:133-246 | when in each microsecond only the sandbox with the least ID started off its beginning, the walks of served pages are exactly the walks of reference pages |
| `ListingWalk.FrozenServedWalk` | packages/api/internal/handlers/sandboxes_list.go:133-246 | the pages the handler serves joined give that list too, when in each microsecond only the sandbox with the least ID started off its beginning |
| `ListingWalk.RowsLeftFall` | packages/api/internal/utils/pagination.go:106-116 | after a page with a next cursor exactly limit fewer rows are left |
| `ListingWalk.Walk` | packages/api/internal/handlers/sandboxes_list.go:133-246 | following next cursors from any cursor ends and yields a walk |
| `PauseWalk.RunKeeps` | packages/api/internal/orchestrator/pause_instance.go:30-70 | over every run of pause steps, successful or failing, rows past their upsert are current with the cut start time, saved ones have a ready build, and a sandbox that left the store stays as it is |
| `PauseWalk.ServedKeysExactly` | packages/api/internal/handlers/sandboxes_list.go:182-236 | whatever pause steps happen between the store read and the table read, a request considers exactly the sandboxes past its cursor that the store read found, or that have a ready build |
| `PauseWalk.ExpectedKeys` | packages/api/internal/handlers/sandboxes_list.go:182-236 | the matching sandboxes of a state, each once, in listing order, but for those whose pause failed without a ready build: what a request must consider |
| `PauseWalk.ConcurrentWalk` | packages/db/queries/create_new_snapshot.sql.go:57-62 | with both states requested and start times spread, whatever pauses succeed or fail within and between the requests, a walk lists in order and at most once, only what was to be listed at its first store read, and all that still is at its last |
| `PauseWalk.ExactWalk` | packages/db/queries/create_new_snapshot.sql.go:57-62 | so when no sandbox is lost on the way it lists exactly what is to be listed past the first cursor |
| `PauseWalk.WholeWalk` | packages/api/internal/handlers/sandboxes_list.go:133-246 | from a cursor later than every start, as that of a first request, that is the whole team |
| `PauseWalk.ConcurrentWalkEnds` | packages/api/internal/handlers/sandboxes_list.go:133-246 | whatever pause steps happen before and between the reads of each request, following next cursors ends |
| `PauseWalk.HandsOverExactly` | packages/api/internal/utils/sandboxes_list.go:79-92 | in every state the cursor of each listed item hands over to exactly what is listed after it, if and only if in each microsecond only the sandbox with the least ID started off its beginning |
| `PauseWalk.SharedMicrosecondMisses` | packages/api/internal/utils/sandboxes_list.go:79-92 | two sandboxes of one microsecond, of which the second is paused after the first page, leave it on no page |
| `PauseWalk.FailedUpsertListsTwice` | packages/api/internal/orchestrator/pause_instance.go:30-40 | when the upsert fails for a sandbox with an older row, a walk lists it from memory and again by that row |
| `PauseWalk.TableFirstMisses` | packages/api/internal/handlers/sandboxes_list.go:182-222 | with the two reads swapped, a sandbox paused in between is in neither read |
| `PauseRefinement.UpsertIsUpsertRow` | packages/db/queries/create_new_snapshot.sql.go:27-64 | the row an upsert leaves in the tables is, to the listing query, the row that the walk's pause step leaves |
| `PauseRefinement.UpdateIsMarkReady` | packages/db/queries/get_snapshots_with_cursor.sql.go:34-44 | the status a pause ends with makes the sandbox's row one with a ready build and changes no other row |
| `PauseRefinement.StatementsAreSteps` | packages/api/internal/orchestrator/pause_instance.go:30-70 | both statements take the world of the walk from one pause step to the next |
| `PauseRefinement.ListedIsResumable` | packages/db/queries/get_last_snapshot.sql.go:12-23 | a row has a ready build for the listing exactly when the sandbox has a last snapshot to resume from |
| `PageToken.SplitToken` | packages/api/internal/utils/pagination.go:11-17 | a timestamp holds no underscore, so the first cut of a generated token is the separator itself |
| `PageToken.TokenRoundTrip` | packages/api/internal/utils/sandboxes_list.go:60-77 | a generated token parses back to its timestamp and ID if and only if the ID holds no separator; otherwise it is rejected |
| `BuildPaging.CanonicalForm` | packages/db/queries/get_template_with_builds.sql.go:18 | the text of a uuid is its digits in groups of 8, 4, 4, 4 and 12 with hyphens between |
| `BuildPaging.HexDigits` | packages/db/queries/get_template_with_builds.sql.go:18 | the digits are two lowercase hexadecimal ones for each byte, the high one first |
| `BuildPaging.TextOrder` | packages/db/queries/get_template_with_builds.sql.go:14-20 | the canonical lowercase 8-4-4-4-12 text (section 4 of RFC 9562) orders uuids exactly as their bytes do |
| `BuildPaging.TextInjective` | packages/db/queries/get_template_with_builds.sql.go:14-20 | different uuids have different texts |
| `BuildPaging.TextCursorIsKeyCursor` | packages/db/queries/get_template_with_builds.sql.go:18-19 | the filter on (created_at, id::text) is the order on (created_at, id) |
| `BuildPaging.BelowLastShown` | packages/db/queries/get_template_with_builds.sql.go:14-20 | what the filter leaves below the last row shown is exactly what has not been shown |
| `BuildPaging.BuildsWalk` | packages/db/queries/get_template_with_builds.sql.go:14-20 | following next tokens from any cursor ends and yields a walk |
| `BuildPaging.BuildsWalkComplete` | packages/api/internal/handlers/template_get.go:60-94 | following next tokens lists every build assigned to the template below the first cursor exactly once, newest first, whatever its number of tags |
| `Instances.Instance.Sync` | packages/api/internal/clusters/instance.go:116-163 | the new fields are those of one step over the outcome; a failed call returns an error |
| `Instances.HealthRefinesHistory` | packages/api/internal/clusters/instance.go:116-163 | after any outcome sequence: fail count is the trailing failure run, status Unhealthy when that run is at least 3 and otherwise the last report, role flags those of the last report |
| `InstancePool.NewInstance` | packages/api/internal/clusters/instance.go:64-114 | opens at most one connection; an instance exists only if its first sync succeeds, and otherwise the connection is closed again once |
| `InstancePool.Cluster.PoolInsert` | packages/api/internal/clusters/instances_sync.go:59-80 | the pool and ledger after an insertion, including both ways of failing |
| `InstancePool.Cluster.PoolRemove` | packages/api/internal/clusters/instances_sync.go:86-111 | the instance leaves the pool and its connection is closed once more; nothing else changes |
| `InstancePool.Cluster.SourceExists` | packages/api/internal/clusters/instances_sync.go:33-42 | presence in the source is decided by unique identifier alone |
| `InstancePool.Cluster.SyncDiscovered` | packages/shared/pkg/synchronization/synchronization.go:113-134 | the insertion loop: every source item whose node ID is not pooled is inserted, in list order |
| `InstancePool.Cluster.SyncMember` | packages/shared/pkg/synchronization/synchronization.go:136-158 | a pooled instance is synced if the source still has its identifier, otherwise closed and dropped |
| `InstancePool.Cluster.SyncOutdated` | packages/shared/pkg/synchronization/synchronization.go:136-158 | the removal loop: exactly the stale members go, each connection closed once; the others are synced in place |
| `InstancePool.Cluster.Sync` | packages/shared/pkg/synchronization/synchronization.go:93-111 | one whole round is the two loops on the pool and the ledger |
| `InstancePool.Cluster.Close` | packages/api/internal/clusters/cluster.go:161-183 | closes the connection of every pooled instance once and leaves the map alone |
| `InstancePool.Cluster.Shuffle` | packages/api/internal/clusters/cluster.go:209-217 | shuffling by swaps is a permutation, whatever the random draws |
| `InstancePool.Cluster.GetRandomInstance` | packages/api/internal/clusters/cluster.go:209-225 | whatever the random draws, a matching pooled instance is returned, and none exactly when none matches |
| `InstancePool.Cluster.GetAvailableTemplateBuilder` | packages/api/internal/clusters/cluster.go:227-250 | returns a healthy builder on a compatible machine, and none exactly when the pool has none |
| `InstancePool.BuildsExactly` | packages/api/internal/clusters/cluster.go:232-236 | after any syncs an instance is eligible if and only if fewer than three have failed since its last report, and that report is healthy and names the builder role |
| `InstancePool.SweptKeeps` | packages/shared/pkg/synchronization/synchronization.go:136-158 | the removal loop keeps the pool keyed by node and its connections apart |
| `InstancePool.DiscoveredKeeps` | packages/shared/pkg/synchronization/synchronization.go:113-134 | so does the insertion loop, also when creations fail |
| `Reconcile.PassWithinSource` | packages/api/internal/clusters/instances_sync.go:33-98 | after any round, even one with failed creations, every pooled identifier is in the source on the same node |
| `Reconcile.OnePass` | packages/api/internal/clusters/instances_sync.go:33-98 | a round with successful creations misses exactly the items whose node was held under another identifier |
| `Reconcile.OnePassEnough` | packages/api/internal/clusters/instances_sync.go:33-98 | one round converges if and only if no source node is held under another identifier |
| `Reconcile.TwoPassesConverge` | packages/api/internal/clusters/instances_sync.go:33-98 | for a stable source with distinct node IDs, two rounds make the pool identifiers those of the source, a node ID reused under a new identifier included |
| `Reconcile.ConvergedIsStable` | packages/api/internal/clusters/instances_sync.go:33-98 | after that a round inserts, removes, opens and closes nothing |
| `Reconcile.SweepFirstConverges` | packages/shared/pkg/synchronization/synchronization.go:93-111 | with the two loops in the other order, one round is always enough |
| `ClusterLedger.InsertConserves` | packages/api/internal/clusters/instances_sync.go:59-80 | an insertion, successful or not, keeps the conservation law |
| `ClusterLedger.DiscoverConserves` | packages/shared/pkg/synchronization/synchronization.go:113-134 | so does a whole insertion loop, whichever creations fail |
| `ClusterLedger.SweepConserves` | packages/api/internal/clusters/instances_sync.go:86-111 | so does a removal loop |
| `ClusterLedger.RetainConserves` | packages/api/internal/clusters/clusters_sync.go:197-206 | so does the removal of whole clusters |
| `ClusterLedger.StepConserves` | packages/api/internal/clusters/clusters_sync.go:120-206 | every round of pooled clusters and of the clusters pool keeps the law |
| `ClusterLedger.RunConserves` | packages/api/internal/clusters/instance.go:95-111 | over every run of them each opened connection is open and owned by exactly one pooled instance, or was closed exactly once |
| `ClusterLedger.ShutdownClosesAll` | packages/api/internal/clusters/clusters_sync.go:92-116 | closing the whole pool after any run leaves every connection ever opened closed exactly once |
| `ClusterLedger.DiscoveredExactly` | packages/api/internal/clusters/clusters_sync.go:158-191 | the insertion loop pools an ID exactly when it was pooled or a row of it can be created; pools that were there stay, new ones are empty |
| `ClusterLedger.RoundExactly` | packages/api/internal/clusters/clusters_sync.go:120-206 | after a round exactly the local cluster is pooled and each cluster with a row in the table that was pooled before or can be created; those that stay keep their pool, new ones start empty |
| `ClusterLedger.RoundConvergesExactly` | packages/api/internal/clusters/clusters_sync.go:120-206 | one round makes the pool that of the table if and only if every row is of the local or a pooled cluster or of one that can be created |
| `ClusterLedger.ConvergedRoundIsStable` | packages/api/internal/clusters/clusters_sync.go:120-206 | after that a round inserts, drops and closes nothing |
| `ClusterLedger.LocalSurvivesRound` | packages/api/internal/clusters/clusters_sync.go:120-147 | a clusters round leaves the local cluster pooled with the instances it had |
| `ClusterLedger.LocalNeverRemoved` | packages/api/internal/clusters/clusters_sync.go:120-147 | once pooled, the local cluster is never removed, over every run |
| `ClusterLedger.CloseIsRetain` | packages/api/internal/clusters/cluster.go:161-183 | closing one cluster closes exactly the connections that dropping it from the pool must close |
| `ClusterLedger.ClustersPool.PoolInsert` | packages/api/internal/clusters/clusters_sync.go:164-191 | a new cluster starts with an empty pool of its own |
| `ClusterLedger.ClustersPool.PoolRemove` | packages/api/internal/clusters/clusters_sync.go:197-206 | the cluster leaves the map and exactly the connections of its instances are closed once more |
| `ClusterLedger.ClustersPool.SyncInstances` | packages/api/internal/clusters/cluster.go:270-272 | an on-demand round changes the pool of the cluster it finds and the ledger, no other cluster, and nothing when the cluster is not pooled |
| `ClusterLedger.ClustersPool.SyncHeld` | packages/api/internal/orchestrator/client.go:208-225 | a round on a cluster looked up before it was dropped runs on its own pool and the ledger, and touches no pooled cluster |
| `ClusterLedger.ClustersPool.Sync` | packages/api/internal/clusters/clusters_sync.go:120-206 | one round of the outer pool: SourceList with the local cluster appended, insertions, then removals |
| `LateRounds.LateRoundExactly` | packages/shared/pkg/synchronization/synchronization.go:56-111 | a round on a closed and dropped cluster keeps every connection accounted for if and only if the source still lists all its instances and no insertion succeeds |
| `LateRounds.StaleClosesTwice` | packages/api/internal/clusters/cluster.go:161-183 | otherwise an instance gone from the source has its connection closed a second time |
| `LateRounds.InsertedLeaks` | packages/api/internal/clusters/cluster.go:161-183 | or an inserted one holds an open connection that no pooled instance owns |
| `LateRounds.PooledKeeps` | packages/api/internal/clusters/clusters_sync.go:120-206 | rounds of pooled clusters and removals of clusters keep the law with the dropped clusters beside them |
| `LateRounds.RunConservesExactly` | packages/shared/pkg/synchronization/synchronization.go:56-111 | over every run with late rounds the law holds all along if and only if no late round is of a harmful kind |
| `LateRounds.EmptySourceClosesTwice` | packages/api/internal/orchestrator/client.go:208-225 | an input that closes a connection twice |
| `LateRounds.NewItemLeaks` | packages/api/internal/orchestrator/client.go:208-225 | an input that leaves a connection open for good |
| `Tables.Database.UpsertSnapshot` | packages/db/queries/create_new_snapshot.sql.go:17-112 | the four parts in order leave exactly the specified tables and return the new build with the row's env; an error changes nothing |
| `Tables.Database.CreateOrUpdateTemplate` | packages/db/queries/create_template.sql.go:15-20 | inserts a template env, or changes nothing the model holds |
| `Tables.Database.InvalidateUnstartedTemplateBuilds` | packages/db/queries/create_template.sql.go:101-117 | exactly the pending builds assigned to the template under one of the tags fail and lose their active rows |
| `Tables.Database.CreateTemplateBuild` | packages/db/queries/create_template.sql.go:40-69 | inserts the build, or fails on an existing key |
| `Tables.Database.CreateTemplateBuildAssignment` | packages/db/queries/create_template_build_assignment.sql.go:14-17 | appends one assignment when both foreign keys hold, and otherwise changes nothing |
| `Tables.Database.CreateSnapshotTemplateEnv` | packages/db/queries/create_snapshot_template_env.sql.go:14-42 | a new env and one assignment of an existing build in one statement; an error leaves neither |
| `Tables.Database.DeleteTemplateTags` | packages/db/queries/delete_template_build_assignment.sql.go:12-15 | exactly the assignments of the template under the tags go |
| `TableRuns.SucceedExactly` | packages/api/internal/template/register_build.go:149-361 | exactly when a registration, an upsert and the creation of a snapshot template succeed: keys new, referenced rows there, the alias free |
| `TableRuns.RegisteredExactly` | packages/api/internal/template/register_build.go:149-361 | what a successful registration leaves in every table, the content of its active row included |
| `TableRuns.UpsertedExactly` | packages/db/queries/create_new_snapshot.sql.go:17-112 | what a successful upsert leaves in every table |
| `TableRuns.DeletedExactly` | packages/db/queries/delete_template.sql.go:14-30 | what a deletion leaves in every table: nothing changes for a foreign team; builds and active rows always stay |
| `TableRuns.StepAssignments` | packages/api/internal/template/register_build.go:166-357 | which assignments each statement leaves and adds |
| `TableRuns.StepPending` | packages/db/queries/create_template.sql.go:101-117 | which builds each statement leaves pending |
| `TableRuns.RunKeepsReferenced` | packages/db/migrations/20251218160000_allow_m_n_builds_with_tags.sql:21-40 | over every run assignments reference stored envs and builds |
| `Tables.Database.CreateActiveTemplateBuild` | packages/db/queries/active_template_builds.sql.go:14-26 | inserts the active row, or fails on an existing key |
| `Tables.Database.DeleteActiveTemplateBuild` | packages/db/queries/active_template_builds.sql.go:45-48 | drops the active row of one build |
| `Tables.Database.RegisterBuild` | packages/api/internal/template/register_build.go:149-361 | the registration transaction: all of its statements take effect, or none |
| `Tables.Database.UpdateEnvBuildStatus` | packages/db/queries/update_template_build_status.sql.go:47-54 | sets the status of one build and keeps its active row |
| `Tables.Database.FinishTemplateBuild` | packages/db/queries/finish_template_build.sql.go:15-27 | drops the active row and sets the given status in one statement |
| `Tables.Database.FailTemplateBuildAndDeactivate` | packages/db/queries/update_template_build_status.sql.go:16-26 | drops the active row and sets the status in one statement |
| `Tables.Database.DeleteTemplate` | packages/db/queries/delete_template.sql.go:14-30 | deletes the env with its cascade; remaining and returned alias keys together are the old ones |
| `Tables.DeleteReportsAliases` | packages/db/queries/delete_template.sql.go:34-57 | every alias key the cascade removes is returned, with multiplicity, and no other |
| `Tables.AliasKeyExactly` | packages/db/queries/delete_template.sql.go:16-22 | a returned key is the namespace, a slash and the alias, or the alias alone |
| `Tables.GroupsExactly` | packages/db/migrations/20260210120002_add_status_group_column.sql:6-16 | the statuses of each group, by name; every other text counts as failed |
| `SnapshotHistory.StepKeepsApart` | packages/db/queries/create_new_snapshot.sql.go:17-63 | every statement keeps each snapshot row on a snapshot env of its own, that env and team as they were, and no env named by the placeholder |
| `SnapshotHistory.StepKeepsBijectionExactly` | packages/api/internal/handlers/template_delete.go:67-97 | a statement keeps snapshot rows and snapshot envs in correspondence if and only if it deletes no env that another snapshot is based on, which the handler checks |
| `SnapshotHistory.RunKeepsBijection` | packages/db/queries/create_new_snapshot.sql.go:17-63 | so over every run of all statements, registrations, tags and deletions between the upserts |
| `SnapshotHistory.RowKeepsEnv` | packages/db/queries/create_new_snapshot.sql.go:57-62 | while its row is not deleted a sandbox keeps the env it was first given, and its team |
| `SnapshotHistory.RowRefines` | packages/db/queries/create_new_snapshot.sql.go:27-63 | over every run a stored row has the env, base env, team, creation time, secure flag and internet access of the upsert that created it, and the metadata, start time, origin node, auto-pause and config of the latest one |
| `SnapshotHistory.DefaultAssignmentsCount` | packages/db/queries/create_new_snapshot.sql.go:102-110 | default assignments on snapshot envs number the successful upserts, less those deleted with their env |
| `SnapshotHistory.AssignmentsRefine` | packages/db/queries/create_new_snapshot.sql.go:102-112 | the default assignments of a sandbox's env are its upserts since its row was created, in order, whatever ran between them |
| `SnapshotHistory.CandidatesRefine` | packages/db/queries/get_last_snapshot.sql.go:15-22 | the candidates of the query are those upserts whose build is ready |
| `SnapshotHistory.LastSnapshotIsNewestReady` | packages/db/queries/get_last_snapshot.sql.go:12-23 | with increasing assignment times, the last snapshot is the build of the newest upsert whose build is ready, and nothing exactly when none is |
| `SnapshotHistory.ReadyIsFinalExactly` | packages/db/queries/update_template_build_status.sql.go:16-54 | ready is final all along a run if and only if no status statement takes the build out of the ready group |
| `SnapshotHistory.LastSnapshotRefinesHistory` | packages/db/queries/get_last_snapshot.sql.go:12-23 | then the last snapshot is the build of the newest upsert whose build became ready, and nothing exactly when none did |
| `BuildRegistry.StepKeepsInvExactly` | packages/db/queries/create_template.sql.go:101-117 | for each statement, the condition visible before it under which it keeps the registry invariant, in both directions |
| `BuildRegistry.AssignKeepsExactly` | packages/db/queries/create_template_build_assignment.sql.go:14-17 | an assignment keeps it if and only if the build is not pending or no other pending build holds that tag |
| `BuildRegistry.StatusKeepsExactly` | packages/db/queries/update_template_build_status.sql.go:16-54 | a status change keeps it if and only if it ends no build that keeps its active row and revives none whose tag another pending build holds |
| `BuildRegistry.RunKeepsInvExactly` | packages/db/queries/update_template_build_status.sql.go:16-54 | the invariant holds all along a run if and only if every statement of it met its condition |
| `BuildRegistry.SnapshotNeverActive` | packages/api/internal/orchestrator/pause_instance.go:30-70 | a build created by a snapshot upsert is never active, so the plain terminal updates after a pause or a snapshot are safe |
| `BuildRegistry.RunKeepsInv` | packages/db/queries/update_template_build_status.sql.go:16-54 | as the callers use the statements, in every reachable state each active row names a non-terminal build, and no two pending builds of one template share a tag |
| `BuildRegistry.FateRefines` | packages/db/queries/create_template.sql.go:101-117 | for every build and every run, its history says whether it is pending and under which tags it is held |
| `BuildRegistry.PendingUntilEnded` | packages/db/queries/create_template.sql.go:101-117 | a registered build is pending exactly until a status report of its own or a later registration under a tag it still holds |
| `BuildRegistry.StepTracksExactly` | packages/api/internal/template-manager/create_template.go:165-182 | a statement keeps every running registered build in the active table if and only if it neither revives one without a row nor drops the row of a running one |
| `BuildRegistry.RunTracks` | packages/db/queries/update_template_build_status.sql.go:47-54 | while none does, every registered build that runs has an active row |
| `BuildRegistry.LateProgressLosesTrack` | packages/api/internal/template-manager/create_template.go:165-182 | a progress report after a superseding registration leaves a running build without an active row |
| `BuildRegistry.UntaggedIsPassedBy` | packages/db/queries/delete_template_build_assignment.sql.go:12-15 | a tag removed from a waiting build lets a later registration under it pass the build by: both stay pending and active |
| `BuildRegistry.PlainUpdateCanBreak` | packages/db/queries/update_template_build_status.sql.go:47-54 | the statement could break the invariant: two registrations and one plain update back to pending |
| `TemplateDeletion.ExclusiveIsSoleHolder` | packages/db/queries/get_exclusive_builds_for_template_deletion.sql.go:14-24 | the query returns exactly the builds whose only holder is the template, whatever their tags |
| `TemplateDeletion.HoldersAfterDelete` | packages/db/queries/delete_template.sql.go:14-30 | a deletion takes exactly the template out of the holders of every build |
| `TemplateDeletion.UntagReleasesExactly` | packages/db/queries/delete_template_build_assignment.sql.go:12-15 | a removal of tags takes a build's last holder if and only if all of its assignments are on that template under those tags |
| `TemplateDeletion.ReleaseExactly` | packages/db/queries/get_exclusive_builds_for_template_deletion.sql.go:14-24 | at every step by the owning team a build loses its last holder exactly to a deletion that reported it, or to the removal of its last tags |
| `TemplateDeletion.ReportsReleaseExactly` | packages/db/queries/delete_template.sql.go:20-26 | reported builds are all released if and only if the team owns the template or nothing was reported |
| `TemplateDeletion.ReleasesAreReportsAndLastTags` | packages/db/queries/get_exclusive_builds_for_template_deletion.sql.go:14-24 | over every run of all statements a build loses its last holder as often as it is reported plus as often as it loses its last tags |
| `TemplateDeletion.ReleasedExactlyOnce` | packages/db/queries/get_exclusive_builds_for_template_deletion.sql.go:28-33 | without new assignments a held build that loses all holders is reported once or loses its last tags once, and any other neither |
| `TemplateDeletion.ReportedExactlyOnce` | packages/db/queries/get_exclusive_builds_for_template_deletion.sql.go:28-33 | when no tags are removed either, it is reported once if its holders are all deleted, and otherwise never |
| `TemplateDeletion.NeverReportedWhileShared` | packages/db/queries/get_exclusive_builds_for_template_deletion.sql.go:17-23 | a build is never reported while another template holds it, over every run of all statements |
| `TemplateDeletion.WrongTeamReportsTwice` | packages/db/queries/delete_template.sql.go:20-26 | a team that does not own the template has the build reported, deletes nothing, and it is reported again |
| `TemplateDeletion.UntaggedIsNeverReported` | packages/db/queries/delete_template_build_assignment.sql.go:12-15 | a build whose only tag is removed loses its last holder and is never reported |
| `MountPaths.CleanIdempotent` | packages/api/internal/handlers/sandbox_create.go:401-403 | cleaning a cleaned path changes nothing, for every path |
| `MountPaths.CleanNeverEmpty` | packages/api/internal/handlers/sandbox_create.go:401-403 | a cleaned path is never empty and stays absolute or relative; the empty path becomes the dot |
| `MountPaths.CleanPreservesMeaning` | packages/api/internal/handlers/sandbox_create.go:401-403 | from every directory a path and its cleaned form lead to the same place |
| `MountPaths.ValidMountPathExact` | packages/api/internal/handlers/sandbox_create.go:392-406 | valid is the root or slash-joined components none of which is empty, `.` or `..`; the reason about components is given exactly when one is |
| `MountPaths.AcceptedRoundTrip` | packages/api/internal/handlers/sandbox_create.go:392-406 | an accepted path is rebuilt from its components, and they are the directories down to its mount point |
| `MountPaths.ComponentsRoundTrip` | packages/api/internal/handlers/sandbox_create.go:392-406 | every list of plain names is the list of an accepted path |
| `MountPaths.AcceptedInjective` | packages/api/internal/handlers/sandbox_create.go:392-406 | different accepted strings denote different mount points |
| `MountPaths.CleanIsTheAcceptedSpelling` | packages/api/internal/handlers/sandbox_create.go:392-406 | the cleaned form of an absolute path is the one accepted spelling of its place |
| `VolumeMounts.DedupeVolumeNames` | packages/api/internal/handlers/sandbox_create.go:276-288 | every requested name exactly once, in any order |
| `VolumeMounts.LookupFinds` | packages/db/queries/volumes.sql.go:105-109 | as a team has one volume of a name, looking a name up finds that volume and no other |
| `VolumeMounts.GetDBVolumesMap` | packages/api/internal/handlers/sandbox_create.go:408-423 | the map holds exactly the requested names the team has a volume for, each with that volume |
| `VolumeMounts.ValidateMounts` | packages/api/internal/handlers/sandbox_create.go:351-383 | the reports are exactly the faulty indices, ascending, each with its first reason; without reports there is one result per mount, in order |
| `VolumeMounts.GateExactly` | packages/api/internal/handlers/sandbox_create.go:321-349 | for each gate the requests it turns away, the earlier gates first, and the requests that pass them all |
| `VolumeMounts.ConvertAPIVolumesToOrchestratorVolumes` | packages/api/internal/handlers/sandbox_create.go:321-390 | no mounts succeed before any gate; otherwise the first failing gate decides, then the reports or the results |
| `VolumeMounts.ProblemExactly` | packages/api/internal/handlers/sandbox_create.go:358-376 | the reason a mount is reported for: no such volume of the team, an empty, relative or unclean path, or a path that an earlier mount of a known volume has |
| `VolumeMounts.ResultExactly` | packages/api/internal/handlers/sandbox_create.go:377-382 | each result carries the ID, type and name of the team's volume of the requested name, and the requested path |
| `VolumeMounts.NoProblemExact` | packages/api/internal/handlers/sandbox_create.go:351-389 | no mount is faulty if and only if every volume is known, every path canonical, and no two mounts land on one directory |
| `VolumeMounts.FirstUseIsKept` | packages/api/internal/handlers/sandbox_create.go:370-376 | a path reported as already used has an earlier mount that is not faulty |
| `MountCycle.ConvertOrchestratorMountsToDatabaseMounts` | packages/api/internal/orchestrator/nodemanager/sandboxes.go:130-143 | the loop copies every mount, in order |
| `MountCycle.ConvertDatabaseMountsToOrchestratorMounts` | packages/api/internal/handlers/sandbox_resume.go:174-187 | the loop copies every mount, in order |
| `MountCycle.ConvertFromDBMountsToAPIMounts` | packages/api/internal/handlers/sandboxes_list.go:346-359 | the loop shows name and path of every mount, in order |
| `MountCycle.MountsSurviveCycles` | packages/api/internal/handlers/sandbox_resume.go:174-187 | after any number of pauses and resumes the orchestrator gets the mounts of the creation |
| `MountCycle.ListedAsRequested` | packages/api/internal/handlers/sandboxes_list.go:346-359 | a created sandbox is listed with exactly the mounts that were requested, before and after pauses |
| `TeamMetrics.BucketOf` | packages/clickhouse/pkg/team.go:24 | a bucket is the start of the one interval of the step's width that holds the time |
| `TeamMetrics.RowsAscend` | packages/clickhouse/pkg/team.go:43-54 | rows have strictly ascending buckets, one for every bucket with a sample |
| `TeamMetrics.BucketsPartition` | packages/clickhouse/pkg/team.go:22-32 | summing per bucket loses and repeats nothing |
| `TeamMetrics.RatesConserveTotal` | packages/clickhouse/pkg/team.go:48-54 | rate times step, summed over the rows, is everything created in the window |
| `TeamMetrics.MaxStartRateRow` | packages/clickhouse/pkg/team.go:90-106 | the start rate query names the bucket and the rate of one of the rows |
| `TeamMetrics.MaxStartRateAgrees` | packages/clickhouse/pkg/team.go:90-106 | the largest row rate is the start rate query's value |
| `TeamMetrics.MaxConcurrentRow` | packages/clickhouse/pkg/team.go:141-149 | some row has the bucket of the concurrency query's timestamp and the whole part of its value |
| `TeamMetrics.MaxConcurrentAgrees` | packages/clickhouse/pkg/team.go:141-149 | the largest row concurrency is the whole part of the concurrency query's value |
| `TeamMetrics.ToInt64Exactly` | packages/clickhouse/pkg/team.go:33-42 | toInt64 keeps the whole part, towards zero |
| `TeamMetrics.ConcurrencyEqualExactly` | packages/clickhouse/pkg/team.go:34-42 | the two are the same number if and only if that value is whole |
| `TeamMetrics.QueriesAgree` | packages/clickhouse/pkg/team.go:20-149 | total, largest rate and largest concurrency of the three queries over the same tables, team, window and step |
| `TeamMetrics.ForeignSample` | packages/clickhouse/pkg/team.go:26-38 | a sample of another metric, of another team, or outside the window, whose ends are inside, changes no answer of the three queries |
| `TeamMetrics.OwnCreated` | packages/clickhouse/pkg/team.go:22-32 | a sample of the team's created sandboxes in the window adds its value to rate times step summed over the rows |
| `TeamMetrics.OwnCreatedRate` | packages/clickhouse/pkg/team.go:90-106 | and the largest start rate is at least that of the sample alone |
| `TeamMetrics.OwnRunning` | packages/clickhouse/pkg/team.go:141-149 | a sample of the team's running sandboxes in the window raises the largest concurrency to its value, or leaves it |
| `ConnectResume.Connect` | packages/api/internal/handlers/sandbox_connect.go:24-163 | the effects follow the environment's answers and the connect protocol with three attempts; a malformed request is answered 400 with no effect |
| `ConnectResume.Attempt` | packages/api/internal/handlers/sandbox_connect.go:66-119 | one turn of the retry loop: an answer, a missing sandbox, or a wait |
| `ConnectResume.Resume` | packages/api/internal/handlers/sandbox_resume.go:28-171 | the effects follow the environment's answers and the resume protocol; a malformed request is answered 400 with no effect |
| `ConnectResume.ResumeFromSnapshot` | packages/api/internal/handlers/sandbox_connect.go:121-163 | from the snapshot lookup to the response |
| `ConnectResume.ConnectPromises` | packages/api/internal/handlers/sandbox_connect.go:63-163 | on every schedule: one response, last; at most three keep-alives and a wait only after one; at most one start, right after a snapshot of the team, and none after seeing the sandbox killed |
| `ConnectResume.ResumePromises` | packages/api/internal/handlers/sandbox_resume.go:69-171 | the same for resume, which reads the store once, asks for no keep-alive and waits at most once; a start needs the sandbox missing, or its own pause waited out |
| `ConnectResume.ConnectStatus` | packages/api/internal/handlers/sandbox_connect.go:67-162 | 200 answers exactly a keep-alive that worked and 201 exactly a start that worked |
| `ConnectResume.ConnectCodes` | packages/api/internal/handlers/sandbox_connect.go:67-162 | the code of the response for each effect that can come before it |
| `ConnectResume.ResumeCodes` | packages/api/internal/handlers/sandbox_resume.go:69-120 | the code of a resume for each owner and state in the store that does not lead to the snapshot lookup |
| `ConnectResume.TailCodes` | packages/api/internal/handlers/sandbox_connect.go:121-163 | after the snapshot lookup: 404 without a snapshot of the team, 500 when it cannot be read, 201 or the failure's own code after a start |
| `ConnectResume.KillingIsConflict` | packages/api/internal/handlers/sandbox_connect.go:91-95 | having seen a killing, connect answers 409 |
| `ConnectResume.ResumeStatus` | packages/api/internal/handlers/sandbox_resume.go:98-171 | 201 answers exactly a start that worked; having seen a killing, resume answers 404 |
| `ConnectResume.StartNeedsAbsence` | packages/api/internal/handlers/sandbox_connect.go:75-78 | connect starts only after the store has lost the sandbox or after all attempts were spent on transitions |
| `ConnectResume.OneConnect` | packages/api/internal/handlers/sandbox_connect.go:63-163 | an environment leaves connect exactly one trace |
| `ConnectResume.OneResume` | packages/api/internal/handlers/sandbox_resume.go:69-171 | an environment leaves resume exactly one trace |

## Left out

- HTTP parsing, authentication, telemetry, logging, analytics and throttling semaphores: outcomes are datatypes and status codes.
- Base64 and RFC 3339 text of page tokens: a token is its decoded text, with the timestamp as a text without underscores; `GetV2Sandboxes` takes the parsed cursor.
- Displayed fields of listed sandboxes (sizes, aliases, envd version): only key, state and metadata are kept.
- Sandboxes in the states snapshotting and killing: the listing reads neither from the store; the concurrent walk covers pauses, successful or failing, and no resumes or kills.
- `PauseWalk.ConcurrentWalk`: pauses may fail on the node, or at the upsert of a first row; a failing upsert over an older row is left to `PauseWalk.FailedUpsertListsTwice`, as a walk can then list the sandbox twice.
- The database driver, which is not part of this repository: it is taken to cut times to microseconds, not to round them.
- Time zones and clock changes: times are integers in nanoseconds, cut to microseconds where they enter the database; rows written by other means than an upsert have whole microseconds as well.
- Text collation other than bytewise; UTF-8.
- `Instances.Instance.Sync`: machine information and versions are not kept; compatibility of a machine is a parameter of `GetAvailableTemplateBuilder`.
- Goroutines inside one synchronization round and rounds that overlap a close: both loops run serially, as do the closes of `Cluster.Close`; a round after the close is a late round.
- `InstancePool.Cluster.PoolInsert`: the outcome of dialing and of the first sync is a parameter; gRPC connections are numbers in a ledger of closes.
- Service discovery itself (Nomad, edge API) and `GetTemplateBuilderByNodeID`, `GetByServiceInstanceID`, `GetOrchestrators`: lookups over the same pool.
- Locks, races within a statement, NULL uniqueness of aliases, row level security, the table `snapshot_templates`, and columns that no property here reads (sizes, versions, timestamps of builds).
- Alias handling during registration: whether the alias is free is a parameter of `RegisterBuild`.
- `SnapshotHistory.LastSnapshotRefinesHistory`: needs strictly increasing assignment times, as the query breaks ties arbitrarily, and registrations and tags that leave the default tag of snapshot envs to the upserts.
- `BuildRegistry.RunKeepsInv`: callers are taken as the source has them: plain updates report progress, or end a build that a snapshot upsert created, and no pending build is tagged; `BuildRegistry.RunKeepsInvExactly` needs no such assumption.
- Garbage collection of released builds: the repository does not delete them yet, so a report has no effect on the tables.
- Symbolic links and the orchestrator's own treatment of mount paths: cleaning is lexical, on slash-separated paths.
- Parsing and comparing envd versions: `ConvertAPIVolumesToOrchestratorVolumes` takes the comparison as a parameter that may reject a version's form.
- Network configuration, egress rules, access tokens, auto-resume policy and the rest of sandbox creation: single-step checks.
- Floating point: metric values and rates are reals, `toInt64` truncates without overflow, and the time reported when there is no data (the clock) is no value here.
- `TeamMetrics.QueriesAgree`: samples are non-negative and the three queries use one step and window; the handlers may pass different steps.
- `ConnectResume.Resume`: the second snapshot read inside the start callback is part of the start's outcome; `SnapshotHistory.RowKeepsEnv` is why it needs no second team check.
- The orchestrator, the snapshot cache and the sandbox store behind connect and resume: answers of an arbitrary environment that may depend on the whole history.
