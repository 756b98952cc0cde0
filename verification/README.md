# Précis: models and proofs

A Dafny 4.11 project that models the algorithmic cores of the Précis server and proves what they
promise. `dafny verify dfyconfig.toml` checks all of it.

## What is modelled

- **Artifact store** (`ArtifactStore`, `ArtifactInvariants`, `ArtifactTableProofs`, `ArtifactOpProofs`,
  `ArtifactRunProofs`, `ArtifactTheorems`). The three SQL tables, the disk, the per-user advisory lock
  and eleven kinds of operation, each with one phase per point between two statements or file-system
  calls. Any number of operations interleave; unlinks and transactions may fail, requests may be
  cancelled and a process may crash anywhere. A commit is atomic, an exception is a rollback.
  `ArtifactRegistry` has the same procedures as one process runs them alone, with their loops, on one
  mutable store. `ArtifactSerial` and `ArtifactAlone` tie the two together: what an operation commits is what
  its procedure would do then, and alone it does just that.
- **Native client pool** (`ClientPool`, `PoolProofs`, `ClientPoolObjects`). Threads as steps over the locked
  sections, with factory calls, client closes and queries as steps of their own; and the two classes
  with their fields, tied to the same sections.
- **Snapshot cache** (`SnapshotCache`). One user's Redis keys under WATCH, MULTI and EXEC, with key expiry.
- **Hierarchies** (`RollupClosure`, `GeneratedEdges`). The relation that the recursive query denotes, as a
  bag of rows, and the edges generated from a leaf table.
- **Catalogue** (`CycleCheck`, `Statements`, `ParentWalks`). Kahn's check, statement checks and flattening,
  the breadth-first ancestor walk and the two depth-first key collectors.
- **Rollups and filters** (`GrainRollup`, `Filters`, `Conditions`). Additive rollups with nulls and
  grouping masks; filters resolved to ids per view column and rendered as bound conditions.
- **Pruning, schemas, periods** (`Prune`, `SchemaNull`, `PeriodCodes`).
- `Common`, `Strings` and `Totals` hold what several modules share.

## What the code does that its documentation does not say

- `reconcile_orphans` promises to clean up "without racing recent writes" (registry.py:365). It reads the
  clock after its snapshot query, so the hour has to cover both a write's time to commit and that
  query's delay. `FilesSafeIffTimely` states the exact condition.
- `fetch_cached_read_result` renews a snapshot for min(idle, `int(expires_at - now)`) (datasets.py:155-163). The
  rounding can end the window up to a second before that of an earlier fetch: `FetchedSurvives` states what
  holds for every fetch, `CachePurgesDue` what is deleted exactly, `RoundingLosesSnapshot` a run.
- `build_diamond_check_sql` promises pairs reached "by more than one path" (ragged_views.py:380-387). It
  counts rows, so an edge or leaf row stored twice is reported too: `DiamondExactly` states the exact
  condition, `StoredTwice` an input.
- `resolve_filters` promises one list per view column for each leaf dimension (filter_resolver.py:270-275).
  Two leaf dimensions on one column, or a ragged key whose first transitive leaf is not its
  `leaf_dimension`, lose a filter: `FiltersKeptIffCorresponding` states the exact condition on the
  catalogue and the keys, `SharedKeyColumn` an input.
- `strip_null_from_anyof` raises a TypeError when the one non-null member is not an object:
  `StripsIffStrippable` states the exact condition, `BooleanMembers` an input.
- `prune_bundles` promises that "a manifest is deleted only when every artifact it references is gone"
  (prune.py:5). A lookup that fails counts as a missing artifact: `StrandsIffUnseen` states the exact
  condition, `FailedLookupStrands` an input, and `StrandedForGood` what follows.
- `MASK` is meant to tell grains apart (ibis_retriever.py:276-286). With a dimension requested twice it
  does not, and the resolver does not remove repeats: `GrainsApartIffDistinct` states the exact condition.

## Assumptions

- One clock that never goes back; SHA-256 is injective; names from `secrets` are fresh; `hashtext` maps users
  to different advisory locks; row locks never admit more interleavings than the model has.
- The write of a blob (`_write_atomic`) is one step, as is the examination and unlink of one orphan.
- Timestamps are integers in the artifact store, seconds as reals in the cache. Metric values are exact reals.
- The caches' workers agree on the clock and on the `PRECIS_DATASET_*` limits, which are positive.
- Digits are ASCII and patterns match whole strings; a trailing newline is not accepted. `int()` takes
  ASCII digits only, without signs, spaces or underscores.
- Metric keys of a rollup are distinct, as the resolver's plan gives them (resolver.py:94); dimensions need not be.
- The level columns of a leaf table hold no nulls.
- Manifests are written by backup runs, which name artifacts as `RunsKeepKeysApart` says.
- Files read and written by other programs, and manual changes of the tables, do not happen.

## Model

| member | source | states |
|---|---|---|
| ArtifactTheorems.QuotaBounds | precis_mcp/artifacts/registry.py:93-109 | In every reachable state, with crashes, rollbacks and failing unlinks at any point, a user's `files` bytes plus unfinished reservations are at most 100 MiB, and with retired blobs at most 100 MiB plus one 10 MiB file. No assumption about timing. |
| ArtifactTheorems.FilesSafeIffTimely | precis_mcp/artifacts/registry.py:364-379 | In every run, each visible row's blob has its recorded size and hash and no next unlink by anyone hits the path of a visible row, if and only if the longest write-to-commit time plus the longest delay between the reconciliation's snapshot query and its clock reading are at most 3600 s. |
| ArtifactTheorems.TimelyFilesSafe | precis_mcp/artifacts/registry.py:324-361 | The sufficient half: create-rollback, update, garbage collection, retirement and reconciliation all spare visible files whenever both delays fit the threshold together. |
| ArtifactTheorems.LateFilesUnsafe | precis_mcp/artifacts/registry.py:366-376 | The failing family: whenever the two delays together exceed the threshold there is a run in which reconciliation is about to unlink the blob of a committed, visible file. |
| ArtifactTheorems.OneReceiver | precis_mcp/artifacts/routes.py:114-118 | At most one request is receiving the bytes of an upload. |
| ArtifactTheorems.UploadedBytesStaged | precis_mcp/artifacts/routes.py:132-150 | An unexpired `uploaded` session always has a staging file, of exactly the reserved size, holding exactly what its request received, however long any write or query takes: a session lives 900 s, and reconciliation removes nothing younger than 3600 s. |
| ArtifactTheorems.CompletionsAgree | precis_mcp/artifacts/uploads.py:38-68 | Over any mix of concurrent and repeated completions, at most one file is registered per upload and every answer to a successful completion is that file. |
| ArtifactTheorems.RegisteredIsReceived | precis_mcp/artifacts/registry.py:154-180 | A registered file that no update has rewritten records the hash of the bytes its upload received. |
| ArtifactRunProofs.StepKeepsInv | precis_mcp/artifacts/registry.py:133-400 | Every step of every operation, a tick, a crash or a soft delete keeps the protocol invariant: names, staging, registrations, sizes, both quota bounds, blobs, and what each operation in flight relies on. |
| ArtifactRunProofs.RunKeepsInv | precis_mcp/artifacts/registry.py:133-400 | The invariant holds after any sequence of steps. |
| ArtifactRunProofs.MoveSound | precis_mcp/artifacts/registry.py:133-278 | Each operation's next statement or file-system call has only an effect it is entitled to by the lock, fresh name or receipt it holds, and afterwards what it must remember is true. |
| ArtifactTableProofs.TablesKept | precis_mcp/artifacts/registry.py:93-109 | Every entitled effect on the tables or the disk keeps the table invariant. |
| ArtifactOpProofs.KnowsKept | precis_mcp/artifacts/registry.py:89-90 | What an operation in flight relies on survives every entitled effect of any other operation. |
| ArtifactSerial.CommitsAreSerial | precis_mcp/artifacts/registry.py:133-400 | In every reachable state, whatever an operation commits next is what its procedure would do at that instant: a reservation or file that fits the quota then; an update of a row that has the expected digest then, with the next version, the new size and digest, and the old blob retired; a receipt of as many bytes as reserved; the removal only of a row, session or blob that is still claimed and off the disk. |
| ArtifactSerial.NoLostUpdate | precis_mcp/artifacts/registry.py:248-249 | Of two updates made on the condition of one digest, in any interleaving, only one commits, unless the first one changed nothing or somebody restored the expected contents in between. |
| ArtifactSerial.DigestChanges | precis_mcp/artifacts/registry.py:265-270 | Over any run, a file's digest changes only by a committed update to the new one. |
| ArtifactAlone.AloneIsRun | precis_mcp/artifacts/registry.py:133-400 | What the lemmas below call an end of an operation alone is a run of the protocol, with every other operation left where it stands. |
| ArtifactAlone.ReserveAlone | precis_mcp/artifacts/uploads.py:12-28 | With nobody holding the user's lock, a reservation does what `Registry.BeginUpload` is proved to do, refusal included. |
| ArtifactAlone.CreateAlone | precis_mcp/artifacts/registry.py:133-188 | The same for a file from no upload and `Registry.CreateFile`. |
| ArtifactAlone.UpdateAlone | precis_mcp/artifacts/registry.py:225-278 | The same for `Registry.UpdateFileBlob`, up to the collection of the old blob. |
| ArtifactAlone.ExpireAlone | precis_mcp/artifacts/registry.py:325-345 | The same for one file of `Registry.ExpireFiles`. |
| ArtifactAlone.CloseAlone | precis_mcp/artifacts/registry.py:346-360 | The same for one session of `Registry.CloseSessions`. |
| ArtifactAlone.RetireAlone | precis_mcp/artifacts/registry.py:382-400 | The same for one blob of `Registry.CollectRetired`. |
| ArtifactAlone.ReceiveAlone | precis_mcp/artifacts/routes.py:106-150 | A request with a body of the reserved size, in whatever pieces, leaves exactly it staged and the session `uploaded`, as `Registry.ReceiveUpload` does. |
| ArtifactAlone.AbortAlone | precis_mcp/artifacts/routes.py:151-169 | A body of another size leaves no staging file and the session `pending`. |
| ArtifactAlone.CompleteAlone | precis_mcp/artifacts/uploads.py:38-68 | A completion answers with the registered file, registers the received bytes and then answers, or is refused and changes no table, exactly as `Registry.CompleteUpload` does. |
| ArtifactAlone.OvertakenAlone | precis_mcp/artifacts/registry.py:154-166 | A completion that another one has overtaken answers with the visible file registered meanwhile, or registers nothing. |
| ArtifactAlone.RetryAlone | precis_mcp/artifacts/uploads.py:47-60 | So does one that finds the staged bytes gone. |
| ArtifactAlone.ReconcileAlone | precis_mcp/artifacts/registry.py:364-379 | A reconciliation can remove every file that `Registry.ReconcileOrphans` removes. |
| ArtifactAlone.SlowCommit | precis_mcp/artifacts/registry.py:170-187 | A row can be committed for as long after its blob's writing as the timing allows. |
| ArtifactAlone.FailureWritesNothing | precis_mcp/artifacts/registry.py:181-188 | An exception or a cancellation, at whatever point, writes nothing by itself; what it leaves to be cleaned up, phase by phase. |
| ArtifactAlone.RollbackAlone | precis_mcp/artifacts/registry.py:181-188 | A creation or update that fails after writing its blob takes the blob off the disk again. |
| ArtifactAlone.KeptAlone | precis_mcp/artifacts/registry.py:338-341 | A collection whose unlink fails leaves a tombstone. |
| ArtifactAlone.BrokenAlone | precis_mcp/artifacts/routes.py:151-169 | A transfer that fails before its file is in place is cleaned up; the session is pending again, also when an unlink fails. |
| ArtifactAlone.ClaimsPending | precis_mcp/artifacts/routes.py:114-118 | A request begins to receive only a pending session of its user's with the size it was issued for, unexpired when its statement ran. |
| ArtifactAlone.CrashAlone | precis_mcp/artifacts/registry.py:89-90 | A process that dies leaves tables and files as they are, and its lock free. |
| ArtifactAlone.SoftDeleteAlone | precis_mcp/artifacts/registry.py:320-321 | A deletion takes effect exactly on the owner's undeleted row, whoever holds the lock. |
| ArtifactAlone.SeesThePast | precis_mcp/artifacts/routes.py:144-146 | No statement sees a time later than the clock, and a session is finished only before its expiry at the statement's time. |
| ArtifactRegistry.Registry.QuotaNow | precis_mcp/artifacts/registry.py:93-109 | `quota_used` computes the sum of stored, retired and unfinished reserved bytes, optionally without one upload. |
| ArtifactRegistry.QuotaOfNothing | precis_mcp/artifacts/registry.py:93-109 | An empty store uses nothing of a quota. |
| ArtifactRegistry.QuotaCountsFile | precis_mcp/artifacts/registry.py:96 | Each stored file counts with its size, for its owner. |
| ArtifactRegistry.QuotaCountsSession | precis_mcp/artifacts/registry.py:98-100 | Each session that is not complete counts with the size it reserved. |
| ArtifactRegistry.QuotaCountsRetired | precis_mcp/artifacts/registry.py:97 | Each retired blob counts with its size until it is collected. |
| ArtifactRegistry.Registry.BeginUpload | precis_mcp/artifacts/uploads.py:12-28 | Reserves exactly when 1 <= size <= 10 MiB and the quota admits it, as a pending session that expires 900 s from now; otherwise no table changes. |
| ArtifactRegistry.Registry.ReceiveUpload | precis_mcp/artifacts/routes.py:106-169 | Succeeds exactly on a pending, unexpired session whose size matches the capability, the Content-Length if there is one, and the number of bytes sent; then it is `uploaded` with exactly those bytes staged. Otherwise the session is as before and only its own two staging paths may differ. |
| ArtifactRegistry.Registry.Stream | precis_mcp/artifacts/routes.py:132-140 | The copying loop: it reports the expected total exactly when the body has that many bytes, and then the partial file holds the whole body. |
| ArtifactRegistry.Registry.CreateFile | precis_mcp/artifacts/registry.py:133-188 | Succeeds exactly on a repeated completion, whose file it returns, or on an admitted upload (or none) within size and quota, when blob, row and completed session appear together; a refusal leaves every table and the disk unchanged. |
| ArtifactRegistry.Registry.Admit | precis_mcp/artifacts/registry.py:154-166 | The upload branch: an already registered visible file, a received upload of the right size, or a refusal. |
| ArtifactRegistry.Registry.UpdateFileBlob | precis_mcp/artifacts/registry.py:225-278 | Succeeds exactly for an owned visible file with the expected hash, within size and with `used - old + new` within quota; the row then points at the new version and the old blob is retired or already collected. A refusal changes nothing. |
| ArtifactRegistry.Registry.SoftDelete | precis_mcp/artifacts/registry.py:320-321 | Sets `deleted_at` exactly on the owner's undeleted row. |
| ArtifactRegistry.Registry.CompleteUpload | precis_mcp/artifacts/uploads.py:38-68 | Succeeds exactly on a repeat, returning the same file and changing nothing, or on a received session the quota admits, whose staged bytes become a file that expires 24 hours later; any later repeat returns that file. |
| ArtifactRegistry.FiledForADay | precis_mcp/artifacts/uploads.py:38-68 | The registered row: size, SHA-256 and path of the received bytes, version 1, expiry 24 hours after the clock; the upload is complete and names the file. |
| ArtifactRegistry.FiledIs | precis_mcp/artifacts/registry.py:172-187 | A new file, written out: its blob, its row, the session completed with it, and nothing else. |
| ArtifactRegistry.UpdatedIs | precis_mcp/artifacts/registry.py:258-272 | An update, written out: the blob of the next version, the row's new size, SHA-256, path and version, the old blob retired with its size, and nothing else. |
| ArtifactRegistry.Registry.CollectRetired | precis_mcp/artifacts/registry.py:382-400 | The loop removes exactly the user's (or everybody's) retired rows and blobs whose unlink succeeds, and changes nothing else. |
| ArtifactRegistry.Registry.ExpireFiles | precis_mcp/artifacts/registry.py:325-345 | The first loop: each deleted or expired row goes with its blob, or stays as a tombstone when an unlink fails; both reported counts are exact. |
| ArtifactRegistry.Registry.CloseSessions | precis_mcp/artifacts/registry.py:346-360 | The second loop: each lapsed session goes with its staging files, or stays when an unlink fails. |
| ArtifactRegistry.Registry.ReconcileOrphans | precis_mcp/artifacts/registry.py:364-379 | Removes exactly the files older than an hour that no row refers to, where unlinking succeeds. |
| ArtifactRegistry.Registry.GcExpired | precis_mcp/artifacts/registry.py:324-361 | The whole collection: its final tables and disk, and its two counts. |
| ArtifactRegistry.GcSparesVisible | precis_mcp/artifacts/registry.py:324-361 | Collection leaves every visible row and the bytes of its blob exactly as they were. |
| ArtifactRegistry.GcRemovesClaimed | precis_mcp/artifacts/registry.py:330-344 | A deleted or expired row is removed if and only if both its unlinks succeed; otherwise it is left marked deleted. |
| ArtifactRegistry.GcClearsAll | precis_mcp/artifacts/registry.py:324-379 | When every unlink succeeds, no retired, claimed or lapsed row and no orphaned old file is left. |
| PoolProofs.PoolConservation | precis_mcp/analytical/resources.py:15-81 | In every interleaving, `_count` equals idle plus on loan plus under construction, between 0 and capacity; every client ever built is in exactly one place, and closed at most once. |
| PoolProofs.ClosedPoolIsEmpty | precis_mcp/analytical/resources.py:73-81 | After `close` and the last release the count is 0 and every client ever built has been closed exactly once. |
| PoolProofs.ActiveSetsDisjoint | precis_mcp/analytical/resources.py:84-121 | The `_active` sets of different handles are disjoint from each other, from the idle list and from the closed clients. |
| PoolProofs.CancelReachesOwnLoans | precis_mcp/analytical/resources.py:123-138 | For the whole of a `cancel` call, each client still to be cancelled is on loan to a run of that same handle and held by no other thread. |
| PoolProofs.CancelReachesAll | precis_mcp/analytical/resources.py:123-138 | From its start to its end, whatever happens meanwhile, a `cancel` calls `cancel()` exactly once on each client that was active on its handle when it started, on no other, and nothing of the handle changes: no run of it starts, ends, or takes up or gives back a client. |
| PoolProofs.FailedIsNeverReused | precis_mcp/analytical/resources.py:61-71 | A client whose query failed is never idle and never lent again. |
| PoolProofs.ClosedPoolLendsNothing | precis_mcp/analytical/resources.py:73-81 | Once `ClientPool.close` has begun, nothing is idle, and nobody gets or builds a client. |
| PoolProofs.ReuseAlone | precis_mcp/analytical/resources.py:28-71 | With no `cancel` of its handle going on, a run borrows the newest idle client if it is fresh, and gives it back on top of the idle list, or closes it and frees its slot if the query fails. |
| PoolProofs.BuildAlone | precis_mcp/analytical/resources.py:50-71 | The same with a client built in a free slot. |
| PoolProofs.BuildFailsAlone | precis_mcp/analytical/resources.py:51-57 | A factory that fails leaves everything as it was, the reserved slot included. |
| PoolProofs.CancelAlone | precis_mcp/analytical/resources.py:123-138 | A `cancel` goes through its handle's active clients in any order, and ends. |
| PoolProofs.CloseAlone | precis_mcp/analytical/resources.py:140-144 | The `close` of a handle without runs returns, and has closed it. |
| PoolProofs.PoolCloseAlone | precis_mcp/analytical/resources.py:73-81 | `ClientPool.close` closes every idle client once and gives their slots back. |
| PoolProofs.NewHandleAlone | precis_mcp/analytical/resources.py:87-92 | A new handle is open, and has no run and no client. |
| PoolProofs.TimePasses | precis_mcp/analytical/resources.py:40-43 | Time can pass at any point. |
| PoolProofs.FullWaits | precis_mcp/analytical/resources.py:46-52 | With neither, it waits, or gives up and leaves nothing behind. |
| PoolProofs.ClosedHandleStaysQuiet | precis_mcp/analytical/resources.py:140-144 | Once a handle's `close` has returned it has no run in flight in any later state, and none can start. |
| PoolProofs.StepKeepsInv | precis_mcp/analytical/resources.py:28-144 | Every locked section and every unlocked call between them keeps the pool invariant. |
| PoolObjects.ClientPool.CheckOut | precis_mcp/analytical/resources.py:33-50 | One pass of the locked block of `acquire`, tied to the transition system's section. |
| PoolObjects.ClientPool.Acquire | precis_mcp/analytical/resources.py:28-59 | The retry loop, run alone: it discards exactly the expired clients above the newest fresh one, hands that one out, or builds if a slot is free; the count is adjusted for each. |
| PoolObjects.ClientPool.Release | precis_mcp/analytical/resources.py:61-71 | Returns the client to the idle list, or discards it when closed or not reusable. |
| PoolObjects.ClientPool.Close | precis_mcp/analytical/resources.py:73-81 | Retires exactly the idle clients and closes the pool. |
| PoolObjects.PooledQueries.RunQuery | precis_mcp/analytical/resources.py:100-121 | A whole run, however it ends, leaves the handle as it was and as many clients on loan; a successful query returns its client to the top of the idle list, a failed one does not. |
| SnapshotCache.LiveBytesBounded | precis_mcp/datasets.py:77-135 | For any interleaving of caching and fetching workers, expiry included, the sizes hash keeps to the byte and count caps, records every live snapshot with its size, which is within the limit for one, and so bounds the live bytes and their number. |
| SnapshotCache.PurgeSparesRenewed | precis_mcp/datasets.py:138-172 | Making room deletes a live snapshot only if the window of its last renewal, counted from that renewal's clock reading, had ended when the request began. |
| SnapshotCache.ScoreIsRenewal | precis_mcp/datasets.py:155-168 | A live key's score is the clock reading of its last renewal plus min(idle, remaining); its end is later than that by exactly the delay between the reading and the EXEC. |
| SnapshotCache.CacheStores | precis_mcp/datasets.py:118-124 | A cache request's EXEC stores its snapshot for min(idle, max age). |
| SnapshotCache.CachePurgesDue | precis_mcp/datasets.py:104-124 | It deletes exactly the live snapshots whose last renewal's window had ended when the request began, and leaves the others as they are. |
| SnapshotCache.CacheIndexes | precis_mcp/datasets.py:104-124 | The index then has the new key and of the others those not due. |
| SnapshotCache.FetchRenewsKey | precis_mcp/datasets.py:150-169 | A fetch's EXEC keeps its key alive for min(idle, remaining) from then on, records that in its score, and changes no other key. |
| SnapshotCache.FetchedSurvives | precis_mcp/datasets.py:138-172 | A snapshot fetched with clock reading n and window ttl is deleted by no cache request that began before n + ttl - 1, in any later state of any run. |
| SnapshotCache.RoundingLosesSnapshot | precis_mcp/datasets.py:155-163 | The second matters: a run in which a second fetch, whose remaining time is rounded down, ends the window earlier, and a request that began before the first fetch's n + ttl deletes the live snapshot. |
| SnapshotCache.CacheAlone | precis_mcp/datasets.py:98-127 | A cache request that fits, with nobody in its way, is carried out. |
| SnapshotCache.FetchAlone | precis_mcp/datasets.py:145-169 | So is a fetch of a live, unexpired snapshot. |
| SnapshotCache.IndexWatchDecides | precis_mcp/datasets.py:102-135 | An EXEC, of either kind, is refused exactly when the index was written since its WATCH: the other watched keys are never written without it. |
| SnapshotCache.CacheGivesUp | precis_mcp/datasets.py:100-135 | A cache request refused five times gives up and has written nothing. |
| SnapshotCache.FetchGivesUp | precis_mcp/datasets.py:147-172 | So does a fetch. |
| SnapshotCache.RunKeepsInv | precis_mcp/datasets.py:77-172 | The accounting invariant holds after any sequence of Redis commands, refused EXECs and abandonments. |
| RollupClosure.RollupRows | precis_mcp/engine/ragged_views.py:350-373 | The recursive query's bag: a row occurs exactly as often as its path can be spelled with stored leaf and edge rows, and only for simple paths ending at its node. |
| RollupClosure.RowsAreSimplePaths | precis_mcp/engine/ragged_views.py:350-373 | The rows are exactly the simple upward paths from each leaf, on any finite edge set, cyclic or multi-parent; the function that builds them terminates. |
| RollupClosure.RollupIsReachability | precis_mcp/engine/ragged_views.py:324-347 | The DISTINCT projection is exactly reflexive-transitive reachability from the leaves. |
| RollupClosure.DiamondExactly | precis_mcp/engine/ragged_views.py:376-399 | The diamond check lists a pair exactly when two simple paths reach it, or one path one of whose rows is stored more than once. |
| RollupClosure.StoredTwice | precis_mcp/engine/ragged_views.py:376-399 | One leaf and one edge stored twice: a single path, and the pair is reported all the same. |
| RollupClosure.DiamondIsTwoPaths | precis_mcp/engine/ragged_views.py:376-399 | Without duplicate rows, the diamond check lists exactly the pairs with two simple paths. |
| RollupClosure.DiamondCountsPaths | precis_mcp/engine/ragged_views.py:376-399 | Without duplicate rows, the reported count is the number of simple paths. |
| GeneratedEdges.BuildEdges | precis_mcp/engine/ragged_views.py:96-139 | From the level columns and the rows of the leaf table: the edges are the level pairs leaf-most first, each pair once, then the root's edges. |
| GeneratedEdges.UnionLevels | precis_mcp/engine/ragged_views.py:117-134 | The loop over the levels emits the unions in that order. |
| GeneratedEdges.ClosureCovers | precis_mcp/engine/ragged_views.py:96-139 | For every leaf table, whatever its columns hold, the closure over the generated edges contains each row's own ancestors; in particular `all` reaches every leaf. |
| GeneratedEdges.ClosureNames | precis_mcp/engine/ragged_views.py:96-139 | In terms of the columns: each row's leaf is reached from the prefixed value of each of its level columns, and from `all`. |
| GeneratedEdges.ClosureIsProjection | precis_mcp/engine/ragged_views.py:142-159 | When ids of different levels do not collide in the leaf table, the closure over the generated edges is the per-row projection it replaced if and only if rows with the same cell in a level column agree on its parent cell among the leaf's own ancestors. |
| GeneratedEdges.DependencyGivesProjection | precis_mcp/engine/ragged_views.py:96-139 | In particular they are the same when in the table each cell of a level determines its parent cell. |
| GeneratedEdges.TableEdgesOnce | precis_mcp/engine/ragged_views.py:117-134 | When ids of different levels do not collide, no edge is emitted twice. |
| GeneratedEdges.TableDiamonds | precis_mcp/engine/ragged_views.py:376-399 | So on such a leaf table with distinct leaves the diamond check lists exactly the pairs with two simple paths. |
| CycleCheck.HasCycle | precis_mcp/engine/catalogue.py:464-485 | Kahn's algorithm returns None exactly when the graph restricted to its keys is acyclic; otherwise a non-empty set each of whose nodes has a predecessor in the set. |
| CycleCheck.SelfFeedingHasCycle | precis_mcp/engine/catalogue.py:464-485 | Such a set contains the nodes of a cycle. |
| CycleCheck.OrderedIsAcyclic | precis_mcp/engine/catalogue.py:474-482 | A graph whose nodes can be listed so that every edge goes forward has no cycle. |
| CycleCheck.CountDependents | precis_mcp/engine/catalogue.py:466-470 | The first loop's in-degrees count the dependents of each node. |
| Statements.ResolveIsFlattening | precis_mcp/engine/catalogue.py:1568-1596 | Resolution succeeds with a list exactly when the statement has a finite concat tree whose depth-first frontier is that list. |
| Statements.RaisesIffCycleReachable | precis_mcp/engine/catalogue.py:1576-1580 | On any closed catalogue it terminates, and raises, with the circularity error, exactly when a concat cycle is reachable. |
| Statements.CheckStatement | precis_mcp/engine/catalogue.py:1128-1153 | One statement's checks accept it exactly when it has `lines` or `concat` but not both, its lines are metric keys or separators, and its concat entries statement names or separators. |
| Statements.Validate | precis_mcp/engine/catalogue.py:1127-1167 | The checks accept exactly the catalogues whose statements are well formed and whose concat graph is acyclic. |
| Statements.AcceptedResolves | precis_mcp/engine/catalogue.py:1568-1596 | In an accepted catalogue every statement resolves, to metric keys and separators only. |
| ParentWalks.WalkParents | precis_mcp/engine/catalogue.py:973-998 | Each proper ancestor is listed once, even with parent cycles, with the column of the last hop of a shortest chain. |
| ParentWalks.FilterKeys | precis_mcp/engine/context_validation.py:179-227 | A key is valid exactly when it is reachable from an axis with master data of a chosen domain or is a ragged hierarchy over one. |
| ParentWalks.BreakdownKeys | precis_mcp/engine/context_validation.py:467-513 | The breakdown keys are exactly the filter keys and the inline axes. |
| ParentWalks.WalkFilter | precis_mcp/engine/context_validation.py:208-221 | The first depth-first closure: it adds only reachable keys, leaves no parent unvisited, and terminates on cycles. |
| ParentWalks.WalkBreakdown | precis_mcp/engine/context_validation.py:493-505 | The second closure visits the same keys, and marks every visited key but the starting one. |
| GrainRollup.AggregateRowsForSet | precis_mcp/engine/ibis_retriever.py:233-266 | The grouping loops compute one row per key of the live dimensions, in order of first appearance, each metric the sum of the group's non-null values, and one row of zeros for an empty grand total. |
| GrainRollup.NullIffAllNull | precis_mcp/engine/ibis_retriever.py:253-264 | A group's metric is null exactly when every value in the group is null. |
| GrainRollup.GrandTotalIsSqlSum | precis_mcp/analytical/sql.py:103-105 | The grand total is one row and equals `CASE WHEN COUNT(*) = 0 THEN 0 ELSE SUM(x) END`, on empty input too. |
| GrainRollup.RollupComposes | precis_mcp/engine/ibis_retriever.py:194-197 | Rolling a grain up to a coarser one gives, row for row, what rolling up the detail rows gives. |
| GrainRollup.EmptyRollupRow | precis_mcp/engine/ibis_retriever.py:269-287 | The loop over the dimensions keeps the live cells and sets one mask bit per rolled-up dimension. |
| GrainRollup.SetBitIs | precis_mcp/engine/ibis_retriever.py:283 | Setting a mask bit sets it, set before or not, and leaves the others. |
| GrainRollup.PrefixMask | precis_mcp/engine/ibis_retriever.py:276-286 | With the first k of n dimensions live the mask is 2^(n-k) - 1. |
| GrainRollup.MaskDetermines | precis_mcp/engine/ibis_retriever.py:276-286 | Equal masks mean the same live dimensions, so grains never collide. |
| GrainRollup.RequestedGroupingSets | precis_mcp/engine/ibis_retriever.py:218-230 | The grouping sets are exactly the requested prefixes, longest first. |
| GrainRollup.RollupDetailRows | precis_mcp/engine/ibis_retriever.py:186-215 | Detail-only requests and dimensionless ones return the rows unchanged, nothing requested returns none; otherwise the result is the requested grains' rollups one after the other, finest first, for any dimensions, repeated ones too. |
| GrainRollup.RollupTold | precis_mcp/engine/ibis_retriever.py:186-215 | With distinct dimensions the rows of that result are told apart by their mask: those carrying a requested grain's mask are exactly that grain's rollup, no other rows occur, and finer grains come first. |
| GrainRollup.GrainsApartIffDistinct | precis_mcp/engine/ibis_retriever.py:276-286 | The masks of the grains differ if and only if no dimension is repeated. |
| Filters.TargetIs | precis_mcp/engine/filter_resolver.py:44-71 | A key can be filtered on exactly when it is a leaf dimension, a derived one with a transitive leaf, or a ragged one whose leaf dimension is among its transitive leaves; and which leaf dimension the filter narrows. |
| Filters.BoundColumn | precis_mcp/engine/filter_resolver.py:172-214 | A leaf dimension bound in the domain is filtered on the column of its first binding, when a ragged key's first transitive leaf is its leaf dimension. |
| Filters.UnboundColumn | precis_mcp/engine/filter_resolver.py:172-214 | One that is not bound is filtered on its own key column. |
| Filters.ResolveFilters | precis_mcp/engine/filter_resolver.py:254-343 | Fails exactly when some filter cannot be resolved; otherwise each view column lists the ids common to all filters on the leaf dimension written to it last. |
| Filters.AdmitsIffMeetsAll | precis_mcp/engine/filter_resolver.py:289-341 | When filters share a leaf dimension exactly when they share a column, a row passes the resolved filters exactly when it meets each one separately. |
| Filters.FiltersKeptIffCorresponding | precis_mcp/engine/filter_resolver.py:323-341 | The exact condition, on the catalogue and the filter keys alone: whatever their values and the ids their queries return (one at most for a leaf filter), every filter is enforced if and only if some key has no target, so that resolving fails, or keys share a leaf dimension exactly when they share a view column. |
| Filters.LostKeyIsNotKept | precis_mcp/engine/filter_resolver.py:323-341 | A key whose column another leaf dimension is written to last, or whose leaf dimension is last written to another column, is not enforced: with at most one id from each leaf query, some row passes that its filter forbids. |
| Filters.SharedKeyColumn | precis_mcp/engine/filter_resolver.py:323-341 | A catalogue where it happens: with two leaf dimensions outside the domain that both have the key column `id`, the second filter replaces the first. |
| Filters.ContradictionAdmitsNone | precis_mcp/engine/filter_resolver.py:323-341 | Filters on one leaf with no common id admit no row. |
| Conditions.InValues | precis_mcp/analytical/sql.py:131-150 | Binds every value, in either dialect, so that the condition holds exactly for the listed values (never for none); it fails exactly on an unsafe name or a marker already bound. |
| Conditions.BaseConditions | precis_mcp/engine/inspect.py:348-377 | Succeeds exactly when every column name is safe, so the collision error cannot occur; a row meets the rendered conditions exactly when it meets the scenario, the period bounds and every filtered column. |
| Conditions.MarkersDiffer | precis_mcp/analytical/sql.py:141-146 | Markers of different columns or positions have different names. |
| Conditions.InspectSql | precis_mcp/engine/inspect.py:316-345 | The same for the whole query: the limit parameter, and the committed-rows condition on versioned domains. |
| Conditions.InspectFiltered | precis_mcp/engine/inspect.py:247-277 | End to end: the query is built exactly when the period column is a safe name, every filter resolves and every column they resolve to is a safe name; with corresponding keys, a row passes the WHERE clause exactly when it meets the bounds and every requested filter separately. |
| Prune.PruneBundles | precis_mcp/backup/prune.py:55-101 | The two loops end normally exactly when no deletion they try fails in another way than by refusal; then they leave exactly the objects not due to go, report exactly the deletions made, and count the refusals. However they end, only objects due to go have gone, and no manifest before an artifact of its that lookups can see. |
| Prune.CollectDoomed | precis_mcp/backup/prune.py:64-78 | The first loop dooms exactly the artifacts of unprotected runs at a rank beyond keep or with a start before the cutoff. |
| Prune.RunsKeepKeysApart | precis_mcp/backup/runner.py:131-192 | What the pruning relies on, from the names a run gives its objects: an artifact belongs to one manifest and is no manifest. |
| Prune.RunsKeepStoresApart | precis_mcp/backup/runner.py:131-192 | The artifacts of one run have different keys for different stores. |
| Prune.RunWrites | precis_mcp/backup/runner.py:131-192 | The keys a run writes, spelled out. |
| Prune.RankedIs | precis_mcp/backup/prune.py:66-70 | The ranking lists exactly the manifests with an artifact of the store, newest run id first. |
| Prune.ProtectedRunStays | precis_mcp/backup/prune.py:73-74 | Nothing of the protected run, manifest or artifact, goes. |
| Prune.GoesOnlyBeyondBounds | precis_mcp/backup/prune.py:71-78 | An artifact goes only if, for its store, keep-many distinct runs no older than its own have one, or its run started before the age cutoff. |
| Prune.WithinBoundsStays | precis_mcp/backup/prune.py:71-78 | An artifact stays when, in every store it is listed for, fewer than `keep` other runs with one are as new, and its run did not start more than `days` times 86400 s before `now`. |
| Prune.SurplusGoes | precis_mcp/backup/prune.py:71-78 | An unprotected run's artifact goes, if the destination deletes it, when at least `keep` runs with one are newer, or its run started more than `days` times 86400 s before `now`. |
| Prune.ManifestFollows | precis_mcp/backup/prune.py:91-101 | A manifest goes, if it can be deleted, when one of its artifacts goes and no other exists that stays. |
| Prune.ManifestGoesLast | precis_mcp/backup/prune.py:91-101 | A manifest goes only when each of its artifacts whose lookup works is missing or goes too. |
| Prune.StrandsIffUnseen | precis_mcp/backup/prune.py:30-35 | The exact condition for a manifest to go while an artifact of it stays: it has a doomed artifact, can be deleted itself, and the lookup fails of each of its artifacts that exist and are not doomed or cannot be deleted, of which there is one at least. |
| Prune.StrandedForGood | precis_mcp/backup/prune.py:55-101 | An artifact whose manifest is gone is removed by no later pruning, whatever its policy, time and destination. |
| Prune.FailedLookupStrands | precis_mcp/backup/prune.py:86-97 | Such an input: one old run with two artifacts, only one of them bound by age, and a failing lookup of the other. |
| Prune.AtMostKeepSurvive | precis_mcp/backup/prune.py:71-78 | When no deletion is refused or fails, at most `keep` runs plus the protected ones still have their artifact of a keep-bounded store. |
| Prune.PruningTwice | precis_mcp/backup/prune.py:45-101 | A second pruning at the same `now` removes nothing more. |
| SchemaNull.StripFixedPoints | precis_mcp/admin_ops.py:211-233 | A tree is left alone if and only if no `anyOf` in it has exactly one non-null member beside a null one; what stripping returns is such a tree, so it is idempotent. |
| SchemaNull.StripCleans | precis_mcp/admin_ops.py:211-233 | The result has nothing left to collapse, and keeps its kind and whether it is a null schema. |
| SchemaNull.StripsIffStrippable | precis_mcp/admin_ops.py:219-229 | The exact condition for the TypeError, for objects without repeated keys: stripping succeeds if and only if in no chain of single non-null members the innermost is anything but an object, in any part of the tree that survives the collapsing. |
| SchemaNull.StripKeepsUnique | precis_mcp/admin_ops.py:211-233 | What stripping returns repeats no key, so the exact condition applies to it again. |
| SchemaNull.BooleanMembers | precis_mcp/admin_ops.py:227-229 | A schema that raises it: an `anyOf` of `true` and a null schema; an `anyOf` of `true` and `false` is left alone. |
| SchemaNull.RegularStrips | precis_mcp/admin_ops.py:219-229 | When all `anyOf` members are objects, stripping never fails. |
| SchemaNull.FieldsSurvive | precis_mcp/admin_ops.py:219-230 | The result has exactly the fields that the collapsed objects have, through any depth of collapsing, each with the stripped value of its outermost occurrence: those beside an `anyOf`, and what the sole member brings. |
| SchemaNull.SiblingsSurvive | precis_mcp/admin_ops.py:227-229 | However deep the collapsing, every field beside an `anyOf` survives with its own stripped value. |
| SchemaNull.ItemsSurvive | precis_mcp/admin_ops.py:231-232 | A list is stripped element by element. |
| SchemaNull.CollapsesWhen | precis_mcp/admin_ops.py:220-226 | An `anyOf` collapses exactly when it has two members or more, of which exactly one is not `{type: null}`; that one is what it collapses to. |
| SchemaNull.OptionalInteger | precis_mcp/admin_ops.py:211-233 | The schema of an optional integer with a title becomes that of an integer with that title. |
| SchemaNull.MergedSize | precis_mcp/admin_ops.py:227-229 | The merged node is smaller than the one it replaces, so the recursion ends. |
| PeriodCodes.DetectIsMatch | precis_mcp/engine/period_codes.py:42-48 | A code has a grain exactly when it matches that grain's grammar, whatever the order of the grammars; so no code matches two. |
| PeriodCodes.ParseIffRender | precis_mcp/engine/period_codes.py:80-87 | A code parses to a grain and components exactly when it is their zero-padded rendering. |
| PeriodCodes.StringOrderIsPeriodOrder | precis_mcp/engine/period_codes.py:6-9 | For two codes of one grain, string order is component order. |
| PeriodCodes.GenerateMonthlyRange | precis_mcp/scope_resolver.py:66-80 | Fails exactly when a year or month slice of a bound is no number; otherwise the bounds are the months their slices spell, of whatever longer code, and the list is strictly increasing and holds exactly the start and the real month codes from start to end. |
| PeriodCodes.HasMonthWhen | precis_mcp/scope_resolver.py:69-70 | The slices are numbers exactly when the code has six characters and its first four, its sixth and any seventh are digits. |
| PeriodCodes.MonthsBetween | precis_mcp/scope_resolver.py:69-80 | The loop: for a real start its codes are exactly the real month codes the string comparison selects, and for real bounds their number is the number of months, or 0. |
| PeriodCodes.MonthPartIs | precis_mcp/scope_resolver.py:69-70 | A month code stands for itself, a date for its month. |

## Left out

- Permissions on artifacts and snapshots (`authorize_file`, `check_access`), MIME types, base names, tokens and provenance: data that the modelled state changes do not depend on.
- The per-process transfer limiter `transfer_slot` and `precis_mcp/concurrency.py`: counting semaphores, easier than the pool.
- Waiting in `ClientPool.acquire` and `PooledQueries.close`: a wait is a step that may happen or time out; nothing is said about who is woken, or when.
- `get_pool` and `close_analytical_resources`: a dictionary of pools.
- The retry loops of `cache_read_result` and `fetch_cached_read_result` are phases of a worker rather than loops, because what matters is what other workers do between two commands.
- The body of `upload` reads its chunks in one call in `ArtifactRegistry`; its cancellation between any two steps is in the transition system.
- ArtifactRegistry.Registry.CreateFile: takes from its one caller with an upload that the bytes are those the upload received.
- `_resolve_level_info`: level columns are given to `GeneratedEdges`.
- SQL text: quoting, casts, order of conditions and of listed ids, `LIMIT`; the relations and conditions are modelled.
- Prune.PruneBundles: the wall clock read for unparsable timestamps does not move during one pruning.
- SchemaNull.FieldsSurvive: the order of an object's keys in the result is not stated.
- Filters.ResolveFilters: the order of ids within a column's list is not stated.
- Derived metrics, period expansion, scope enforcement, scenario permissions, locks: they rest on files that are not part of this model.
- Report, table and chart layout, Excel, web routes, command lines and telemetry: their claims are settled by reading one branch.
