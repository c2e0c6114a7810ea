# SigmaHub host agent: a verified model

SigmaHub's host agent is a desired-state machine. It fetches signed, versioned documents of
typed operations, orders the operations by dependency, applies them against a crash-safe
journal and reports the results; a second loop converges containers from a local store of
desired specs. This project models that machine and the hard self-contained parts around it,
branch by branch, and proves what holds over every run. `dafny verify dfyconfig.toml` checks
all of it.

| file | what it models |
|---|---|
| `Dsd.dfy` | the coloured depth-first ordering of operations, proved against reachability of a cycle or a missing id |
| `Journal.dfy` | the byte-ordered key-value journal, its fixed-width keys, and the seek-and-scan that reads one version back |
| `Apply.dfy`, `Resume.dfy`, `CrashResume.dfy`, `Verdicts.dfy` | the serial apply loop as a sequence of effects that can be cut after any one of them, the theorems about whole histories of cut attempts, and what one pass says of each op |
| `DsdLoop.dfy` | the outer loop: fetch, three checks, apply, report, two version watermarks, restarts anywhere |
| `Docker.dfy`, `Rollout.dfy` | containers by name behind calls that may fail, be lost, or take effect and still report an error; the blue-green and the recreate swap |
| `Driver.dfy`, `Interleave.dfy` | converge, reconcile, collection, purge and the desired store; and every interleaving of them with snapshots, swaps and the outside world |
| `Wal.dfy`, `Pitr.dfy`, `Retention.dfy` | shipping write-ahead-log segments and forgetting old bundles, choosing what a point-in-time restore replays, pruning image tags |
| `RateLimiter.dfy`, `LogStream.dfy` | the token bucket; the attach framing and the line splitter |
| `Idempotency.dfy` | the control plane's Idempotency-Key protocol, over all requests for one key and the sweep that deletes old rows |
| `SigV4.dfy` | percent-encoding and the canonical query string |
| `Lex.dfy`, `Wrappers.dfy` | byte order on strings, and `Option` |

How failures enter the model:

- Every journal transaction completes or fails as a script says, so a read that fails before
  a write that works is a run too; a crash of the apply loop is a script whose transactions
  all fail from some point on. Handlers may behave differently at every attempt.
- Every daemon call, and every call of the desired store, takes its outcome from one script:
  `Fine`, `Lost` (no effect, error) or `Late` (effect, error; a store call has none). A process
  that dies inside a swap is one whose calls are all lost from some point on. The daemon keeps
  a ghost log of every change and the world after it, so "at every step" is a statement about
  that log.
- A cycle of the shipper says which of its stages work, what rm does not get to, what arrives
  meanwhile, and whether its report is made and gets through.
- Each locked critical section of the driver is one method call; `Interleave.Run` executes any
  sequence of them, and the theorems are about the trace it leaves.

## Where the code and its comments differ

The model follows the code in each case, and says exactly when the comment is right.

- `performRollout` does not gate a generation that already runs. `Rollout.PerformRollout`
  proves that the gate came first if and only if the name was not running at entry, or
  nothing was to be drained: no older generation, another spec under the name, or a failing
  inspection or list. That some generation always runs needs no such premise.
- `drainOld` swallows stop and removal errors. An older generation is left exactly if its
  removal was lost, and runs on exactly if it ran and its stop was lost as well
  (`Rollout.DrainOld`, carried to success of `Rollout.PerformRollout` and
  `Rollout.PerformRecreate`).
- `reconcileOne` converges to the spec of an earlier snapshot:
  `Interleave.RepairsWhatTheSnapshotHas` says it meets the record if and only if the record
  has not changed since, and `Interleave.StaleSnapshotRegresses` is a run that undoes an update.
- `GC` prunes the desired records of retained groups as well (`Driver.RetainedLosesItsRecord`).
- A collection whose read of the desired records or whose deletion of one fails removes the
  containers all the same: `Driver.Driver.Gc` says exactly when some record stays, and
  `Driver.RecordBringsItBack` is a run in which the next reconcile brings the container back.
- `persistRolloutGeneration` prunes before it puts: `Driver.Driver.PersistGeneration` says
  exactly when a rollout leaves its group without a record.
- Reconcile is a no-op the second time if and only if every container with its secrets
  provided was satisfied or can have its secret files seeded
  (`Driver.Driver.ReconcileTwice`); any other is created and removed on every pass.
- A restart treats what was applied as reported, so that an undelivered status is forgotten,
  if and only if the three transactions of its startup complete; otherwise the status is
  still outstanding and sent again (`DsdLoop.RestartForgetsReport`).
- The shipped mark is said only ever to move forward. A cycle that ships what an earlier one
  failed to remove may report a lower segment (`Wal.MarksCanFall`): a mark rises above all
  earlier ones if and only if something listed was below none of them (`Wal.RisesIff`), which,
  while every cycle has reported, is something not confirmed before (`Wal.CoveredIffSafe`).
  The control plane compares times and not segments, so its row goes back with a later report
  (`Wal.MovesBack`), and moves only forward if and only if the reports newer by their time
  never fall (`Wal.ForwardIff`).
- The managed labels win over the spec's own only where they are not empty: a spec without a
  service but with a service label of its own is created outside the group its swap drains
  (`Rollout.FreshIsInItsGroup`). The never-cut theorem has exactly that premise: for a name
  that is not running, with every call working, `Rollout.PerformRollout` proves that a
  successful rollout keeps the group served if and only if the spec keeps its group, and
  `Rollout.SwappedCuts` that otherwise it leaves the group without a running container.
- The joined group key tells groups apart only while resource ids hold no NUL
  (`Driver.GroupKeyInjective`, `Driver.GroupKeyCollides`).
- A bundle after the target time says nothing of its content: when tar fails and restic saves
  what it got, the bundle that "spans" the target may be empty (`Pitr.CutShortBundleSpans`).
  A bundle holds all that was ready at its cycle if and only if tar did not stop short of the
  list (`Wal.Shipper.ShipOne`), and then the staged bundles hold it (`Pitr.RestoreShipped`).
- A confirmed bundle stays in the repository only until a backup run forgets it: what the
  shipper promises is that nothing is lost but by forgetting (`Wal.Shipper.WhereItIs`,
  `Wal.Shipper.WhatAMarkMeans`).
- Idempotency release drops a done row if its handler answered with an empty body and the
  database reported an error after the update (`Idempotency.UnkeptCanGo`,
  `Idempotency.RunsAgain`). No route wrapped today answers so, as all end in a JSON body; and
  as long as that is so a stored response is always kept (`Idempotency.BodiedIsKept`,
  `Idempotency.FinalizedExecutesOnce`).
- A claim whose owner dies stays in progress, and a kept response stays to be replayed, if
  and only if the retention sweep does not fall in between (`Idempotency.WedgedUntilSwept`,
  `Idempotency.KeptUntilSwept`; `Idempotency.WhatWedges` for all the ways to be stuck). The
  sweep does not look at a row's state: it keeps the protocol's invariant if and only if no
  request has the claim (`Idempotency.StepKeeps`), and a request that ran longer than the
  window would be overlapped (`Idempotency.SweptOwnerOverlaps`).

## Model

| member | source | states |
|---|---|---|
| Dsd.TopoOrder | agent/internal/dsd/dsd.go:54-99 | ordered and unresolved partition the ids: unresolved are exactly those from which a missing id or a cycle is reachable, in document order; every ordered op follows all its dependencies, once |
| Dsd.Visitor.Visit | agent/internal/dsd/dsd.go:63-86 | one visit of the three-colour search settles its id: ok exactly when no dead end is reachable; terminates on the ids not yet visited |
| Dsd.Visitor.VisitDependencies | agent/internal/dsd/dsd.go:76-82 | the dependencies are visited until one cannot be ordered; ok exactly when all can |
| Dsd.DoomSpreads | agent/internal/dsd/dsd.go:76-82 | an op is unorderable if one of its dependencies is |
| Dsd.BackEdgeIsDoom | agent/internal/dsd/dsd.go:69-74 | meeting an op that is still being visited means its chain runs into a cycle |
| Dsd.OrderedIsNotDoomed | agent/internal/dsd/dsd.go:54-99 | no op that stands in a dependency order can reach a cycle or a missing id |
| Dsd.OrderPlainly | agent/internal/dsd/dsd.go:54-99 | position by position: every dependency of an ordered op stands before it, no id twice, and every op of the document is ordered or, if it cannot be, unresolved |
| Dsd.DoomedPlainly | agent/internal/dsd/dsd.go:64-82 | unorderable means that a path of dependencies leads to an id no op has, or back to where it has been |
| Dsd.UnresolvedInOrder | agent/internal/dsd/dsd.go:92-98 | the unresolved ids stand in document order |
| Dsd.LastOpWins | agent/internal/dsd/dsd.go:55-58 | of ops with one id the last counts |
| Journal.KeyInjective | agent/internal/apply/journal.go:125-127 | different (version, op id) pairs have different keys, negative versions included |
| Journal.KeyOfVersion | agent/internal/apply/journal.go:105-127 | a key carries a version's prefix if and only if it is of that version |
| Lex.PrefixRun | agent/internal/apply/journal.go:110-116 | in byte order the keys with one prefix are contiguous: a scan that has left them never meets another |
| Lex.FirstDifference | agent/internal/backup/wal.go:184 | the first byte in which two strings differ decides their order |
| Journal.PutStores | agent/internal/apply/journal.go:130-138 | putting a result keeps the rows in key order and equal to the updated table |
| Journal.ScanIsExact | agent/internal/apply/journal.go:107-118 | seek and scan collect exactly one version's results, each under its op id |
| Journal.Journal.Record | agent/internal/apply/journal.go:130-138 | a completed transaction stores the result in its slot and nothing else; a failed one changes nothing |
| Journal.Journal.Result | agent/internal/apply/journal.go:141-153 | the stored result of a slot, or none |
| Journal.Journal.ResultsForVersion | agent/internal/apply/journal.go:105-123 | exactly the latest result of every op of that version |
| Journal.Journal.SetLastAppliedVersion | agent/internal/apply/journal.go:72-79 | moves the applied watermark alone, or nothing |
| Journal.Journal.SetLastReportedVersion | agent/internal/apply/journal.go:95-100 | moves the report watermark alone, or nothing |
| Apply.FirstFailed | agent/internal/apply/apply.go:123-135 | the reason quotes the first dependency, in order, that failed or was skipped, with its error if it has one |
| Apply.RecordUnresolved | agent/internal/apply/apply.go:92-100 | every unorderable op is recorded failed before any op runs, or the write that failed ends the attempt |
| Apply.ApplyOne | agent/internal/apply/apply.go:102-184 | one op: resumed, skipped or given to its handler and then recorded; a failed write leaves the journal as the effects so far left it |
| Apply.Apply | agent/internal/apply/apply.go:88-190 | the journal is the replay of the effects the attempt got through, a prefix of its full trace; results come back exactly when it got through all of them, and only then does the applied version move |
| Verdicts.RunSays | agent/internal/apply/apply.go:146-184 | an op that a pass runs is recorded applied if and only if its kind has a handler that neither timed out nor returned an error; otherwise failed with the error's own text, or a timeout text that names the budget and quotes the error, or the unknown kind |
| Verdicts.RanIff | agent/internal/apply/apply.go:102-164 | a pass gives an op to its handler, once, if and only if it can be ordered, was not applied before, has every dependency applied and a handler for its kind; the call counts as succeeded under the same two conditions |
| Verdicts.SkipSays | agent/internal/apply/apply.go:111-144 | an op with a dependency that is not applied is skipped, and its text names the first of those and quotes its error |
| Verdicts.KeptOrUnorderable | agent/internal/apply/apply.go:91-109 | an op that was applied keeps its result, and one that cannot be ordered fails with the fixed text |
| Resume.LawfulKeeps | agent/internal/apply/apply.go:102-189 | each effect keeps the journal dependency-closed |
| Resume.PassGood | agent/internal/apply/apply.go:88-190 | every pass, over any order found and any journal left behind, is lawful, pairs calls with records and justifies every verdict by those of its dependencies |
| CrashResume.EveryPrefixIsClosed | agent/internal/apply/apply.go:88-190 | wherever a history of cut attempts stops, an op recorded applied has all its dependencies recorded applied |
| CrashResume.AppliedIsNeverRerun | agent/internal/apply/apply.go:103-109 | an op recorded applied is never given to its handler again at that version, through any number of cuts |
| CrashResume.CallIsRecordedOrCut | agent/internal/apply/apply.go:146-178 | a handler call is followed at once by its own record, or it is the last effect of a cut attempt |
| CrashResume.RerunMeansCutBeforeRecord | agent/internal/apply/apply.go:146-178 | a handler that succeeded is called again only if a cut fell between its return and its record, the first call then being the last effect of its attempt |
| CrashResume.RepeatsAreFew | agent/internal/apply/apply.go:146-178 | each cut repeats at most one succeeded op: a history has at most as many calls that succeeded and were made again as it has attempts that were cut |
| CrashResume.WatermarkMeansRecorded | agent/internal/apply/apply.go:186-189 | the applied version moves only to this version and only when every op has a record |
| CrashResume.JournalHoldsTheResults | agent/internal/apply/journal.go:105-123 | reading a completed version back gives exactly the map Apply returned; other versions' rows are untouched |
| CrashResume.VerdictsAreUnique | agent/internal/apply/apply.go:102-184 | with handlers that answer by op, states and error texts are determined by the graph, whatever the order |
| CrashResume.ResumeEqualsOneRun | agent/internal/apply/apply.go:83-190 | any cut attempts followed by a complete one return and store what one uncut run would have |
| CrashResume.SkipTracesToRoot | agent/internal/apply/apply.go:111-144 | from a skipped op, dependency edges through skipped ops reach a failed op whose error text ends the skip's |
| CrashResume.EverySkipHasARoot | agent/internal/apply/apply.go:111-144 | the same for every skip in what a complete Apply returns |
| DsdLoop.Startup | agent/cmd/sigmad/main.go:583-594 | the report watermark becomes the applied version exactly if all three transactions complete, and otherwise stays |
| DsdLoop.ReReport | agent/cmd/sigmad/main.go:604-617 | only the newest applied version is posted again, exactly when it is unreported, the journal can be read and it has results, and with what the journal holds |
| DsdLoop.RestartForgetsReport | agent/cmd/sigmad/main.go:583-617 | an undelivered status is forgotten by a restart if and only if the three startup transactions complete; otherwise it is outstanding, and posted again exactly when the journal can be read and has results |
| DsdLoop.Take | agent/cmd/sigmad/main.go:650-705 | a fetched document is begun if and only if it verifies, is addressed here and is newer; with the journal working it completes, becomes the applied version, and the reported one if and only if its status gets through; its status carries the results Apply returned |
| DsdLoop.AttemptKeepsGrounded | agent/internal/apply/apply.go:88-190 | an attempt, cut or not, leaves the rows of every version still to come those of attempts at its own document |
| DsdLoop.OneRound | agent/cmd/sigmad/main.go:595-712 | one trip round the loop is safe, begins the fetched document if and only if it passes the three checks, ends the loop if and only if the journal cannot be read or the credential is revoked, and sets both waits: doubled up to 32 seconds, one after a success |
| DsdLoop.TakeAndWait | agent/cmd/sigmad/main.go:650-700 | the same of the fetched document alone, with the wait after a failed attempt |
| DsdLoop.RunDSDLoop | agent/cmd/sigmad/main.go:576-713 | over all runs with any documents, journal failures and restarts: handlers and collection run only for verified, addressed, newer documents; applied versions increase; reported never exceeds applied; while the loop runs every fetched document that passes the three checks is begun, and applied and reported when the journal works |
| DsdLoop.SafeMeansIncreasing | agent/cmd/sigmad/main.go:663-667 | in a safe run completed versions strictly increase and none is begun again |
| Rollout.FreshIsInItsGroup | agent/internal/container/driver.go:394-408 | a created container is in its swap's group if and only if the spec's own labels do not name another service |
| Rollout.FreshLabels | agent/internal/container/driver.go:394-408 | every label of a created container: the driver's own, or where that is empty the spec's |
| Rollout.GenerationsApart | agent/internal/container/rollout.go:65-70 | generations of one container share a name if and only if they are the same |
| Rollout.GateHealthy | agent/internal/container/rollout.go:132-168 | said by index: passes exactly when some look finds the container running and healthy before a failed inspection or the end of the wait; touches nothing else |
| Rollout.GatePassesIff | agent/internal/container/rollout.go:143-167 | the condition of the gate by recursion on the looks is the one by index |
| Rollout.DrainOld | agent/internal/container/rollout.go:173-187 | stops and then removes older generations of the group and nothing else; one is left exactly if its removal was lost, and runs on exactly if it ran and its stop was lost too; an error means nothing was touched |
| Rollout.BringUp | agent/internal/container/rollout.go:330-355 | create, start, hook and gate touch only the new name; success means it runs fresh from its spec and passed its gate in this call |
| Rollout.SwapBlueGreen | agent/internal/container/rollout.go:303-359 | a rollout has two halves: only the new generation is touched, then older ones are drained, and the second is reached only once the new one runs |
| Rollout.PerformRollout | agent/internal/container/rollout.go:296-359 | never cut at any step with any call failing; no other group touched; an error leaves every other container as it was; gated before drained if and only if not already running or nothing to drain, said of the world at entry; when every call works it succeeds exactly when it should and only the new generation is left, and a failure leaves nothing new; success means a fresh container unless it ran already, and an older one left exactly where its removal was lost, running exactly where its stop was lost too; for a name not running the group stays served if and only if the spec keeps its group |
| Rollout.SwappedCuts | agent/internal/container/rollout.go:303-359 | a rollout whose fresh container is outside its group leaves the group without a running container |
| Rollout.SwappedServesIff | agent/internal/container/rollout.go:300-302 | never cut holds exactly for specs that keep their group |
| Rollout.RolloutAgain | agent/internal/container/rollout.go:303-359 | the group is never cut and no other touched through any number of crashes and re-runs |
| Rollout.SwappedServes | agent/internal/container/rollout.go:300-302 | a running container of the group is there after every change of a swap |
| Rollout.SwappedGates | agent/internal/container/rollout.go:307-355 | when exactly the gate precedes the drain, and what an error return has touched |
| Rollout.UntouchedPlainly | agent/internal/container/rollout.go:296-302 | no other group is touched, in the containers' fields: one that is unmanaged, or of another resource or service, is as it was after every change |
| Rollout.ServingPlainly | agent/internal/container/rollout.go:296-302 | a group is served if and only if a managed container of that resource and service runs |
| Rollout.GatedPlainly | agent/internal/container/rollout.go:307-355 | gated before drained means that a passed gate precedes every stop and removal of another container |
| Rollout.LeftPlainly | agent/internal/container/rollout.go:173-187 | an older generation is there afterwards if and only if a removal of it was lost, and runs if and only if it ran and a stop was lost too |
| Rollout.PerformRecreate | agent/internal/container/rollout.go:361-417 | at most one container of the group runs at every step, unless one outlived a stop and a removal that were both lost; success means the gate passed in this call and leaves an older generation exactly where its removal was lost; exactly when it succeeds; a generation that fails its gate is left in place |
| Rollout.RecreateConverged | agent/internal/container/rollout.go:371-385 | an unchanged running generation is gated again before the others are drained |
| Rollout.RecreateAnew | agent/internal/container/rollout.go:387-416 | everything is drained before the new generation starts |
| Rollout.RecreatedExclusive | agent/internal/container/rollout.go:387-396 | draining first keeps the group exclusive while the new one comes up |
| Rollout.AtMostOnePlainly | agent/internal/container/rollout.go:361-366 | exclusivity in the containers' fields |
| Rollout.ExclusivePlainly | agent/internal/container/rollout.go:361-366 | where two of a group run at once, one of them outlived a stop and a removal that were both lost |
| Driver.GroupKeyInjective | agent/internal/container/reconcile.go:201-203 | the joined key identifies the group while resource ids hold no NUL |
| Driver.GroupKeyCollides | agent/internal/container/reconcile.go:201-203 | with a NUL in a resource id two groups share a key |
| Driver.DesiredNames | agent/internal/container/reconcile.go:241-276 | exactly the names some op of the document asks for, the proxy's included |
| Driver.NamesPlainly | agent/internal/container/reconcile.go:241-276 | which names those are, op by op: the proxy's, an applied spec's, and a swap's with its generation |
| Driver.ProtectedGroups | agent/internal/container/reconcile.go:163-233 | exactly the keys of the groups that a swap op or a retain list claims |
| Driver.ClaimsPlainly | agent/internal/container/reconcile.go:163-233 | which groups those are, op by op, by resource and service |
| Driver.GcReap | agent/internal/container/reconcile.go:121-139 | removes exactly what is not named, not a peer's and not in a claimed group |
| Driver.ClaimedIsKept | agent/internal/container/reconcile.go:135-137 | every container of a claimed group survives |
| Driver.ReapedExactly | agent/internal/container/reconcile.go:121-139 | with NUL-free resource ids exactly the managed containers go that are not named, in no claimed group, and unowned or owned by this server |
| Driver.CreatedIsOwn | agent/internal/container/reconcile.go:194-197 | a created container is its own driver's to collect, and with server ids no other's |
| Driver.RetainedLosesItsRecord | agent/internal/container/reconcile.go:84-99 | retaining a group protects its containers but not their desired records |
| Driver.Driver.ResolveSecrets | agent/internal/container/driver.go:261-291 | succeeds exactly when every referenced secret is provided; the file-mode ones in order |
| Driver.Driver.Converge | agent/internal/container/driver.go:252-332 | touches its own name only; nothing when satisfied or when secrets are missing; success means satisfied, freshly created if it was not; when every call works it fails only for secrets, and then leaves no half-provisioned container |
| Driver.Driver.ReconcileOne | agent/internal/container/reconcile.go:33-51 | does nothing to a name that is no longer desired or is satisfied; when it can act the container ends with the spec's hash and running, unless it had that hash, did not run, and its policy is no or on-failure |
| Driver.Driver.Reconcile | agent/internal/container/reconcile.go:16-28 | touches only desired names, never a satisfied one whatever fails; when every call works exactly those desired containers end satisfied that were or can be, and something is done if and only if one was not settled |
| Driver.Driver.ReconcileTwice | agent/internal/container/reconcile.go:16-28 | after one undisturbed pass the next one leaves world and log as they are if and only if every desired container with its secrets provided was satisfied or can be seeded |
| Driver.Driver.ApplyContainer | agent/internal/container/driver.go:192-218 | the record is written exactly when the container was converged to it |
| Driver.Driver.Gc | agent/internal/container/reconcile.go:79-115 | records become the old ones that are named; containers the old ones not to be reaped; under failures only less is removed, and a process that dies half-way has removed no container whose record is still there; all unnamed records go exactly if every store call works, and all stay if the read fails; a live process removes the containers whatever became of the records; a container of another server and one that is not managed stay as they are; with nothing to collect nothing is done |
| Driver.Driver.GcTwice | agent/internal/container/reconcile.go:79-115 | collecting again for the same document leaves world, records and log as they are |
| Driver.RecordBringsItBack | agent/internal/container/reconcile.go:86-115 | runs in which a collection cannot read or delete a record: the container goes and the next reconcile brings it back |
| Driver.Driver.RemoveManagedContainers | agent/internal/container/purge.go:36-71 | success means no record, and no managed container that is unowned or owned by this server; unmanaged containers and those of another server stay as they are; a process that dies has removed nothing before the records are gone |
| Driver.Driver.PruneGroup | agent/internal/container/driver.go:342-352 | only older records of the group go, and all of them exactly if there are none or the list and every deletion work |
| Driver.Driver.PersistGeneration | agent/internal/container/driver.go:341-354 | records the new generation, drops only its own group's older records, and all of them when every call works; the group is left without a record exactly if it had none of this name, the pruning worked throughout and the put did not |
| Driver.Driver.ApplyRollout | agent/internal/container/rollout.go:443-471 | a generation recorded by a successful rollout is satisfied already and the only record of its group; a failed rollout records nothing |
| Interleave.Do | agent/internal/container/reconcile.go:16-115 | each locked operation, with any call failing, is a step of the interleaving |
| Interleave.Run | agent/internal/container/reconcile.go:16-115 | any sequence of locked operations, snapshots, single steps and single store transactions of swaps, and outside changes is a run |
| Interleave.GoneStaysGone | agent/internal/container/reconcile.go:30-38 | no resurrection: what is gone and not desired stays both over every interleaving until something asks for it |
| Interleave.RepairCreatesOnlyDesired | agent/internal/container/reconcile.go:33-38 | a reconcile step creates a container only if its name is desired at that step |
| Interleave.EverythingWasAskedFor | agent/internal/container/reconcile.go:30-38 | whatever is on the host was there or desired at the start or has been asked for since |
| Interleave.RepairsWhatTheSnapshotHas | agent/internal/container/reconcile.go:22-48 | a repair meets the record if and only if the record is still the snapshot's |
| Interleave.StaleSnapshotRegresses | agent/internal/container/reconcile.go:22-48 | a run in which a repair undoes a newer apply |
| Wal.LastIsTrueMark | agent/internal/backup/wal.go:154-157 | the last listed segment is a true prefix mark although more were archived meanwhile |
| Wal.LastIsGreatest | agent/internal/backup/wal.go:154-157 | the reported mark is the greatest of the segments listed, and every archived segment not yet safe is at or below it |
| Wal.RisesIff | agent/internal/backup/wal.go:154-157 | a mark is above every earlier one if and only if something listed was at or below none of them |
| Wal.CoveredIffSafe | agent/internal/backup/wal.go:154-157 | an archived segment is at or below some mark if and only if it was confirmed, while every cycle has reported; what is not confirmed is never |
| Wal.MarksCanFall | agent/internal/backup/wal.go:145-157 | a run whose marks go back: rm leaves the lower of two shipped segments, and the next cycle ships and reports it alone |
| Wal.StatusIsNewest | cp/internal/store/pitr.go:136-146 | the row holds the first report with the newest time, so its time only moves forward |
| Wal.ForwardIff | cp/internal/store/pitr.go:126-146 | the kept segment never moves back if and only if the segments of the reports newer on arrival never fall |
| Wal.MovesBack | cp/internal/store/pitr.go:126-146 | a later report of a lower segment moves it back |
| Wal.SafeIsHeld | agent/internal/backup/restic.go:194-206 | a confirmed segment is in the repository until every confirmed bundle with it is older than a forget's cutoff |
| Wal.Shipper.ArchiveOne | agent/internal/backup/wal.go:3-8 | an archived segment appears in the spool whole; a half-written one only under its temporary name |
| Wal.Shipper.ListSegments | agent/internal/backup/wal.go:164-186 | exactly the ready segments, sorted; none from a failed or nonzero listing |
| Wal.Shipper.Send | agent/internal/backup/wal.go:114-144 | a cycle is confirmed if and only if tar and restic both succeed; the bundle added holds all that was listed if and only if tar did not stop short of it |
| Wal.Shipper.Finish | agent/internal/backup/wal.go:145-157 | after a confirmed bundle rm takes all that was listed but what it does not get to, and the mark is reported or counted as unreported |
| Wal.Shipper.ShipOne | agent/internal/backup/wal.go:95-160 | every segment ever archived stays in the spool or was in a confirmed bundle and every mark stays true of those, whichever stage fails; an error deletes and reports nothing; success confirms all that was ready, of which exactly what rm did not get to stays in the spool, and reports the greatest unless the report is lost, which is then above every earlier mark if and only if something listed was covered by none; an added bundle is whole if and only if tar did not stop short |
| Wal.Shipper.Forget | agent/internal/backup/restic.go:194-206 | exactly the bundles older than the cutoff go |
| Wal.Shipper.Run | agent/internal/backup/wal.go:70-90 | the same over any number of cycles and forgets |
| Wal.Shipper.WhereItIs | agent/internal/backup/wal.go:92-94 | an archived segment is in the spool, in a bundle of the repository, or in confirmed bundles that were all forgotten; without a forget it is in one of the first two |
| Wal.Shipper.WhatAMarkMeans | agent/internal/backup/wal.go:154-157 | every archived segment up to a reported mark is in the repository, but for confirmed bundles that were forgotten |
| Pitr.SnapshotsByTag | agent/internal/backup/restic.go:240-267 | the well-formed rows, each as often as listed, oldest first |
| Pitr.LatestBase | agent/internal/backup/runner.go:698-710 | the latest base at or before the target, or none exactly when there is none |
| Pitr.StageWals | agent/internal/backup/runner.go:732-741 | stages every bundle not after the target and exactly one after it, the earliest |
| Pitr.SelectPitr | agent/internal/backup/runner.go:696-758 | base and bundles as promised, and when everything can be fetched refused exactly when there is no such base or no bundle after the target |
| Pitr.RowsPlainly | agent/internal/backup/runner.go:698-758 | the choice in terms of the listed rows: the newest base not after the target, every bundle up to it and one after it, the earliest |
| Pitr.ConfirmedIsFetched | agent/internal/backup/runner.go:732-741 | every confirmed bundle up to the target that is not forgotten is staged, with all that was ready at its cycle |
| Pitr.SpanningBundle | agent/internal/backup/runner.go:732-758 | the spanning bundle is one of the shipper's, later than the target, and brings all that was ready at its cycle if tar did not stop short |
| Pitr.AllIsFetched | agent/internal/backup/runner.go:716-741 | when stamps rise with the cycles and the spanning bundle is whole, every segment archived by its listing is staged, but for what only forgotten earlier bundles held |
| Pitr.RestoreShipped | agent/internal/backup/runner.go:696-758 | a restore from a shipped repository stages everything confirmed up to the target and not forgotten and, when the spanning bundle's tar did not stop short, everything ready at its cycle and, with rising stamps, everything archived by then that was not forgotten |
| Pitr.CutShortBundleSpans | agent/internal/backup/runner.go:732-758 | otherwise the spanning bundle may hold none of the archived segments |
| Retention.RetainImages | agent/internal/container/rollout.go:220-256 | attempts the removal of exactly the idle tags beyond the newest keep, in order; a keep that is not set is twenty |
| Retention.IdleIs | agent/internal/container/rollout.go:231-247 | the idle tags are the distinct tags under the prefix that nothing uses |
| Retention.NewestFirst | agent/internal/container/rollout.go:231-256 | of two idle tags the one kept longer has its first place earlier in the listing, by image and then by tag |
| Retention.OfferedSurvive | agent/internal/container/rollout.go:198-211 | the offered rollback targets all survive if and only if the other idle tags among them number at most keep less the targets |
| RateLimiter.EveryWindowBinds | agent/internal/container/ratelimit.go:34-51 | tokens never exceed what any window leaves |
| RateLimiter.SomeWindowIsTight | agent/internal/container/ratelimit.go:34-51 | and equal what the tightest window leaves |
| RateLimiter.TokenIffFits | agent/internal/container/ratelimit.go:34-51 | a token is there if and only if one grant more keeps every window within burst + rate * length |
| RateLimiter.FitsPlainly | agent/internal/container/ratelimit.go:34-51 | that condition in counts of granted calls and elapsed time |
| RateLimiter.WindowBound | agent/internal/container/ratelimit.go:30-51 | grants in any window number at most burst + rate * length |
| RateLimiter.TokensBounded | agent/internal/container/ratelimit.go:34-51 | tokens stay between zero and burst |
| RateLimiter.RateLimiter.Allow | agent/internal/container/ratelimit.go:34-51 | grants exactly what fits every window, at clock readings in any order |
| LogStream.DemuxDockerStream | agent/internal/container/dockerapi.go:766-784 | both streams and the error of the framing's specification |
| LogStream.DemuxPlainly | agent/internal/container/dockerapi.go:766-784 | the framing byte by byte: type 2 is stderr and any other stdout, the length is big-endian, a cut payload is delivered and an error |
| LogStream.DemuxEncode | agent/internal/container/dockerapi.go:763-784 | demuxing the frames of any writes gives back each stream's concatenation |
| LogStream.DemuxCut | agent/internal/container/dockerapi.go:766-784 | a stream cut anywhere yields prefixes, and an error if and only if the cut is inside a payload |
| LogStream.LogLineSplitter.Write | agent/internal/container/dockerapi.go:944-961 | emits the ended lines, and the rest if it has outgrown the backstop; at most 64 KiB stay buffered |
| LogStream.LogLineSplitter.Flush | agent/internal/container/dockerapi.go:963-968 | emits what is buffered, if anything |
| LogStream.SplitMore | agent/internal/container/dockerapi.go:944-955 | splitting a stream piece by piece gives the split of the whole |
| LogStream.SplitRejoins | agent/internal/container/dockerapi.go:944-955 | the lines with their newlines and the tail make up the stream, and hold no newline of their own |
| LogStream.WritePlainly | agent/internal/container/dockerapi.go:944-961 | one write emits the lines of what it had and was given, and keeps the rest up to 65536 bytes |
| LogStream.BytesConserved | agent/internal/container/dockerapi.go:944-961 | no byte but newlines is lost or added, however the stream was chunked |
| LogStream.BufferBounded | agent/internal/container/dockerapi.go:956-961 | the buffer holds no newline and at most 64 KiB after every write |
| LogStream.LinesExactly | agent/internal/container/dockerapi.go:936-968 | after a flush the lines are the stream's own if and only if no write with more to come left a longer unended line |
| LogStream.AnyChunking | agent/internal/container/dockerapi.go:936-968 | every chunking gives the stream's own lines if and only if no line is too long |
| LogStream.ShortPlainly | agent/internal/container/dockerapi.go:936-961 | short means that no stretch without a newline that more follows exceeds 65536 bytes |
| LogStream.FollowedLines | agent/internal/container/dockerapi.go:930-933 | framing and splitting compose |
| Idempotency.Table.Insert | cp/internal/store/idempotency.go:49-58 | claims only where there is no row, atomically |
| Idempotency.Table.Finalize | cp/internal/store/idempotency.go:69-74 | stores status and body on the row; an empty body is NULL, JSON is stored in its normal form, and any other body fails the update and leaves the row as it was |
| Idempotency.Table.Release | cp/internal/store/idempotency.go:79-84 | drops the row only while it has no response |
| Idempotency.Table.Advance | cp/internal/api/idempotency.go:17-92 | the middleware between two database calls is one move of the protocol |
| Idempotency.Serve | cp/internal/api/idempotency.go:17-92 | any requests in any order, with calls failing and processes dying, are a run |
| Idempotency.Table.Sweep | cp/internal/store/retention.go:164-169 | an old row goes whatever its state |
| Idempotency.StepKeeps | cp/internal/api/idempotency.go:36-89 | every act keeps the invariant, but for a sweep, which does if and only if no request has the claim |
| Idempotency.RunKeeps | cp/internal/api/idempotency.go:36-89 | at most one request has the claim, under its own hash, and executions take turns, in every run whose sweeps meet no claim |
| Idempotency.NeverOverlap | cp/internal/api/idempotency.go:36-46 | executions never overlap, and none runs under a row of another hash |
| Idempotency.SweptOwnerOverlaps | cp/internal/store/retention.go:164-169 | a running request whose row is swept is overlapped by the next one to arrive |
| Idempotency.KeptUntilSwept | cp/internal/api/idempotency.go:78-89 | after a kept response nothing executes and its row does not change, if and only if no sweep falls between |
| Idempotency.KeptIsReplayed | cp/internal/api/idempotency.go:47-57 | until a sweep every request that looks the key up gets the stored status and body (none where NULL is stored), or a mismatch if its hash differs |
| Idempotency.AnswerIsReplayed | cp/internal/api/idempotency.go:78-105 | end to end: after a handler's JSON answer under 500 whose finalize takes effect, every lookup with the same hash before a sweep gets exactly that status and body |
| Idempotency.OnlyDefinitiveIsKept | cp/internal/api/idempotency.go:78-84 | no answer of 500 or more is ever stored or replayed |
| Idempotency.ServerErrorDrops | cp/internal/api/idempotency.go:67-84 | a handler that answers with 500 or more gives its row up |
| Idempotency.BodiedIsKept | cp/internal/api/idempotency.go:78-89 | if every handler answers with a body, every done row has its response and is kept |
| Idempotency.FinalizedExecutesOnce | cp/internal/api/idempotency.go:78-89 | then a finalize that took effect is the last execution, if and only if no sweep falls between |
| Idempotency.UnkeptCanGo | cp/internal/store/idempotency.go:76-84 | a done row that is not kept has no response and is one call from being dropped |
| Idempotency.RunsAgain | cp/internal/api/idempotency.go:78-89 | a run in which a finalized key executes again after an empty body |
| Idempotency.WedgedUntilSwept | cp/internal/api/idempotency.go:67-75 | under a claimed key nobody holds nothing executes, if and only if no sweep falls between |
| Idempotency.SweptExecutes | cp/internal/store/retention.go:164-169 | after a sweep the next request executes |
| Idempotency.WhatWedges | cp/internal/api/idempotency.go:67-75 | the three moves, and no others, that leave a key claimed with nobody to finish |
| SigV4.UriEncoded | agent/internal/s3ops/sigv4.go:138-156 | the encoding loop computes the encoding that decoding undoes |
| SigV4.EncodedByte | agent/internal/s3ops/sigv4.go:138-156 | byte by byte: the unreserved characters of RFC 3986 stay, and a slash where it may; any other becomes a percent sign and two upper-case hex digits |
| SigV4.UriRoundTrip | agent/internal/s3ops/sigv4.go:135-156 | percent-decoding is a left inverse, with and without the slash exception |
| SigV4.EncodedAlphabet | agent/internal/s3ops/sigv4.go:135-156 | an encoded value holds none of the query's separators |
| SigV4.CanonicalQuery | agent/internal/s3ops/sigv4.go:115-133 | the two sorted loops compute the canonical string |
| SigV4.CanonicalLists | agent/internal/s3ops/sigv4.go:115-133 | the string lists every value of every key as often as the query has it, by key and then by value |
| SigV4.JoinedMore | agent/internal/s3ops/sigv4.go:128-132 | each pair is its encoded key, an equals sign and its encoded value, and pairs are parted by ampersands |
| SigV4.ReadsBack | agent/internal/s3ops/sigv4.go:113-133 | a canonical query can be read back, pairs and order |
| SigV4.CanonicalIff | agent/internal/s3ops/sigv4.go:113-133 | two queries have one canonical string if and only if every key has the same multiset of values, keys without values aside |
| Lex.SortSorts | agent/internal/backup/wal.go:184 | what `sort.Strings` leaves is sorted and holds the same strings |
| Lex.SortedIsUnique | agent/internal/s3ops/sigv4.go:119-126 | a sorted sequence is determined by what it holds |

## Left out

- HTTP, the Docker transport, bbolt, restic, tar and PostgreSQL are outcomes of calls, not protocols.
- Cryptography: document verification is an arbitrary predicate; a container's hash label is modelled as the spec it is the hash of, so equal hashes mean equal specs. Request hashes are strings.
- JSON decoding is the `None` of an op that does not decode; `At` timestamps, log text, startup-log shipping and real durations are not modelled. A deadline is only its outcome.
- A version is assumed to determine its document (`DsdLoop.VersionsNameDocuments`), as the control plane assigns versions once.
- Containers are identified by name; a container id is not told apart from the name it was created under.
- `Rollout.PerformRollout`, `Rollout.PerformRecreate`: nothing else touches the group during the swap, as the swaps take no lock; between looks the gated container may exit and come back. The post-start hook is an outcome.
- `Rollout.PerformRecreate`: requires a non-empty name and no container with an empty one, since the code drains with an empty name to spare none.
- `Interleave.Run`: a swap appears as separate creations, starts, stops and record transactions in any order, not as the swap's own code; and what happens outside the lock falls between two locked operations, never inside one.
- Throttling, the policy gate and the image allowlist before an apply, and cancellation of a context between two containers of a pass.
- Secret values: which names are provided and which containers can be seeded are inputs.
- `Pitr.SelectPitr`: the recovery container and the checks of the op's own fields are left out, as are the file names of bundles restored into one directory.
- `RateLimiter.RateLimiter.Allow`: exact real arithmetic in place of floating point; rate and burst are not negative, as in the only use of the limiter.
- `LogStream.LogLineSplitter.Write`: the timestamp that starts a line is not parsed out, and writers do not fail.
- `Idempotency.Table.Sweep`: may come at any time, though the code sweeps only rows older than the window.
- Idempotency keys that are absent or over 200 characters pass straight through, and an unreadable body is refused before the protocol starts; neither is modelled.
- `Wal.Shipper.Run`: one target; the fetch of the target list is left out. Postgres is assumed to archive in name order. A forget falls between two cycles, and how restic derives its cutoff from the newest snapshot is left out: the cutoff is any time.
- The signing of the request itself, the canonical path, the uninstall sequence, image builds, logical and base backups, and the remaining control-plane handlers.
- The scope of `retainImages` from an image reference and the collection of tags in use are inputs.
