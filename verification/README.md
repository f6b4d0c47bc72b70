# PodDisruptionBudget reaper — a verified Dafny model

This project models the decision engine of the PodDisruptionBudget (PDB)
reaper. The engine lists every PDB in the cluster and ignores excluded
namespaces. Then it runs three phases:

- **Multiple budgets.** In a namespace with several PDBs, when some pod is
  matched by more than one of them, all of that namespace's PDBs are
  marked reapable.
- **Blocking budgets.** A PDB is blocking when it allows no disruption but
  expects pods. Each blocking PDB goes through three independent checks:
  misconfiguration, crash-looping pods and pods stuck not ready. Each check
  that fires marks the PDB reapable again.
- **Deletion.** Every reapable entry is deleted, unless this is a dry run.

A positive verdict is published as a Kubernetes event and as a 1 sample of
the `governor_pdb_reaper_result` gauge. A negative verdict, or a disabled
crash-loop or not-ready check, is published as a 0 sample only. A disabled
misconfiguration check publishes nothing.

The model is written in Dafny and follows the Go source function by function:

- `types.dfy` (`PdbTypes`): the values — PDBs, pods, container statuses, pod
  conditions, the int-or-percent field, the fixed set of reasons, the errors
  and the run's configuration. The cluster is an oracle. It resolves selectors,
  lists pods and answers delete requests, and each of these may fail.
  Published events and metric samples go into one trace of `Effect`s.
- `predicates.dfy` (`Predicates`): the stateless checks.
  - The misconfiguration check is a pure function over int-or-percent
    resolution, which rounds up.
  - The duplicate-pod check, the crash-loop check and the not-ready check
    are loops. They are methods proved against specification functions.
- `scan_spec.dfy` (`ScanSpec`): what each pass of the scan computes, as
  functions of the listed PDBs, with lemmas that characterise the groupings.
- `phases.dfy` (`Phases`): each reap phase as a fold over the cluster's
  answers. The fold states what the phase appends to the reapable list and
  to the trace, and where an error stops it. Lemmas give counts, membership
  and early-stop behaviour.
- `reaper.dfy` (`Reaper`): the `ReaperContext` class. Its fields mirror the
  context the Go methods update: the two namespace-to-PDBs maps, the reapable
  list, the two counters and the trace. `Scan`, the three `Handle…` methods,
  `Reap`, `Execute` and `Run` are imperative methods. The postconditions of
  `Scan` and of the three `Handle…` methods tie the new state to the
  specification functions above. `Execute` and `Run` carry the scan's part
  of that through (the two maps, and on a failed listing an unchanged
  state). For the reap phases they state only the two invariants below and
  the dry-run guarantee.

Go map iteration order is unspecified. The phases that range over a map pick
any remaining key with `:|`, and they return the visiting order they used as
a ghost out-parameter. Each postcondition holds for that order. The order
never repeats a key and holds only keys of the map. When the phase succeeds,
it holds every key.

Two invariants are kept:

- `Valid`: the reapable counter equals the length of the reapable list.
  - `AddReapable`, `RecordMultiple`, `RecordCheck`, the `Evaluate…` methods,
    `CheckBlocking`, `HandleMultiple`, `HandleBlocking`, `Reap`, `Execute`
    and `Run` state that it holds afterwards.
  - `Scan` and `HandleReapable` keep it because their frames leave the list
    and its counter alone.
- `Accounted`: there is one announcing event per reapable entry, and one
  deletion event and one confirming sample per reaped PDB.
  - `Scan`, `RecordMultiple`, `RecordCheck`, the `Evaluate…` methods,
    `CheckBlocking`, the three `Handle…` methods, `Reap` and `Execute` state
    that it is preserved. `Run` states that it holds at the end.
  - `AddReapable` does not: the entry it appends is announced afterwards by
    its caller.

`Run` also proves that no more PDBs are reaped than were marked, and that a
dry run reaps nothing.

Some behaviours of the code are worth spelling out; the model keeps each:

- **Crash-loop counting.** A pod adds one for its init containers and one for
  its regular containers (`pdbreaper.go:422-437`). So in all-mode one doubly
  crash-looping pod is not detected (`Predicates.CrashLoopAllModeDoubleCount`),
  and a pod set with a healthy pod can be detected
  (`Predicates.CrashLoopAllModeOvercount`).
- **Disabled misconfiguration check.** When misconfiguration reaping is off,
  no misconfiguration sample is recorded (`pdbreaper.go:213-230`). The
  crash-loop and not-ready checks record a 0 sample when they are off
  (`pdbreaper.go:244-246`, `pdbreaper.go:260-262`).
- **Already-deleted PDBs.** A delete that answers "not found" is skipped
  without an event, a sample or a count (`pdbreaper.go:181-184`).
- **Reapable dedup.** The check in `addReapablePodDisruptionBudget` compares
  one PDB with the whole variadic slice (`pdbreaper.go:359`). The two are
  never deeply equal, so the list always grows. This behaviour is
  reproduced, and a PDB flagged by several checks appears several times
  (`Phases.TripleFlag`).

## Model

All source paths are `pkg/reaper/pdbreaper/pdbreaper.go`.

| member | source | states |
|---|---|---|
| PdbTypes.ToInt32 | pkg/reaper/pdbreaper/pdbreaper.go:423 | `int32(threshold)` keeps the value modulo 2^32 and is the identity on the int32 range |
| PdbTypes.ReasonTextInjective | pkg/reaper/pdbreaper/pdbreaper.go:40-44 | the five event reasons are published under pairwise distinct strings |
| Predicates.CeilDiv100 | pkg/reaper/pdbreaper/pdbreaper.go:377 | the result is the ceiling of x/100 (round-up resolution) |
| Predicates.Resolve | pkg/reaper/pdbreaper/pdbreaper.go:377-380 | an int-or-percent value fails to resolve exactly when it is malformed; an absolute value resolves to itself; a percentage resolves to the ceiling of p·total/100 |
| Predicates.IsMisconfigured | pkg/reaper/pdbreaper/pdbreaper.go:368-403 | neither field set gives false; an error is returned exactly when the deciding field (maxUnavailable if set, else minAvailable) is unresolvable, and the error names that field |
| Predicates.MaxUnavailableDecides | pkg/reaper/pdbreaper/pdbreaper.go:375-386 | when maxUnavailable is set, minAvailable has no influence on the verdict |
| Predicates.MaxUnavailableAbsolute | pkg/reaper/pdbreaper/pdbreaper.go:376-386 | an absolute maxUnavailable is misconfigured exactly when it is 0, for every pod count |
| Predicates.MaxUnavailablePercent | pkg/reaper/pdbreaper/pdbreaper.go:376-386 | a non-negative percentage maxUnavailable is misconfigured exactly when it is 0% or no pod is matched, because the resolution rounds up |
| Predicates.MinAvailableAbsolute | pkg/reaper/pdbreaper/pdbreaper.go:387-397 | with maxUnavailable unset, an absolute minAvailable is misconfigured exactly when it equals the expected pod count, for every pod count |
| Predicates.MinAvailableFull | pkg/reaper/pdbreaper/pdbreaper.go:387-397 | with maxUnavailable unset, minAvailable 100% is misconfigured whenever the matched pods number the expected pods |
| Predicates.IsContainDuplicatePods | pkg/reaper/pdbreaper/pdbreaper.go:405-416 | true exactly when some pod name occurs at two positions (so empty and singleton lists give false) |
| Predicates.DuplicateConcat | pkg/reaper/pdbreaper/pdbreaper.go:291-294 | the concatenated pods of several PDBs contain a duplicate exactly when one part does or the two parts share a name |
| Predicates.IsPodsInCrashloop | pkg/reaper/pdbreaper/pdbreaper.go:418-449 | the result is the any/all verdict over the crash count, which adds 1 per pod for its init containers and 1 for its regular containers when one waits in CrashLoopBackOff with at least int32(threshold) restarts |
| Predicates.CrashingCountBounds | pkg/reaper/pdbreaper/pdbreaper.go:421-438 | the crash count lies between the number of crash-looping pods and twice that number, which is at most the pod count |
| Predicates.CrashLoopAnyMode | pkg/reaper/pdbreaper/pdbreaper.go:439-442 | any-mode detects exactly when some pod has a crash-looping container |
| Predicates.CrashLoopAllModeWithoutInit | pkg/reaper/pdbreaper/pdbreaper.go:443-447 | when no init container crash-loops, all-mode detects exactly when every pod crash-loops (an empty pod list is detected) |
| Predicates.CrashingPodsAll | pkg/reaper/pdbreaper/pdbreaper.go:443-447 | the number of crash-looping pods equals the pod count exactly when every pod crash-loops |
| Predicates.CrashLoopAllModeDoubleCount | pkg/reaper/pdbreaper/pdbreaper.go:421-446 | a single pod crash-looping in both an init and a regular container is not detected in all-mode |
| Predicates.CrashLoopAllModeOvercount | pkg/reaper/pdbreaper/pdbreaper.go:421-446 | three pods, one of them healthy, are detected in all-mode when another pod is counted twice |
| Predicates.IsPodReadinessThresholdPast | pkg/reaper/pdbreaper/pdbreaper.go:478-481 | the threshold has passed exactly when now − lastTransition ≥ thresholdSeconds·10^9, times in nanoseconds; so a non-positive threshold has passed once the transition is not in the future, and a positive one never within the first second |
| Predicates.ThresholdPastMonotone | pkg/reaper/pdbreaper/pdbreaper.go:478-481 | once the readiness threshold has passed it stays passed as time advances, and it has also passed for any smaller threshold |
| Predicates.IsPodsInNotReadyState | pkg/reaper/pdbreaper/pdbreaper.go:451-476 | the result is the any/all verdict over the number of pods with a ContainersReady=False condition whose last transition is at least the threshold ago |
| Predicates.NotReadyModes | pkg/reaper/pdbreaper/pdbreaper.go:455-475 | any-mode detects exactly when some pod is stuck not ready, all-mode exactly when every pod is (an empty list is detected), and the count never exceeds the pod count |
| ScanSpec.GroupedSpec | pkg/reaper/pdbreaper/pdbreaper.go:117-125 | the first pass groups exactly the non-excluded namespaces that have a PDB, each with all of its PDBs in listing order |
| ScanSpec.AddMultipleStep | pkg/reaper/pdbreaper/pdbreaper.go:127-131 | visiting one more namespace extends the multiple-budget map by that namespace alone, whatever the visiting order |
| ScanSpec.ScanMultipleSpec | pkg/reaper/pdbreaper/pdbreaper.go:117-131 | from an empty map, a namespace gets a multiple-budget entry exactly when it is not excluded and has more than one PDB, and the entry holds all its PDBs in order |
| ScanSpec.AddBlockingSpec | pkg/reaper/pdbreaper/pdbreaper.go:133-154 | the third pass appends to each namespace's entry exactly its non-excluded blocking PDBs in listing order, and adds a key only for such a PDB |
| ScanSpec.AddBlockingKeeps | pkg/reaper/pdbreaper/pdbreaper.go:154 | the third pass never removes a namespace |
| ScanSpec.ScanBlockingMembership | pkg/reaper/pdbreaper/pdbreaper.go:133-154 | from an empty map, a PDB is listed as blocking under a namespace exactly when it was listed there, the namespace is not excluded, it allows no disruption and it expects pods |
| ScanSpec.BaselineSamplesSpec | pkg/reaper/pdbreaper/pdbreaper.go:133-155 | every sample of the scan is a "deleted" sample at 0 for a listed, non-excluded, blocking PDB, and every such PDB has one |
| ScanSpec.BaselineSamplesOnePerEntry | pkg/reaper/pdbreaper/pdbreaper.go:133-155 | the scan's samples are, position by position, one "deleted" sample at 0 per listed entry that is not excluded and blocks, in listing order |
| ScanSpec.ExcludedInvisible | pkg/reaper/pdbreaper/pdbreaper.go:120-141 | an excluded namespace appears in neither map and gets no sample |
| Phases.CountsAppend | pkg/reaper/pdbreaper/pdbreaper.go:187-192 | the event and confirmation counts of a trace add up over concatenation |
| Phases.CollectPodsStops | pkg/reaper/pdbreaper/pdbreaper.go:281-289 | once a selector or pod listing fails, the PDBs after it change nothing |
| Phases.FlaggedCounts | pkg/reaper/pdbreaper/pdbreaper.go:296-307 | a flagged namespace publishes one marking event per PDB, an unflagged one none, and neither announces a deletion |
| Phases.BaselineCounts | pkg/reaper/pdbreaper/pdbreaper.go:155 | the scan's baseline samples neither mark nor confirm anything |
| Phases.MultipleDeltaCounts | pkg/reaper/pdbreaper/pdbreaper.go:294-308 | a namespace's additions carry one marking event per reapable entry and no deletion events or confirmations |
| Phases.MultipleRunStops | pkg/reaper/pdbreaper/pdbreaper.go:281-289 | after an error the multiple-budget phase visits nothing more |
| Phases.MultipleRunCounts | pkg/reaper/pdbreaper/pdbreaper.go:268-311 | the multiple-budget phase adds as many marking events as reapable entries and no deletion events or confirmations, whether it completes or stops |
| Phases.MultipleRunMembership | pkg/reaper/pdbreaper/pdbreaper.go:274-311 | after the phase completes, a PDB is reapable exactly when it was before or it belongs to a visited namespace whose pods overlap |
| Phases.BlockingAdditionsCounts | pkg/reaper/pdbreaper/pdbreaper.go:213-262 | a blocking PDB is appended once per check that fires (at most three times), each append is announced by one event, and nothing is deleted |
| Phases.BlockingAdditionsSamples | pkg/reaper/pdbreaper/pdbreaper.go:213-262 | a blocking PDB gets exactly one crash-loop and one not-ready sample, and one misconfiguration sample only when that check is enabled |
| Phases.BlockingDeltaSignals | pkg/reaper/pdbreaper/pdbreaper.go:201-262 | the same, for every blocking PDB whose pods could be listed and whose bounds could be resolved |
| Phases.ThenCounts | pkg/reaper/pdbreaper/pdbreaper.go:213-262 | the lengths and counts of additions made one after another add up |
| Phases.CheckDeltaCounts | pkg/reaper/pdbreaper/pdbreaper.go:219-229 | a check appends the PDB at most once and announces each append by one event |
| Phases.CheckDeltaSamples | pkg/reaper/pdbreaper/pdbreaper.go:219-229 | a check records exactly one sample, under its own reason |
| Phases.TripleFlag | pkg/reaper/pdbreaper/pdbreaper.go:213-262 | a PDB flagged by all three checks is appended three times |
| Phases.BlockingRunAppend | pkg/reaper/pdbreaper/pdbreaper.go:199-264 | after a completed prefix the blocking phase continues from the prefix's state |
| Phases.BlockingNamespaceStep | pkg/reaper/pdbreaper/pdbreaper.go:199-264 | visiting one more namespace runs its PDBs from where the previous namespaces left off |
| Phases.BlockingRunStops | pkg/reaper/pdbreaper/pdbreaper.go:203-217 | after an error the blocking phase evaluates nothing more |
| Phases.BlockingRunCounts | pkg/reaper/pdbreaper/pdbreaper.go:197-266 | the blocking phase adds as many marking events as reapable entries and no deletion events or confirmations, whether it completes or stops |
| Phases.DeleteRunSpec | pkg/reaper/pdbreaper/pdbreaper.go:161-195 | the deletion phase fails exactly when some delete fails, counts exactly the accepted deletes before the first failure (skipping PDBs already gone), and announces and confirms each counted delete once |
| Phases.AcceptedDeletesBound | pkg/reaper/pdbreaper/pdbreaper.go:191 | at most one PDB is counted per delete request |
| Phases.DeleteRunAccounts | pkg/reaper/pdbreaper/pdbreaper.go:161-195 | the deletion phase reaps at most one PDB per reapable entry, announces and confirms each, and marks nothing |
| Phases.DeleteRunFails | pkg/reaper/pdbreaper/pdbreaper.go:180-186 | the deletion phase fails exactly when one of its delete requests fails |
| Phases.DeleteRunStops | pkg/reaper/pdbreaper/pdbreaper.go:185 | after a failed delete no further request is made |
| Reaper.DedupNeverMatches | pkg/reaper/pdbreaper/pdbreaper.go:359 | the dedup comparison of one PDB with the argument slice is never true |
| Reaper.GroupByNamespace | pkg/reaper/pdbreaper/pdbreaper.go:117-125 | the first pass computes the grouping characterised by `ScanSpec.GroupedSpec` |
| Reaper.CollectNamespacePods | pkg/reaper/pdbreaper/pdbreaper.go:275-292 | the pods of a namespace's PDBs, concatenated in order, or the first selector or listing error |
| Reaper.VisitStep | pkg/reaper/pdbreaper/pdbreaper.go:274 | visiting one more key of a map keeps the order free of repeats and within the keys |
| Reaper.ReaperContext.Scan | pkg/reaper/pdbreaper/pdbreaper.go:107-159 | a listing failure changes nothing; otherwise both maps and the trace become the scan's specification functions of the listed PDBs, and the books stay balanced |
| Reaper.ReaperContext.RecordMultipleNamespaces | pkg/reaper/pdbreaper/pdbreaper.go:127-131 | the second pass, whatever order it visits the namespaces in |
| Reaper.ReaperContext.RecordBlocking | pkg/reaper/pdbreaper/pdbreaper.go:133-156 | the third pass: the blocking map and the baseline samples |
| Reaper.ReaperContext.AddReapable | pkg/reaper/pdbreaper/pdbreaper.go:357-366 | the list always becomes the old list followed by the arguments, and the counter keeps equal to its length |
| Reaper.ReaperContext.RecordMultiple | pkg/reaper/pdbreaper/pdbreaper.go:294-308 | a flagged namespace appends all its PDBs and publishes an event and a 1 sample per PDB; otherwise a 0 sample per PDB; the books stay balanced |
| Reaper.ReaperContext.EvaluateNamespace | pkg/reaper/pdbreaper/pdbreaper.go:275-308 | one namespace's step of the multiple-budget phase, error included |
| Reaper.ReaperContext.HandleMultiple | pkg/reaper/pdbreaper/pdbreaper.go:268-311 | disabled, it does nothing; otherwise the new state is the phase's fold over an order visiting each namespace once, every namespace on success; the books stay balanced |
| Reaper.ReaperContext.RecordCheck | pkg/reaper/pdbreaper/pdbreaper.go:219-229 | one check's verdict: append, event and 1 sample, or a 0 sample |
| Reaper.ReaperContext.EvaluateBlocking | pkg/reaper/pdbreaper/pdbreaper.go:202-262 | one blocking PDB's step of the blocking phase, selector, listing and resolution errors included |
| Reaper.ReaperContext.CheckBlocking | pkg/reaper/pdbreaper/pdbreaper.go:213-262 | the three checks over a blocking PDB's pods, in order |
| Reaper.ReaperContext.EvaluateBlockingNamespace | pkg/reaper/pdbreaper/pdbreaper.go:201-263 | a namespace's blocking PDBs, in listing order, stopping at the first error |
| Reaper.ReaperContext.HandleBlocking | pkg/reaper/pdbreaper/pdbreaper.go:197-266 | the new state is the blocking phase's fold over an order visiting each namespace once, every namespace on success; the books stay balanced |
| Reaper.ReaperContext.HandleReapable | pkg/reaper/pdbreaper/pdbreaper.go:161-195 | a dry run changes nothing; otherwise the trace and the reaped counter follow the deletion phase, it fails exactly when a delete fails, and no more PDBs are reaped than listed |
| Reaper.ReaperContext.Reap | pkg/reaper/pdbreaper/pdbreaper.go:87-105 | the counter stays equal to the list length, the books stay balanced, no more PDBs are reaped than the list holds, and a dry run reaps nothing |
| Reaper.ReaperContext.Execute | pkg/reaper/pdbreaper/pdbreaper.go:74-85 | a failed listing changes nothing; otherwise the two maps are what the scan records (the reap phases leave them alone), the counter keeps equal to the list length, the books stay balanced and a dry run reaps nothing |
| Reaper.Run | pkg/reaper/pdbreaper/pdbreaper.go:58-72 | from a fresh context: a failed listing leaves everything empty; otherwise the maps are the scan's functions of the listed PDBs; the counter equals the list length, the trace accounts for every mark and delete, reaped ≤ marked, and a dry run deletes and confirms nothing |

## Left out

- Kubernetes client calls (listing PDBs and pods, deleting, creating events) are network I/O. They are replaced by the `Cluster` oracle and by an `Option` for the PDB listing.
- The event object, its message text and its timestamps (`publishEvent`) are formatting and clock plumbing. Only the (PDB, reason) pair is recorded. A failure to publish is ignored, as in the source.
- `exposeMetric` is recorded as an integer 0/1 sample in the trace on every call, whether or not a metrics backend is configured. The nil-backend guard (`pdbreaper.go:484`) is left out, and so are backend errors, which every caller ignores.
- The JSON audit dump and its marshalling error (`pdbreaper.go:169-173`) are left out. `json.Marshal` cannot fail on a PDB value.
- Logging and error wrapping (`Run`, `execute`, `reap`) are left out. Errors are a `ReapError` tag naming the failing step.
- `common.GetSelectorString` is not part of this model. Selector resolution is an oracle that may fail. `common.StringSliceContains` is sequence membership.
- Parsing the string form of an int-or-percent value is left out. A value is either an absolute int32, a percentage, or malformed.
- `NewReaperContext` is not part of this model. `Reaper.ReaperContext.constructor` starts from empty maps, an empty list and zero counters.
- Predicates.IsPodReadinessThresholdPast: does not model the int64 nanosecond overflow of `time.Duration(thresholdSeconds)*time.Second`, nor the saturation of `Time.Sub`. Times are unbounded integers in nanoseconds.
- Reaper.ReaperContext.Execute: for the reap phases, states only the balanced books, the counter invariant and the dry-run guarantee, as `Reaper.ReaperContext.Reap` does.
- Reaper.Run: for the reap phases, states only the balanced books, the counter invariant, reaped ≤ marked and the dry-run guarantee. The reapable list and the deletions themselves are stated phase by phase by the `Handle…` methods.
- The cluster is one snapshot for the whole run. `Cluster.listPods` is a function, so the multiple-budget phase (`pdbreaper.go:286`) and the blocking phase (`pdbreaper.go:208`) see the same pods for the same PDB. In the source these are two separate List calls, which may answer differently.
- The whole run uses one `now`. The source reads the clock once per condition it checks (`pdbreaper.go:479`), so conditions checked a moment apart may see different times.
- Predicates.Resolve: uses the exact integer ceiling of p·total/100. The library computes it through float64, and the two agree only while |p·total| stays below 2^53.
- Reaper.ReaperContext.Reap: states the balanced books and the dry-run guarantee. It does not state the composed result of the three phases, which the phase methods state one by one.
- The ghost out-parameter `order` returned by `Reaper.ReaperContext.HandleMultiple` and `Reaper.ReaperContext.HandleBlocking` stands in for Go's unspecified map order. The model does not fix any particular order.
