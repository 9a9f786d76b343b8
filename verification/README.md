# Verified model of the control-plane stores

This Dafny project models the transactional core of the control plane in
`internal/db` and proves what its protocols keep over every run.

How the model is built:

- A table is a map from primary key to a row datatype. A store method is a class
  method that runs SELECT and UPDATE loops over those maps (`Tables`) and commits a
  copy, so each transaction is one atomic step. Rows and Go maps are visited in an
  arbitrary order wherever the source leaves the order open.
- Each method is proved against a specification function on the old tables. The
  main results are lemmas about those functions: invariants over every interleaving,
  exact conditions, refinement of a fast form by a simple one, conservation.
- Times are numbers, fresh ids and tokens are parameters. Text is a sequence of bytes,
  compared byte by byte; SQL's LENGTH counts its characters (`Text.Characters`), and
  stored text is valid UTF-8. Callbacks appear as the result they return.

The modules:

- `FixModel`, `FixProtocol`, `FixInvariants`, `FixRuns`, `FixStore`: fix jobs,
  remediations, hand-off, cancellation and child-scan admission. The rule left to
  workers is stated in `FixInvariants.Disciplined`: an update keeps the job's repository
  and remediation, and an active row takes no key another active job holds.
- `ScanModel`, `ScanRuns`, `FindingRuns`, `ClusterRuns`, `ScanStore`: scan leases,
  finding revisions, gate results, clusters and their triage. `ScanMoves` proves that these
  are the scan steps the fix protocol reckons with.
- `ScanEvents`: the durable event log, its output budget and paged reading.
- `Baselines`, `BaselineStore`: baseline derivation and its locked history; `ScanBaselines`
  proves that persisting it is the derivation step of the scan protocol.
- `FleetModel`, `FleetChains`, `FleetHistory`, `FleetChanges`, `FleetTrends`: fleet
  evidence, chunked history, the weekly change report and the memoised trend series.
- `CustomBuilds`, `CustomBuildRuns`, `CustomBuildEndings`, `CustomBuildStore`: leased image builds.
- `Alerts`: alert reconciliation.
- `FixStatements`, `ScanStatements`, `EventStatements`, `BaselineStatements`, `FleetStatements`,
  `ChangeStatements`, `TrendStatements`, `CustomBuildStatements`, `AlertStatements`: what each
  operation tests, answers and writes, said again of the columns of its rows and the columns alone,
  so that no condition rests on the name the model gives it. `TextStatements` does the same for text.
- `LikeSearch`: search-term escaping against a LIKE matcher (section 8.5 of ISO/IEC 9075-2).
- `Tables`, `Text`, `Wrappers`: statements over tables, text order, options and results.

Assumptions the theorems state as preconditions or build into the data:

- Each fix transaction happens at a later time than the one before; scan, build
  and event clocks never run backwards. New remediation ids and claim tokens are fresh.
- Scans and findings are created with non-empty ids, and a finding id is used once; finalization goes to a terminal status.
- The cluster key, the completeness of a scan, the comparison identity without
  fingerprints, suppression and ignore matching are columns or function parameters,
  because the packages that compute them are not part of this model.
- Filtered history: repository ids hold no NUL character and no location identity equals
  a fingerprint. Change report: inside a repository equal comparison keys mean equal
  progress keys, and coverage rows name scans in scope. Trend series: ids and branch
  names hold no NUL character, scan ids are unique and none is a repository id.
- Alert fingerprints are injective in scope, kind, scope type and scope id.

Findings about the code, proved as stated:

- Baseline classification agrees with a comparison against the latest prior scan if
  and only if the issue is not (a) in the latest prior scan but missing from a different
  baseline, or (b) never seen while the scan is its own baseline (`Baselines.ClassifiesIdeally`,
  with an example in `Baselines.StillThereButNew`).
- The byte limit of a custom build log is compared with the characters stored, not their
  bytes: every run keeps the characters within the limit (`CustomBuildRuns.LogsAlwaysInBudget`),
  every line a log still accepts keeps the bytes within it if and only if the stored lines are
  all single-byte or leave room for a line of full length (`CustomBuildRuns.AcceptedLinesFit`),
  and a run of full lines of three-byte characters exceeds it (`CustomBuildRuns.WideLinesExceed`).
- A custom build that ended may keep queued or running variants. Over every run, whether it
  does is settled by the step that ended it (`CustomBuildEndings.EndedBuild`): finalization
  leaves them exactly when another variant failed and nobody asked to cancel
  (`CustomBuildRuns.UnfinishedAreLeft`), a lost worker leaves all it finds
  (`CustomBuildEndings.ReclaimLeaves`), cancelling a queued build leaves a running variant
  (`CustomBuildEndings.CancelLeaves`). In the run of `CustomBuildEndings.LostWhileRunning` a
  build fails with a variant running and none failed.
- A retry restarts failed variants only, so a queued build may hold a running variant, which
  no later claim can start: exactly when it was finalized with one variant failed and another
  running (`CustomBuildEndings.QueuedRunsNothing`, with the run `CustomBuildEndings.RetriedWhileRunning`).
- An update of a fix job keeps active jobs exclusive if and only if an active row takes
  no key of another active job; the update itself does not check this (`FixInvariants.UpdateKeepsExclusive`,
  with an example in `FixInvariants.UnruledUpdateCollides`).

## Model

| member | source | states |
|---|---|---|
| `FixStore.PostgresStore.ClaimNextFixJob` | internal/db/fixjobs.go:68-122 | The oldest queued job that no active or still-cleaning job and no unfinished scan excludes is claimed; with none, nothing changes |
| `FixStore.PostgresStore.UpdateFixJob` | internal/db/fixjobs.go:128-213 | A re-queue is refused while a scan or another busy job holds a key; otherwise one row is rewritten under its revision unless it left a terminal status |
| `FixStore.PostgresStore.HeartbeatFixJob` | internal/db/fixjobs.go:215-230 | Only the claim that still holds an active row moves its heartbeat |
| `FixStore.PostgresStore.ReclaimStaleJobs` | internal/db/postgres_fixjobs.go:71-81 | Exactly the active rows without a recent heartbeat return to the queue, and their number is reported |
| `FixStore.PostgresStore.UpdateRemediation` | internal/db/remediations.go:11-30 | Only an open remediation changes; a closed one accepts its own values again |
| `FixStore.PostgresStore.AcceptFixRemediation` | internal/db/fix_handoff.go:53-144 | A hand-off runs its cleanup exactly when every check passes, then freezes the remediation and releases its jobs, or changes nothing |
| `FixStore.PostgresStore.FindPublication` | internal/db/fix_handoff.go:73-99 | Some succeeded job durably published the frozen commit |
| `FixStore.PostgresStore.CreateScan` | internal/db/fix_handoff.go:148-177 | A pending scan enters a remediation's checkout only while the remediation is open, its own and free of jobs |
| `FixStore.PostgresStore.CompleteFixCancellation` | internal/db/fix_cancellation.go:16-78 | Cleanup is acknowledged only for the cancelled revision and while nobody else works there; an open remediation is discarded with it |
| `FixStore.PostgresStore.CreateFixJob` | internal/db/fix_creation.go:42-222 | Creation replays, refuses or enqueues exactly as specified, with every refusal in order |
| `FixStore.PostgresStore.AttachSession` | internal/db/fix_creation.go:88-164 | The newest remediation of the origin decides: frozen refuses, open is joined, discarded or absent starts a new one |
| `FixStore.PostgresStore.JoinSession` | internal/db/fix_creation.go:129-151 | An open remediation is joined only when no scan and no busy job is on it and the branch agrees |
| `FixStore.PostgresStore.EnqueueJob` | internal/db/fix_creation.go:163-217 | The listed findings, base branch and row of a new job |
| `FixStore.PostgresStore.CheckScope` | internal/db/fix_creation.go:171-204 | Handed-in findings are accepted only when distinct, known, in scope and from one source branch |
| `FixStore.RowsFound` | internal/db/fix_creation.go:178-187 | Counting the rows found detects exactly the unknown or repeated finding ids |
| `FixStore.ScopeAcceptedExactly` | internal/db/fix_creation.go:171-204 | Handed-in findings are accepted if and only if distinct, known, in scope and, without a scan, of one source branch, in whatever order they are listed |
| `FixInvariants.UpdateKeepsExclusive` | internal/db/fixjobs.go:128-213 | An update keeps active jobs exclusive if and only if an active row takes no key another active job holds |
| `FixInvariants.UnruledUpdateCollides` | internal/db/fixjobs.go:128-213 | In a state of the protocol a concrete update that moves a running job into another running job's workspace is accepted |
| `FixInvariants.ClaimKeepsExclusive` | internal/db/fixjobs.go:68-122 | Claiming a claimable job keeps active jobs exclusive |
| `FixInvariants.ResumeFindsNoScan` | internal/db/fixjobs.go:128-213 | A job that is queued again has no admitted scan on its remediation |
| `FixInvariants.ScanKeeps` | internal/db/fix_handoff.go:148-177 | Admitting a scan keeps all guarantees |
| `FixInvariants.SessionFacts` | internal/db/fix_creation.go:118-162 | A session starts only after discarded remediations, or joins an idle open one |
| `FixInvariants.CreateKeeps` | internal/db/fix_creation.go:42-222 | Creating a job keeps all guarantees |
| `FixRuns.RunKeeps` | internal/db/fixjobs.go:33-230 | Every state of every interleaving satisfies all guarantees |
| `FixRuns.AlwaysExclusive` | internal/db/fixjobs.go:68-122 | Two claimed or running jobs never share a workspace, a remediation, or a repository and effective branch |
| `FixRuns.AlwaysScansApart` | internal/db/fix_handoff.go:37-48 | A scan admitted to a remediation's checkout never coexists with a queued, claimed or running job on it |
| `FixRuns.AlwaysOneOpen` | internal/db/fix_creation.go:118-162 | An origin scan has at most one remediation that is not discarded |
| `FixRuns.AlwaysOneLiveJob` | internal/db/fix_creation.go:133-140 | A remediation has at most one live job |
| `FixRuns.TerminalForever` | internal/db/fixjobs.go:190-213 | A job in a terminal status keeps it for the rest of the run |
| `FixRuns.SubmittedOnce` | internal/db/fix_creation.go:61-72 | A keyed submission is accepted once; later it is replayed, or refused if the request differs |
| `FixRuns.FrozenForever` | internal/db/remediations.go:11-30 | A frozen remediation stays frozen and its origin never gets another |
| `FixRuns.HandoffIsSafe` | internal/db/fix_handoff.go:53-144 | A hand-off only takes effect when nobody works on the remediation, leaves no live job behind, and no succeeded job pointing at the released checkout |
| `FixRuns.CleanupIsSafe` | internal/db/fix_cancellation.go:16-78 | A cancelled job's checkout is discarded only when no other live job or scan is on its remediation |
| `FixStatements.ClaimedExactly` | internal/db/fixjobs.go:68-122 | The job claimed is the least by (createdAt, id) of the queued rows that share no workspace, remediation, or repository and effective branch with a claimed, running or still-cleaning row and have no unfinished scan on their remediation or workspace; exactly then |
| `FixStatements.ClaimWrites` | internal/db/fixjobs.go:104-122 | The columns a claim writes, and that it changes nothing without a claimable row |
| `FixStatements.UpdateExactly` | internal/db/fixjobs.go:128-213 | In columns: when an update is refused, what it writes otherwise |
| `FixStatements.HeartbeatExactly` | internal/db/fixjobs.go:215-230 | In columns: whose heartbeat moves |
| `FixStatements.ReclaimExactly` | internal/db/postgres_fixjobs.go:71-81 | In columns: which claimed or running rows are requeued, and what is cleared |
| `FixStatements.UpdateRemediationExactly` | internal/db/remediations.go:11-30 | In columns: an open remediation takes the new values, a closed one only its own |
| `FixStatements.AcceptAnswers` | internal/db/fix_handoff.go:53-118 | The answer of a hand-off, refusal by refusal, said of job, scan and publication rows |
| `FixStatements.AcceptWrites` | internal/db/fix_handoff.go:119-144 | What an accepted hand-off writes in the remediation and in each of its jobs |
| `FixStatements.CreateScanAnswers` | internal/db/fix_handoff.go:148-177 | When a scan is admitted to a remediation's checkout, said of remediation, job and scan rows |
| `FixStatements.CancellationAnswers` | internal/db/fix_cancellation.go:16-62 | The answer of a cancellation's acknowledgement, refusal by refusal, said of rows |
| `FixStatements.CancellationWrites` | internal/db/fix_cancellation.go:63-78 | What an acknowledged cleanup writes in the job and the remediation |
| `FixStatements.CreateAnswers` | internal/db/fix_creation.go:42-87 | The answer of a creation, refusal by refusal: repeated key, unknown references, then the session and the scope |
| `FixStatements.AttachAnswers` | internal/db/fix_creation.go:88-164 | Which remediation a submission joins, starts or is refused for, said of the newest remediation and child scan of its origin |
| `FixStatements.ScopeAnswers` | internal/db/fix_creation.go:171-204 | When the listed findings are accepted, said of their rows, and which error is reported otherwise |
| `FixStatements.EnqueueAnswers` | internal/db/fix_creation.go:163-217 | The row a creation inserts, column by column, and what else it writes |
| `ScanStore.PostgresStore.ClaimNextScan` | internal/db/postgres_scanqueue.go:22-46 | A waiting scan with the least creation time is claimed under the given token; with none, nothing changes |
| `ScanStore.PostgresStore.StartScanExecution` | internal/db/postgres_scanqueue.go:48-71 | Starts a pending scan without a token, or marks the start of a leased one |
| `ScanStore.PostgresStore.HeartbeatScanLease` | internal/db/postgres_scanqueue.go:73-84 | Only the running scan's own token extends the lease |
| `ScanStore.PostgresStore.FinalizeScan` | internal/db/scan_completion.go:108-129 | Only the live, uncancelled lease ends the scan, and gives the lease up |
| `ScanStore.PostgresStore.ReclaimStaleScans` | internal/db/postgres_scanqueue.go:90-115 | Expired scans with attempts left are requeued, the others failed, and their number is reported |
| `ScanStore.PostgresStore.RequestScanCancellation` | internal/db/postgres_scanqueue.go:117-124 | A pending or running scan becomes cancelled, any other is left alone |
| `ScanStore.PostgresStore.DeleteFindingsByScanTool` | internal/db/postgres_scanqueue.go:135-167 | Under the lease, the scan's memberships are dissolved, the tool's rows deleted and the revision moved |
| `ScanStore.PostgresStore.CreateFindingsForScanLease` | internal/db/postgres_scanqueue.go:169-201 | Rows are added only for the caller's own scan and live lease |
| `ScanStore.PostgresStore.InsertFindings` | internal/db/findings_batch.go:30-56 | All rows are inserted and each touched scan's revision moves once, or nothing happens |
| `ScanStore.PostgresStore.AdvanceTouched` | internal/db/findings_batch.go:31-40 | Each scan that receives rows advances by one, however many it receives |
| `ScanStore.PostgresStore.UpdateFindingWithRevision` | internal/db/finding_snapshots.go:34-56 | A finding update moves its scan's revision |
| `ScanStore.PostgresStore.CaptureScanIgnorePolicy` | internal/db/scan_ignore_policy.go:19-72 | The policy is captured once, under the lease, together with the flags it sets and a revision |
| `ScanStore.PostgresStore.UpsertQualityGateResult` | internal/db/finding_snapshots.go:110-133 | A gate result is stored only for the scan's present revision and status, and is then readable |
| `ScanStore.PostgresStore.CompleteScan` | internal/db/scan_completion.go:26-106 | A scan completes only on the snapshot its gate was evaluated on; a lost lease is not an error |
| `ScanStore.PostgresStore.UpdateFindingClusterStatus` | internal/db/finding_clusters.go:136-170 | Triage writes the status of the issue and moves the revision |
| `ScanStore.PostgresStore.FinalizeFindingClusters` | internal/db/finding_clusters.go:44-132 | Clusters are written exactly when the lease holds and the primaries partition the scan's evidence |
| `ScanStore.PostgresStore.ChosenPrimaries` | internal/db/finding_clusters.go:83-94 | Primaries are refused when one is not evidence of the scan or a key comes twice |
| `ScanStore.PostgresStore.AssignClusters` | internal/db/finding_clusters.go:95-109 | Every row gets its key's primary, or the whole assignment is refused |
| `ScanStore.PostgresStore.ReselectPrimaries` | internal/db/finding_suppressions.go:284-354 | Each cluster moves to its best representative; a cluster without a primary cannot arise |
| `ScanStore.PostgresStore.PickPrimary` | internal/db/finding_suppressions.go:309-339 | The scan in id order finds the best representative, the present primary winning ties |
| `ScanStore.PostgresStore.ReconcileScan` | internal/db/finding_suppressions.go:174-228 | Flags and primaries of one scan follow the rules; the revision moves when anything changed |
| `ScanStore.ExpiredSplit` | internal/db/postgres_scanqueue.go:90-115 | The two reclaim statements together touch each expired scan once |
| `ScanRuns.StepKeepsLeases` | internal/db/postgres_scanqueue.go:22-124 | Every step keeps the lease rules and changes a scan's lease only as allowed |
| `ScanRuns.Fenced` | internal/db/postgres_scanqueue.go:22-201 | Once a token was reclaimed, finalized or cancelled, no step carrying it changes anything |
| `ScanRuns.RetiredForever` | internal/db/postgres_scanqueue.go:22-124 | A retired token never becomes a live lease again |
| `ScanRuns.StaleStepDoesNothing` | internal/db/postgres_scanqueue.go:48-201 | A step whose token is not the live lease leaves the tables as they are |
| `ScanRuns.TerminalForever` | internal/db/postgres_scanqueue.go:90-124 | A finished scan never runs again and a cancelled one stays cancelled |
| `ScanRuns.ClaimsBounded` | internal/db/postgres_scanqueue.go:22-46 | The number of claims equals the attempt counter and never exceeds max_attempts |
| `ScanMoves.EveryStepIsAMove` | internal/db/postgres_scanqueue.go:22-124 | Every step of the scan protocol moves a scan's status only as the fix protocol reckons with |
| `ScanMoves.FinishedForever` | internal/db/postgres_scanqueue.go:90-124 | In every run a scan that finished keeps its status, unless a completed one is failed |
| `ScanStatements.ClaimExactly` | internal/db/postgres_scanqueue.go:22-46 | In columns: which row may be claimed, and what the claim writes |
| `ScanStatements.StartExactly` | internal/db/postgres_scanqueue.go:48-71 | In columns: the two ways a scan starts |
| `ScanStatements.FinalizeExactly` | internal/db/scan_completion.go:108-129 | In columns: which lease ends a scan, and what it leaves in the row |
| `ScanStatements.ReclaimExactly` | internal/db/postgres_scanqueue.go:90-115 | A running scan whose lease ended before now is requeued with attempts left and failed otherwise, without its lease; every other scan stays as it is |
| `ScanStatements.ReclaimTakesEndedLeases` | internal/db/postgres_scanqueue.go:90-115 | A reclaim leaves a scan alone unless it is running with a lease end before now, and never leaves such a scan running |
| `ScanStatements.ReclaimCountsChanges` | internal/db/postgres_scanqueue.go:90-115 | The number reported is the number of scans that changed |
| `ScanStatements.CancelExactly` | internal/db/postgres_scanqueue.go:117-124 | In columns: which scans are cancelled, and what is cleared |
| `ScanStatements.CreateFindingsExactly` | internal/db/postgres_scanqueue.go:169-201 | In columns: when rows are added, and that they enter as given |
| `ScanStatements.DeleteByToolExactly` | internal/db/postgres_scanqueue.go:135-167 | In columns: which rows go, which lose their membership, which revision moves |
| `ScanStatements.CapturePolicyExactly` | internal/db/scan_ignore_policy.go:19-72 | In columns: when the policy is captured, the flags it sets and the revision |
| `ScanStatements.UpsertGateExactly` | internal/db/finding_snapshots.go:110-133 | In columns: when a gate result is stored |
| `ScanStatements.ReadGateExactly` | internal/db/postgres_gates.go:62-77 | A result is read exactly when its revision and status are the scan's |
| `ScanStatements.CompleteAnswers` | internal/db/scan_completion.go:26-106 | The answer of a completion, check by check, and what it writes |
| `ScanStatements.FinalizeClustersExactly` | internal/db/finding_clusters.go:44-132 | In columns: when clusters are written, and the id each row gets |
| `ScanStatements.UpdateClusterStatusExactly` | internal/db/finding_clusters.go:136-170 | In columns: which rows get the status, and which revision moves |
| `ScanStatements.NewPrimaryIs` | internal/db/finding_suppressions.go:325-339 | The primary chosen precedes every other member by visibility, severity rank, present primary and id |
| `ScanStatements.ReconcileExactly` | internal/db/finding_suppressions.go:174-228 | In columns: the flags, cluster ids and revision a reconciliation leaves |
| `FindingRuns.StepIsRevisionStep` | internal/db/finding_snapshots.go:19-32 | Over every step a scan's revision never falls and stands still only while its findings do |
| `FindingRuns.RevisionDetermines` | internal/db/finding_snapshots.go:19-56 | Along a run, equal revisions of a scan mean equal findings |
| `FindingRuns.GateIsCurrent` | internal/db/postgres_gates.go:62-77 | A gate result read back was evaluated on exactly the present findings and status |
| `FindingRuns.UpsertIsReadable` | internal/db/finding_snapshots.go:110-133 | Corollary: a stored result is readable at once, a refused one leaves the table alone |
| `FindingRuns.CompletionPublishes` | internal/db/scan_completion.go:26-106 | Corollary: completion publishes status, findings and a readable gate result together |
| `FindingRuns.RunKeepsValid` | internal/db/findings_batch.go:30-56 | Rows keep their identity and belong to a scan of their repository in every state |
| `ClusterRuns.RunKeepsClusters` | internal/db/finding_clusters.go:44-132 | In every state a non-empty cluster id names a finding of the same scan that is its own primary |
| `ClusterRuns.FinalizationIsKeyClasses` | internal/db/finding_clusters.go:44-132 | After finalization the clusters of the scan are exactly the classes of equal cluster keys |
| `ClusterRuns.ReselectionKeepsMembership` | internal/db/finding_suppressions.go:284-354 | Two findings are in one cluster after reselection if and only if they were before |
| `ClusterRuns.ReselectionPicksBest` | internal/db/finding_suppressions.go:284-354 | No member is preferred to the new primary, and an unbeaten primary stays |
| `ClusterRuns.TriageIsExact` | internal/db/finding_clusters.go:136-170 | Triage through any member sets the status of the whole issue and of nothing else |
| `ClusterRuns.DeleteKeepsClusters` | internal/db/postgres_scanqueue.go:135-167 | Deleting a tool's rows leaves no dangling membership |
| `ClusterRuns.NewPrimaryLeads` | internal/db/finding_suppressions.go:325-339 | The new primary is the first member by visibility, severity, present primary and id |
| `ScanEvents.EventStore.EnforceDurableScanEventPolicy` | internal/db/scan_event_policy.go:13-74 | The event is rewritten in place to what the budget stores, or reported as dropped |
| `ScanEvents.EventStore.AppendScanEvent` | internal/db/postgres_scanqueue.go:203-246 | An event is appended under the lease, the budget and the next sequence, or refused |
| `ScanEvents.EventStore.ListScanEvents` | internal/db/postgres_scanqueue.go:248-257 | The page is the scan's rows beyond the cursor in sequence order, up to the effective limit |
| `ScanEvents.AlwaysNumbered` | internal/db/postgres_scanqueue.go:236-243 | The events of a scan are always numbered 1 to n without gaps |
| `ScanEvents.ReaderSeesPrefix` | internal/db/postgres_scanqueue.go:203-257 | However appends interleave, a reader paging by last-seen sequence has seen each event once, in order, none skipped |
| `ScanEvents.ReadMakesProgress` | internal/db/postgres_scanqueue.go:248-257 | Each read brings as many unseen events as there are, up to the limit |
| `ScanEvents.PageIsSlice` | internal/db/postgres_scanqueue.go:248-257 | A page is the next stretch of the scan's events |
| `ScanEvents.AlwaysBudgeted` | internal/db/scan_event_policy.go:13-74 | At most limit + 1 output events are stored, the one beyond the limit is a drop marker and none is oversized |
| `ScanEvents.OneMarker` | internal/db/scan_event_policy.go:50-74 | When callers submit no markers, the only drop marker is the output event beyond the limit |
| `ScanEvents.FencedAppend` | internal/db/postgres_scanqueue.go:203-229 | Once a lease token is retired no event is appended in its name |
| `EventStatements.OutputCountIs` | internal/db/scan_event_policy.go:13-49 | The budget counts the scan's rows of output type |
| `EventStatements.NextSequenceFollows` | internal/db/postgres_scanqueue.go:236-243 | The next sequence is one above the largest stored for the scan |
| `EventStatements.EnforcedExactly` | internal/db/scan_event_policy.go:13-74 | In columns: what is stored of an event, by its type, size and the count so far |
| `EventStatements.AppendAnswers` | internal/db/postgres_scanqueue.go:203-246 | When an event is appended, and the row it adds |
| `EventStatements.PageExactly` | internal/db/postgres_scanqueue.go:248-257 | A page holds the limit's worth of smallest sequences beyond the cursor, ascending |
| `EventStatements.AlwaysWithinBudget` | internal/db/scan_event_policy.go:13-74 | In every run a scan stores at most 2001 output events, none too long, and with 2001 of them the drop marker |
| `BaselineStore.PostgresStore.PersistFindingBaseline` | internal/db/finding_baselines.go:18-65 | Derivation runs under the lease at the pinned time and moves the revision only when something changed |
| `BaselineStore.PostgresStore.LockBaselineScans` | internal/db/finding_baselines.go:72-108 | The locked set is the targets plus the completed scans before the latest cut-off of their branch |
| `BaselineStore.PostgresStore.DeriveFindingBaseline` | internal/db/finding_baselines.go:113-260 | Whatever order rows and maps are visited in, the result is the specified derivation |
| `BaselineStore.PostgresStore.PickBaseline` | internal/db/finding_baselines.go:128-158 | The saved baseline if it qualifies, else the latest prior scan; an invalid resolved one is an error |
| `BaselineStore.PostgresStore.FoldHistory` | internal/db/finding_baselines.go:178-216 | After any row order the fold holds each issue's earliest observation and its presence in baseline and latest scan |
| `BaselineStore.PostgresStore.Reclassify` | internal/db/finding_baselines.go:220-253 | Every row takes its primary's verdict, or the derivation is refused for a missing primary |
| `BaselineStore.PostgresStore.CheckBaselineScan` | internal/db/scan_baselines.go:57-81 | Only a clean completed scan whose selected tools all completed qualifies |
| `Baselines.LatestIsNewest` | internal/db/finding_baselines.go:121-127 | The latest prior scan exists when any does and no other completed after it |
| `Baselines.LockedIsEnough` | internal/db/finding_baselines.go:72-108 | The locked subset gives a target the same prior scans as the whole repository |
| `Baselines.ClassifiesIdeally` | internal/db/finding_baselines.go:232-239 | An issue is classified as a comparison with the latest prior scan would, if and only if the baseline does not disagree about it |
| `Baselines.DerivedIdeally` | internal/db/finding_baselines.go:218-253 | Each row after a derivation carries its primary's identity, and the ideal state if and only if the baseline does not disagree about it |
| `Baselines.StillThereButNew` | internal/db/finding_baselines.go:232-239 | A concrete valid database whose derivation records an issue of the latest prior scan as new |
| `Baselines.LatestBaselineIsIdeal` | internal/db/finding_baselines.go:232-239 | With the latest prior scan as baseline, or none when there is none, every derived row is new iff its issue was never observed, existing iff it is in the latest, resurfaced otherwise |
| `Baselines.MembersAlike` | internal/db/finding_baselines.go:221-253 | All members of a cluster get the same classification |
| `Baselines.FirstSeenIsEarliest` | internal/db/finding_baselines.go:204-215 | First-seen is no later than any prior scan that had the issue |
| `Baselines.FirstSeenNeverLater` | internal/db/finding_baselines.go:240-245 | Derivation never moves first-seen later for an unchanged identity with a recorded introduction |
| `Baselines.DeriveTwice` | internal/db/finding_baselines.go:113-260 | Deriving again over the same history writes nothing and reports no change |
| `Baselines.PersistTwice` | internal/db/finding_baselines.go:18-65 | Persisting again, at whatever time, changes nothing, not even the revision |
| `BaselineStatements.OneKey` | internal/db/finding_baselines.go:171-194 | History rows and primaries are keyed alike: by stable fingerprint, then fingerprint |
| `BaselineStatements.HistoryExactly` | internal/db/finding_baselines.go:113-127 | The prior scans of a derivation, in columns: valid completed scans of the branch and a compatible source that completed before its time |
| `BaselineStatements.LockedExactly` | internal/db/finding_baselines.go:72-108 | The locked rows of one target, in columns |
| `BaselineStatements.BaselineExactly` | internal/db/finding_baselines.go:128-158 | Which baseline is used, case by case |
| `BaselineStatements.StateExactly` | internal/db/finding_baselines.go:232-239 | The state recorded, said of which prior scans hold a row with the identity |
| `BaselineStatements.IntroductionExactly` | internal/db/finding_baselines.go:240-245 | The first-seen scan and time recorded, carried or earliest |
| `BaselineStatements.DerivedExactly` | internal/db/finding_baselines.go:218-253 | Every column a derivation writes in a row |
| `BaselineStatements.StillThere` | internal/db/finding_baselines.go:171-239 | With the latest prior scan as baseline, a primary whose non-empty stable fingerprint a row of that scan has is recorded existing, first seen no later than its completion |
| `ScanBaselines.DerivationIsStep` | internal/db/finding_baselines.go:18-65 | Persisting a derived baseline takes the scan protocol through its derivation step: same rows, same revision, same baseline |
| `ScanBaselines.SameRefusals` | internal/db/finding_baselines.go:48-51 | Derivation and the scan protocol refuse the same scans and lease tokens |
| `FleetChains.FleetEvidence.Prefetch` | internal/db/fleet_evidence.go:250-277 | Exactly the missing scans are loaded |
| `FleetChains.FleetEvidence.Contributing` | internal/db/fleet_evidence.go:315-328 | Each observed branch gets its latest complete scan and every later attempt |
| `FleetChains.FleetEvidence.ChainEvidence` | internal/db/fleet_evidence.go:334-362 | The evidence of all branches, each overlaid in creation order |
| `FleetChains.FleetEvidence.CurrentEvidence` | internal/db/fleet_evidence.go:330-332 | Exactly the findings a full replay of the observed scans leaves |
| `FleetChains.LazyIsReplay` | internal/db/fleet_evidence.go:315-362 | The lazy chain equals a full replay in which complete scans replace and others overlay |
| `FleetChains.ChainShape` | internal/db/fleet_evidence.go:315-328 | Only the first scan of a chain can be complete, and all are observed scans of the branch |
| `FleetChains.OnlyChainMatters` | internal/db/fleet_evidence.go:311-314 | Scans outside the chain never need loading |
| `FleetHistory.History.Read` | internal/db/fleet_evidence.go:368-438 | For every given finding's key, the chunked queries report what reading the whole history would |
| `FleetHistory.History.ReadWhole` | internal/db/fleet_evidence.go:386-393 | Reading every row reports the earliest and the latest flagged observation of each key |
| `FleetHistory.History.QueryChunk` | internal/db/fleet_evidence.go:409-425 | The grouped query returns each matching group once, flagged when one of its rows is |
| `FleetHistory.FilteredIsWhole` | internal/db/fleet_evidence.go:368-438 | The filtered and the whole history agree on first-seen and resurfaced for every given finding |
| `FleetHistory.ReportsAreUnique` | internal/db/fleet_evidence.go:377-385 | The observations determine what is reported, whatever the order they arrive in |
| `FleetHistory.KeySplits` | internal/db/fleet_current.go:33-35 | A key names one repository and one identity when repository ids hold no NUL |
| `FleetStatements.IdentitiesExactly` | internal/db/fleet_current.go:17-35 | The place, issue, comparison key and openness of a row, from its columns |
| `FleetStatements.ReplayExactly` | internal/db/fleet_evidence.go:315-362 | Evidence of a branch are exactly the rows of its standing scans that no later row of the same place replaces |
| `FleetStatements.EvidenceExactly` | internal/db/fleet_evidence.go:330-362 | The current evidence is exactly the rows that survive on some branch |
| `FleetStatements.ChainExactly` | internal/db/fleet_evidence.go:315-328 | A chain holds exactly the scans seen that no later complete one replaces |
| `FleetStatements.ChainsExactly` | internal/db/fleet_evidence.go:315-328 | There is a chain for each branch seen by the time, and for no other |
| `FleetStatements.FirstSeenExactly` | internal/db/fleet_evidence.go:368-438 | First-seen is the earliest time a scan showed a row of the issue, and missing exactly when none did |
| `FleetStatements.ResurfacedExactly` | internal/db/fleet_evidence.go:368-438 | Resurfaced is the latest time a scan showed a flagged row of the issue |
| `FleetChanges.Changes` | internal/db/fleet_evidence.go:566-720 | The report counts, row by row and overall, exactly the new, resurfaced, resolved and suppressed keys of the specification, how many branches compared, and the change in open locations of each severity |
| `FleetChanges.DistinctProgress` | internal/db/fleet_evidence.go:550-564 | One finding for each progress key, open and severe ones preferred |
| `FleetChanges.ExplainRows` | internal/db/fleet_evidence.go:568-603 | Each row's baseline and reason, the comparable branches, and exactly how many rows compare |
| `FleetChanges.CompareAfter` | internal/db/fleet_evidence.go:662-684 | New and resurfaced keys of one row, each counted once |
| `FleetChanges.CompareBefore` | internal/db/fleet_evidence.go:685-694 | Resolved keys of one row, each counted once |
| `FleetChanges.CompareHidden` | internal/db/fleet_evidence.go:695-706 | Suppressed keys of one row, each counted once |
| `FleetChanges.NewIsNothingElse` | internal/db/fleet_evidence.go:566-720 | Across all branches no issue is both new and resurfaced, nor both new and resolved |
| `FleetChanges.KnownIsEarly` | internal/db/fleet_evidence.go:663-672 | What a comparison base knows was seen at or before the cut-off |
| `FleetChanges.CandidatesReported` | internal/db/fleet_evidence.go:649-684 | Every candidate of a compared branch is reported as new or resurfaced |
| `ChangeStatements.ComparedExactly` | internal/db/fleet_evidence.go:566-603 | A branch compares exactly when its row is fresh, a complete base was seen a week ago and not more than 37 days ago, a release is recorded and the scope is the same |
| `ChangeStatements.ReasonExactly` | internal/db/fleet_evidence.go:583-595 | Why a row is left out, check by check |
| `ChangeStatements.DistinctExactly` | internal/db/fleet_evidence.go:550-564 | Kept of each issue is the row that outweighs every earlier one and is not outweighed by a later one |
| `ChangeStatements.KnownExactly` | internal/db/fleet_evidence.go:607-625 | The backlog of a week ago, the present keys and the unverified ones, said of surviving rows |
| `ChangeStatements.ReportExactly` | internal/db/fleet_evidence.go:566-720 | A key is reported as new, back, fixed or hidden exactly when a compared row brings it, said of scan rows and surviving evidence |
| `ChangeStatements.RowExactly` | internal/db/fleet_evidence.go:578-706 | What each row of the report says: its two scans, whether it compares, and the number of keys of each kind |
| `ChangeStatements.CurrentIsNotResolved` | internal/db/fleet_evidence.go:685-694 | No issue with present evidence on any branch is reported as resolved |
| `ChangeStatements.LocationsExactly` | internal/db/fleet_evidence.go:707-715 | The week-over-week numbers are taken over the open rows of both scans of each compared branch |
| `ChangeStatements.DeltaExactly` | internal/db/fleet_evidence.go:714-717 | For each severity the locations open now less those open in the bases |
| `FleetTrends.DedupCurrentFindings` | internal/db/fleet_current.go:52-73 | The result is the best finding of each identity, each once, whatever the input order |
| `FleetTrends.OneBestPerIssue` | internal/db/fleet_current.go:52-73 | Each identity has exactly one best finding |
| `FleetTrends.DeduplicationIsIdempotent` | internal/db/fleet_current.go:52-73 | Deduplicating again changes nothing |
| `FleetTrends.DeduplicationKeepsIssues` | internal/db/fleet_current.go:52-73 | No identity is lost |
| `FleetTrends.CountBySeverity` | internal/db/fleet_current.go:122-131 | Every listed finding counts under one of five severities or not at all; a list without repeats counts like its set |
| `FleetTrends.Total` | internal/db/fleet_evidence.go:873-878 | The sum of the five counts is the number of findings of a known severity |
| `FleetTrends.BuildCacheId` | internal/db/fleet_evidence.go:851-861 | The id lists the branches in order, each with the ids of its chain |
| `FleetTrends.SameIdSameChains` | internal/db/fleet_evidence.go:850-862 | Equal cache ids mean equal scan chains on every branch |
| `FleetTrends.SameIdSameEvidence` | internal/db/fleet_evidence.go:864-872 | Equal cache ids mean equal open evidence |
| `FleetTrends.FleetFindingTrends` | internal/db/fleet_evidence.go:827-898 | Every day of the series equals counting that day from scratch |
| `TrendStatements.BestExactly` | internal/db/fleet_current.go:52-73 | Kept are the findings that none of the same place beats by severity, time and id |
| `TrendStatements.StartExactly` | internal/db/fleet_evidence.go:827-849 | The first day shown: the day of the first scan, or 89 days before today |
| `TrendStatements.DayExactly` | internal/db/fleet_evidence.go:864-898 | What a day counts: repositories seen, branches whose last scan is incomplete, open surviving rows |
| `TrendStatements.EntryExactly` | internal/db/fleet_evidence.go:864-892 | What an entry says: five counts, their sum, the repositories and the incomplete branches of the day |
| `CustomBuildStore.ReleaseRepository.CreateCustomBuild` | internal/db/scanner_custom_build_repository.go:129-236 | A key is accepted once, the same request is replayed, a different one refused |
| `CustomBuildStore.ReleaseRepository.CheckVariants` | internal/db/scanner_custom_build_repository.go:69-87 | Variants are supported, distinct, in canonical order and at least one |
| `CustomBuildStore.ReleaseRepository.ClaimNextCustomBuild` | internal/db/scanner_custom_build_repository.go:332-396 | The first claimable build in line is claimed; an invalid request is told from an empty queue |
| `CustomBuildStore.ReleaseRepository.StartCustomBuild` | internal/db/scanner_custom_build_repository.go:398-445 | Only the unexpired, uncancelled claim starts |
| `CustomBuildStore.ReleaseRepository.HeartbeatCustomBuild` | internal/db/scanner_custom_build_repository.go:456-496 | The token's owner renews while nobody reclaimed, and learns whether it still holds the lease, the state, the version and a requested cancellation |
| `CustomBuildStore.ReleaseRepository.StartCustomBuildVariant` | internal/db/scanner_custom_build_repository.go:498-549 | A queued variant starts under the lease |
| `CustomBuildStore.ReleaseRepository.CompleteCustomBuildVariant` | internal/db/scanner_custom_build_repository.go:551-615 | A running variant records its result or failure under the lease |
| `CustomBuildStore.ReleaseRepository.AppendCustomBuildLog` | internal/db/scanner_custom_build_repository.go:647-692 | A line is appended with the next sequence while lines, and stored characters plus new bytes, stay in budget |
| `CustomBuildStore.ReleaseRepository.FinalizeCustomBuild` | internal/db/scanner_custom_build_repository.go:710-803 | The variants decide the final state and the lease is given up |
| `CustomBuildStore.ReleaseRepository.RequestCustomBuildCancellation` | internal/db/scanner_custom_build_repository.go:805-877 | A queued build is cancelled at once, one in hand is asked to stop; a used key replays or conflicts |
| `CustomBuildStore.ReleaseRepository.RetryCustomBuild` | internal/db/scanner_custom_build_repository.go:879-949 | A failed or partial build with budget left is requeued and only its failed variants start over; a used key replays or conflicts |
| `CustomBuildStore.ReleaseRepository.ReclaimStaleCustomBuilds` | internal/db/scanner_custom_build_repository.go:951-1034 | Every expired build is cancelled, failed or requeued, and their number is reported |
| `CustomBuildRuns.QueuedIsClaimable` | internal/db/scanner_custom_build_repository.go:332-396 | A queued build is always claimable, so a claim finds one |
| `CustomBuildRuns.ClaimsBounded` | internal/db/scanner_custom_build_repository.go:332-396 | Claims over all retries and worker losses equal the attempts and never exceed the budget |
| `CustomBuildRuns.CompletedVariantForever` | internal/db/scanner_custom_build_repository.go:498-1034 | A completed variant keeps its whole row, digest included, through every retry and reclaim |
| `CustomBuildRuns.CompletedBuildForever` | internal/db/scanner_custom_build_repository.go:710-803 | A completed build has only completed variants, and both stay so |
| `CustomBuildRuns.CancelledForever` | internal/db/scanner_custom_build_repository.go:805-1034 | A cancelled build never comes back |
| `CustomBuildRuns.CompletedMeansAllCompleted` | internal/db/scanner_custom_build_repository.go:735-769 | A build finalizes as completed if and only if all its variants completed and it was not cancelled |
| `CustomBuildRuns.UnfinishedAreLeft` | internal/db/scanner_custom_build_repository.go:748-769 | Corollary, for finalization alone: unfinished variants are left exactly when another failed and nobody cancelled |
| `CustomBuildEndings.ReclaimLeaves` | internal/db/scanner_custom_build_repository.go:968-1013 | A lost worker ends a build with its variants as they are, or requeues it with none of them running |
| `CustomBuildEndings.CancelLeaves` | internal/db/scanner_custom_build_repository.go:842-855 | Cancelling a queued build leaves unfinished variants exactly when one is running |
| `CustomBuildEndings.EndingLeaves` | internal/db/scanner_custom_build_repository.go:735-1013 | Whatever step ends a build is a finalization, a cancellation or a reclaim, and whether it leaves unfinished variants is settled by the tables before it |
| `CustomBuildEndings.EndedBuild` | internal/db/scanner_custom_build_repository.go:498-1034 | In every state of every run an ended build has unfinished or running variants exactly when the step that ended it left them, and its row is what that step wrote |
| `CustomBuildEndings.LostWhileRunning` | internal/db/scanner_custom_build_repository.go:968-1013 | A concrete run that ends in a failed build with a variant running and none failed |
| `CustomBuildEndings.QueuedRunsNothing` | internal/db/scanner_custom_build_repository.go:735-949 | In every state of every run a queued build holds a running variant if and only if it was finalized with one variant failed and another running, and then retried |
| `CustomBuildEndings.RetriedWhileRunning` | internal/db/scanner_custom_build_repository.go:498-949 | A concrete run in which a retried build holds a running variant that the next claim cannot start |
| `CustomBuildRuns.StepKeepsLogs` | internal/db/scanner_custom_build_repository.go:647-692 | Every step keeps the log numbered 1 to n, within its line budget, and its characters within the byte limit |
| `CustomBuildRuns.LogsAlwaysInBudget` | internal/db/scanner_custom_build_repository.go:647-692 | In every state of every run each log is numbered 1 to n and its characters are within the limit |
| `CustomBuildRuns.AcceptedLinesFit` | internal/db/scanner_custom_build_repository.go:664-676 | Every line a log still accepts keeps its bytes within the limit if and only if the stored lines are all single-byte or leave room for a line of full length |
| `CustomBuildRuns.ByteBudgetKept` | internal/db/scanner_custom_build_repository.go:664-676 | Corollary: an accepted append keeps the bytes of the log within the limit if and only if stored bytes and new line fit together |
| `CustomBuildRuns.SingleByteLogsFit` | internal/db/scanner_custom_build_repository.go:664-676 | Corollary: while stored lines are single-byte, every accepted append keeps the bytes within the limit |
| `CustomBuildRuns.WideLinesExceed` | internal/db/scanner_custom_build_repository.go:664-676 | A concrete run whose accepted lines take the bytes of a log beyond the limit |
| `CustomBuildRuns.KeyedCommandOnce` | internal/db/scanner_custom_build_repository.go:805-949 | Over any run, once a keyed command of a build was accepted no later cancellation or retry with that key changes anything |
| `CustomBuildRuns.Fenced` | internal/db/scanner_custom_build_repository.go:398-803 | Once a build's lease was given up or reclaimed, no step carrying its token changes anything |
| `CustomBuildStatements.CreateAnswers` | internal/db/scanner_custom_build_repository.go:129-236 | The answer of a creation, check by check, and every row it inserts |
| `CustomBuildStatements.ClaimedExactly` | internal/db/scanner_custom_build_repository.go:332-396 | The build claimed is the first in line of those queued, due, not cancelled and with attempts left |
| `CustomBuildStatements.ClaimWrites` | internal/db/scanner_custom_build_repository.go:332-396 | The columns a claim writes |
| `CustomBuildStatements.HeartbeatExactly` | internal/db/scanner_custom_build_repository.go:456-496 | In columns: who renews, and what is written |
| `CustomBuildStatements.AppendLogAnswers` | internal/db/scanner_custom_build_repository.go:647-692 | The answer of an append, check by check, and the row it adds |
| `CustomBuildStatements.MaxSequenceExactly` | internal/db/scanner_custom_build_repository.go:664-692 | The sequence appended after is the largest stored, 0 without any |
| `CustomBuildStatements.FinalizeAnswers` | internal/db/scanner_custom_build_repository.go:710-803 | The answer of a finalization, check by check, and what it writes in build and variants |
| `CustomBuildStatements.CancelAnswers` | internal/db/scanner_custom_build_repository.go:805-877 | The answer of a cancellation, check by check, and what it writes |
| `CustomBuildStatements.RetryAnswers` | internal/db/scanner_custom_build_repository.go:879-949 | The answer of a retry, check by check, and what it writes |
| `CustomBuildStatements.ReclaimExactly` | internal/db/scanner_custom_build_repository.go:951-1034 | In columns: which builds a reclaim takes, where they go, and what becomes of their variants |
| `CustomBuildStatements.ReclaimCountsChanges` | internal/db/scanner_custom_build_repository.go:951-1034 | The number reported is the number of builds that changed |
| `Alerts.Repository.ReconcileScannerAlerts` | internal/db/scanner_alert_repository.go:634-770 | Alerts, events, counters and active counts after a reconcile, whatever order conditions and alerts are visited in |
| `Alerts.OpenIsActive` | internal/db/scanner_alert_repository.go:634-770 | For each evaluated kind of the scope the open alerts are exactly the active conditions |
| `Alerts.OthersUntouched` | internal/db/scanner_alert_repository.go:731-739 | Other kinds and other scopes keep their alerts as they are |
| `Alerts.OpenAlertsBalance` | internal/db/scanner_alert_repository.go:652-763 | Opened plus reopened minus resolved equals the change in open alerts |
| `Alerts.CountsAddUp` | internal/db/scanner_alert_repository.go:98-129 | The active counts add up to all alerts if and only if no open alert has an unknown severity |
| `Alerts.CountsAlwaysAddUp` | internal/db/scanner_alert_repository.go:98-129 | In every state of every run the active counts add up to all alerts |
| `Alerts.KeysNeverRepeat` | internal/db/scanner_alert_repository.go:772-798 | Over any run no lifecycle event key is issued twice |
| `Alerts.GenerationIsOpenings` | internal/db/scanner_alert_repository.go:655-694 | An alert's generation is the number of its openings |
| `Alerts.ReconcileKeepsLog` | internal/db/scanner_alert_repository.go:772-798 | The log holds each generation's opening once and its resolution at most once |
| `Alerts.AddingKeepsKeyed` | internal/db/scanner_alert_repository.go:800-838 | Accepted conditions are keyed by their own fingerprint and have a known severity |
| `AlertStatements.ConditionExactly` | internal/db/scanner_alert_repository.go:800-838 | What is accepted as a condition, and how it is stored |
| `AlertStatements.ConditionsAreTold` | internal/db/scanner_alert_repository.go:652-730 | After a reconcile every condition has an open alert with its severity, summary and evidence, the policy of the request and the present time; origin and counters as stored before |
| `AlertStatements.OthersAreSettled` | internal/db/scanner_alert_repository.go:731-763 | An alert without a condition is resolved when it was open, of the scope and of an evaluated kind, and stays as it is otherwise |
| `AlertStatements.OpenBySeverity` | internal/db/scanner_alert_repository.go:634-770 | For the evaluated kinds of the scope the open alerts of each severity are exactly the conditions of that severity |
| `AlertStatements.AlwaysTold` | internal/db/scanner_alert_repository.go:634-770 | The same after every evaluation of every run |
| `AlertStatements.AlwaysOwnIdentity` | internal/db/scanner_alert_repository.go:655-690 | In every run each alert keeps the identity columns its fingerprint was made of |
| `AlertStatements.EventsExactly` | internal/db/scanner_alert_repository.go:772-798 | A reconcile appends one event for each fingerprint opened, reopened or resolved, and no other |
| `AlertStatements.SummaryExactly` | internal/db/scanner_alert_repository.go:652-763 | The numbers reported, counted from the rows before and after |
| `LikeSearch.SearchIsSubstring` | internal/db/pages.go:37-41 | For every text and term, the escaped pattern matches if and only if the term is a literal substring |
| `LikeSearch.ParseEscaped` | internal/db/finding_pages.go:99-103 | The escaped term is a well-formed pattern of literals |
| `LikeSearch.LiteralsThenAnything` | internal/db/pages.go:136-140 | Literal characters followed by a wildcard match exactly the texts with that prefix |

## Left out

- SQL drivers, migrations, row decoding, row locks and SKIP LOCKED: every transaction is one atomic step on typed rows.
- JSON text: lists and summaries are values; an unreadable tool list is the only malformed text modelled.
- Unguarded whole-row writers and orphan purges: they bypass the protocols the invariants are about.
- Git, filesystem and artifact work inside hand-off and cancellation: only the returned commit or failure is modelled.
- Attempt rows, audit rows, phases, error messages and other columns no condition reads.
- FixStore.PostgresStore.CreateFixJob: does not model the row order in which the finding-scope query returns scopes; they are checked in the order of the submitted list. FixStore.ScopeAcceptedExactly shows that the order only decides which of two errors is reported.
- FixStore.PostgresStore.CheckScope: the same holds for the check itself.
- ScanStore.PostgresStore.CompleteScan: does not model artifacts, vulnerability reconciliation, the automatic baseline and the import row that publish in the same transaction.
- ScanStore.PostgresStore.FinalizeFindingClusters: does not model the enrichment columns written to the primaries.
- ScanStore.PostgresStore.ReconcileScan: does not model the re-derived baseline columns, finding count and canonical vulnerability of a promoted primary.
- ScanStore.PostgresStore.CreateFindingsForScanLease: does not tell an insert error from a lost lease; both leave the tables unchanged. Rows arrive with their suppression flags already applied.
- ScanStore.PostgresStore.UpdateFindingWithRevision: does not model the suppression rules applied again to the row; it arrives with its flag already set.
- ScanEvents.EventStore.EnforceDurableScanEventPolicy: does not model the rendered text of the two replacement payloads.
- ScanEvents.EventStore.AppendScanEvent: does not model the rendered text of the two replacement payloads, only which one is stored and from what.
- BaselineStore.PostgresStore.PersistFindingBaseline: scans and findings of the baseline modules carry only the columns derivation reads. In `ScanModel` they are one detail text and one baseline text; ScanBaselines.DerivationIsStep proves the two views step together, for any encoding that tells different columns apart. The fix, fleet and scan modules likewise each declare the columns their own transactions read.
- FleetChains.FleetEvidence.Prefetch: does not model parallel loading or a failed load, which is sticky and empties the result.
- FleetChanges.Changes: coverage rows are an input, and a failed load is not modelled.
- FleetTrends.FleetFindingTrends: does not model a failed load, which empties the series.
- CustomBuildStore.ReleaseRepository.CreateCustomBuild: does not model version reservation, platforms, namespace and secret reference checks.
- CustomBuildStore.ReleaseRepository.RequestCustomBuildCancellation: the keys of creation, cancellation and retry are recorded; the events a claim, a worker's step or a reclaim writes share their key space with keys made from the lease token and are not recorded.
- CustomBuildStore.ReleaseRepository.RetryCustomBuild: the same keys are not recorded.
- Alerts.Repository.ReconcileScannerAlerts: does not model the order of events in the log, and row ids are the fingerprints.
- White space and letter case beyond ASCII: `Text.TrimSpace` and `Text.ToLower` know single bytes only.
- Collecting alert signals, coverage rows, posture, attention lists, aggregates by rule and by repository: independent filters and sorts that would only add easy members.
- The notification outbox and fixer consoles: the claim, lease and reclaim pattern again.
