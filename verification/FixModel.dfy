/**
 Rows of the fix-job protocol and the conditions its statements test. Times are
 numbers, empty strings stand for empty columns as in the tables.
*/
module FixModel {
  import opened Wrappers
  import opened Text

  datatype JobStatus =
    | Queued | Claimed | Running
    | AwaitingReview | AwaitingPush | PushFailed
    | Succeeded | Failed | Cancelled | Superseded

  const CANCELLATION_CLEANUP := "cancellation_cleanup"

  datatype Job = Job(
    id: string, userId: string, idempotencyKey: string, requestDigest: string,
    repoId: string, scanId: string, remediationId: string, findingIds: seq<string>,
    targetBranch: string, resultBranch: string, baseBranch: string, workspacePath: string,
    plannedRuns: int, runIndex: int,
    status: JobStatus, pauseReason: string, resumeAction: string, jobError: string,
    pushed: bool, pushSha: string, publication: Publication,
    claimedBy: string, claimedAt: Option<int>, heartbeatAt: Option<int>, finishedAt: Option<int>,
    revision: int, createdAt: int, updatedAt: int)

  /** What a job's summary says about its pull request. */
  datatype Publication = Publication(prUrl: string, publicationError: string) | Unreadable

  datatype RemediationState = Open | Frozen | Discarded

  datatype Remediation = Remediation(
    id: string, userId: string, repoId: string, originScanId: string,
    branch: string, workspacePath: string, state: RemediationState,
    publishedSha: string, publishedAt: Option<int>, createdAt: int, updatedAt: int)

  datatype ScanStatus = Pending | ScanRunning | Completed | ScanFailed | ScanCancelled

  datatype Scan = Scan(
    id: string, userId: string, repoId: string, branch: string, status: ScanStatus,
    originScanId: string, remediationId: string, preparedWorkspace: string, fixJobId: string, createdAt: int)

  datatype Finding = Finding(id: string, scanId: string, clusterId: string)

  datatype Repo = Repo(id: string, userId: string, defaultBranch: string, github: bool)

  datatype Database = Database(
    users: set<string>,
    repos: map<string, Repo>,
    scans: map<string, Scan>,
    findings: map<string, Finding>,
    jobs: map<string, Job>,
    remediations: map<string, Remediation>)

  datatype FixError =
    | OutOfScope | NotFound | IdempotencyConflict | FixBusy | FixFrozen
    | BranchConflict | SourceBranchConflict | JobConflict | DuplicateKey | CleanupFailed

  // ---------- Conditions of the WHERE clauses ----------

  /** status IN ('queued','claimed','running') */
  predicate Busy(s: JobStatus)
  {
    s.Queued? || Active(s)
  }

  /** status IN ('claimed','running') */
  predicate Active(s: JobStatus)
  {
    s.Claimed? || s.Running?
  }

  predicate Paused(s: JobStatus)
  {
    s.AwaitingReview? || s.AwaitingPush? || s.PushFailed?
  }

  predicate Live(s: JobStatus)
  {
    Busy(s) || Paused(s)
  }

  predicate Terminal(s: JobStatus)
  {
    s.Cancelled? || s.Superseded? || s.Succeeded? || s.Failed?
  }

  /** A cancelled job owns its checkout until its cleanup is acknowledged. */
  predicate Cleaning(j: Job)
  {
    j.status.Cancelled? && j.pauseReason == CANCELLATION_CLEANUP
  }

  /** COALESCE(NULLIF(result_branch,''), NULLIF(target_branch,''), 'wolf-fix/'||COALESCE(NULLIF(scan_id,''),id)) */
  function EffectiveBranch(j: Job): string
  {
    Or(j.resultBranch, Or(j.targetBranch, "wolf-fix/" + Or(j.scanId, j.id)))
  }

  /** The resources two jobs cannot work on at the same time. */
  predicate SharesKey(a: Job, b: Job)
  {
    || (a.workspacePath != "" && b.workspacePath == a.workspacePath)
    || (a.remediationId != "" && b.remediationId == a.remediationId)
    || (a.repoId == b.repoId && EffectiveBranch(a) == EffectiveBranch(b))
  }

  /** An unfinished scan of the repository on the remediation or in the workspace. */
  predicate ScanOccupies(s: Scan, repoId: string, remediationId: string, path: string)
  {
    && s.repoId == repoId && (s.status.Pending? || s.status.ScanRunning?)
    && ((remediationId != "" && s.remediationId == remediationId) || (path != "" && s.preparedWorkspace == path))
  }

  predicate AnyScanOccupies(db: Database, repoId: string, remediationId: string, path: string)
  {
    exists id :: id in db.scans && ScanOccupies(db.scans[id], repoId, remediationId, path)
  }

  function Occupying(repoId: string, remediationId: string, path: string): Scan -> bool
  {
    (s: Scan) => ScanOccupies(s, repoId, remediationId, path)
  }

  predicate Before(aCreated: int, aId: string, bCreated: int, bId: string)
  {
    aCreated < bCreated || (aCreated == bCreated && Less(aId, bId))
  }

  // ---------- Claim ----------

  /** The rows that keep a queued job q from being claimed. */
  predicate HoldsKeyOf(active: Job, q: Job)
  {
    (Active(active.status) || Cleaning(active)) && SharesKey(q, active)
  }

  predicate Claimable(db: Database, q: Job)
  {
    && q.status.Queued?
    && (forall id :: id in db.jobs ==> !HoldsKeyOf(db.jobs[id], q))
    && !AnyScanOccupies(db, q.repoId, q.remediationId, q.workspacePath)
  }

  function ClaimableIn(db: Database): Job -> bool
  {
    (q: Job) => Claimable(db, q)
  }

  function OldestJob(): (Job, Job) -> bool
  {
    (a: Job, b: Job) => Before(a.createdAt, a.id, b.createdAt, b.id)
  }

  function ClaimedRow(j: Job, worker: string, now: int): Job
  {
    j.(status := Claimed, claimedBy := worker, claimedAt := Some(now), heartbeatAt := Some(now),
       revision := j.revision + 1, updatedAt := now)
  }

  // ---------- Update ----------

  /** The other jobs that keep j from being queued again. */
  predicate BlocksResume(other: Job, j: Job)
  {
    && other.repoId == j.repoId && other.id != j.id && (Busy(other.status) || Cleaning(other))
    && SharesKey(j, other)
  }

  /** The columns UPDATE does not write keep their stored values. */
  function UpdatedRow(stored: Job, j: Job, now: int): Job
  {
    j.(id := stored.id, userId := stored.userId, idempotencyKey := stored.idempotencyKey,
       requestDigest := stored.requestDigest, heartbeatAt := stored.heartbeatAt, createdAt := stored.createdAt,
       revision := stored.revision + 1, updatedAt := now)
  }

  /** WHERE id=:id AND revision=:revision AND (status NOT IN (terminal) OR status=:status) */
  predicate Updates(db: Database, j: Job)
  {
    && j.id in db.jobs && db.jobs[j.id].revision == j.revision
    && (!Terminal(db.jobs[j.id].status) || db.jobs[j.id].status == j.status)
  }

  // ---------- Reclaim, supersede ----------

  predicate Stale(j: Job, cutoff: int)
  {
    Active(j.status) && (j.heartbeatAt.None? || j.heartbeatAt.value < cutoff)
  }

  function StaleBefore(cutoff: int): Job -> bool
  {
    (j: Job) => Stale(j, cutoff)
  }

  function Requeue(now: int): Job -> Job
  {
    (j: Job) => j.(status := Queued, claimedBy := "", revision := j.revision + 1, updatedAt := now)
  }

  function SupersededBy(remediationId: string, id: string): Job -> bool
  {
    (j: Job) => remediationId != "" && j.remediationId == remediationId && j.id != id && Paused(j.status)
  }

  function Supersede(now: int): Job -> Job
  {
    (j: Job) => j.(status := Superseded, pauseReason := "superseded by a later run on this branch",
                   finishedAt := Some(now), revision := j.revision + 1, updatedAt := now)
  }

  // ---------- Creation ----------

  /** A fix submission: the columns its caller chooses. */
  datatype Request = Request(
    id: string, userId: string, idempotencyKey: string, requestDigest: string,
    repoId: string, scanId: string, findingIds: seq<string>, targetBranch: string, baseBranch: string,
    plannedRuns: int, runIndex: int)

  function OfOrigin(origin: string): Remediation -> bool
  {
    (r: Remediation) => r.originScanId == origin
  }

  /** ORDER BY created_at DESC, id DESC */
  function LatestRemediation(): (Remediation, Remediation) -> bool
  {
    (a: Remediation, b: Remediation) => Before(b.createdAt, b.id, a.createdAt, a.id)
  }

  function LatestScan(): (Scan, Scan) -> bool
  {
    (a: Scan, b: Scan) => Before(b.createdAt, b.id, a.createdAt, a.id)
  }

  function CompletedChild(origin: string, repoId: string, userId: string): Scan -> bool
  {
    (s: Scan) => s.originScanId == origin && s.repoId == repoId && s.userId == userId && s.status.Completed?
  }

  function BusyOn(remediationId: string): Job -> bool
  {
    (j: Job) => j.remediationId == remediationId && Busy(j.status)
  }

  function OccupiedOn(remediationId: string): Job -> bool
  {
    (j: Job) => j.remediationId == remediationId && (Busy(j.status) || Cleaning(j))
  }

  function CleaningIn(repoId: string): Job -> bool
  {
    (j: Job) => j.repoId == repoId && Cleaning(j)
  }

  function SameSubmission(userId: string, key: string): Job -> bool
  {
    (j: Job) => j.userId == userId && j.idempotencyKey == key
  }

  /** Representatives of a scan: members of a cluster other than its primary are not listed. */
  function VisibleOf(scanId: string): Finding -> bool
  {
    (f: Finding) => f.scanId == scanId && (f.clusterId == "" || f.clusterId == f.id)
  }

  predicate OwnedScan(s: Scan, q: Request)
  {
    s.repoId == q.repoId && (s.userId == "" || s.userId == q.userId)
  }

  /** A follow-up run continues the job that produced the scan it starts from. */
  predicate ContinuesRun(db: Database, scan: Scan, q: Request)
  {
    && scan.fixJobId in db.jobs
    && var previous := db.jobs[scan.fixJobId];
    && scan.status.Completed? && previous.repoId == q.repoId && previous.userId == q.userId
    && (previous.status.AwaitingPush? || previous.status.Succeeded?)
    && previous.runIndex + 1 == q.runIndex && previous.plannedRuns == q.plannedRuns && q.runIndex <= q.plannedRuns
  }

  function NewRemediation(q: Request, id: string, origin: string, now: int): Remediation
  {
    Remediation(id, q.userId, q.repoId, origin, Or(q.targetBranch, "wolf-fix/" + TrimSpace(origin)), "", Open, "",
      None, now, now)
  }

  /** The row enqueueFixJob inserts. */
  function NewJob(q: Request, scanId: string, rem: Option<Remediation>, baseBranch: string, findingIds: seq<string>,
      now: int): Job
  {
    Job(q.id, q.userId, q.idempotencyKey, q.requestDigest,
        q.repoId, scanId, if rem.Some? then rem.value.id else "", findingIds,
        if rem.Some? then rem.value.branch else q.targetBranch, "", baseBranch,
        if rem.Some? then rem.value.workspacePath else "",
        if q.plannedRuns <= 0 then 1 else q.plannedRuns, if q.runIndex <= 0 then 1 else q.runIndex,
        Queued, "", "", "", false, "", Unreadable,
        "", None, None, None, 0, now, now)
  }

  // ---------- Hand-off ----------

  /** A child scan that works in a remediation's checkout. */
  predicate Admitted(s: Scan)
  {
    s.remediationId != "" && s.preparedWorkspace != "" && (s.status.Pending? || s.status.ScanRunning?)
  }

  predicate BlocksHandoff(j: Job, r: Remediation)
  {
    && j.repoId == r.repoId && (Busy(j.status) || Cleaning(j))
    && (j.remediationId == r.id || j.resultBranch == r.branch || j.targetBranch == r.branch
        || (r.workspacePath != "" && j.workspacePath == r.workspacePath))
  }

  function BlockingHandoff(r: Remediation): Job -> bool
  {
    (j: Job) => BlocksHandoff(j, r)
  }

  /** A durably successful publication of the branch the remediation froze. */
  predicate PublishedBy(j: Job, r: Remediation, github: bool)
  {
    && j.remediationId == r.id && j.status.Succeeded? && j.pushed
    && j.pushSha == r.publishedSha && j.workspacePath == r.workspacePath
    && r.publishedSha != "" && j.repoId == r.repoId && j.userId == r.userId
    && (github ==>
      j.publication.Publication? && TrimSpace(j.publication.prUrl) != "" && j.publication.publicationError == "")
  }

  function ReleasedBy(r: Remediation): Job -> bool
  {
    (j: Job) => j.remediationId == r.id
      && (Paused(j.status) || (j.status.Succeeded? && j.workspacePath == r.workspacePath))
  }

  function Release(now: int): Job -> Job
  {
    (j: Job) => j.(status := Succeeded, workspacePath := "", pauseReason := "", resumeAction := "", jobError := "",
                   finishedAt := if j.finishedAt.Some? then j.finishedAt else Some(now),
                   revision := j.revision + 1, updatedAt := now)
  }

  function FrozenRow(r: Remediation, sha: string, now: int): Remediation
  {
    r.(state := Frozen, workspacePath := "", publishedSha := sha,
       publishedAt := if r.state.Frozen? && r.publishedAt.Some? then r.publishedAt else Some(now), updatedAt := now)
  }

  // ---------- Cancellation ----------

  predicate BlocksCleanup(other: Job, saved: Job)
  {
    var branch := Or(saved.resultBranch, saved.targetBranch);
    && other.id != saved.id && other.repoId == saved.repoId && Live(other.status)
    && ((saved.remediationId != "" && other.remediationId == saved.remediationId)
        || (branch != "" && (other.resultBranch == branch || other.targetBranch == branch))
        || (saved.workspacePath != "" && other.workspacePath == saved.workspacePath))
  }

  function BlockingCleanup(saved: Job): Job -> bool
  {
    (j: Job) => BlocksCleanup(j, saved)
  }

  function CleanedRow(j: Job, now: int): Job
  {
    j.(workspacePath := "", resultBranch := "", claimedBy := "", pauseReason := "", resumeAction := "", jobError := "",
       revision := j.revision + 1, updatedAt := now)
  }
}
