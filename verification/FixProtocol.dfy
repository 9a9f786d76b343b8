/** What each transaction of the fix-job protocol does to the tables, and when it refuses. */
module FixProtocol {
  import opened Wrappers
  import opened Text
  import opened Tables
  import opened FixModel

  /** Primary keys, and the unique index on (user_id, idempotency_key). */
  ghost predicate Valid(db: Database)
  {
    && (forall id :: id in db.jobs ==> db.jobs[id].id == id)
    && (forall id :: id in db.remediations ==> db.remediations[id].id == id)
    && (forall id :: id in db.scans ==> db.scans[id].id == id)
    && (forall a, b :: a in db.jobs && b in db.jobs && SameKey(db.jobs[a], db.jobs[b]) ==> a == b)
  }

  predicate SameKey(a: Job, b: Job)
  {
    a.idempotencyKey != "" && SameSubmission(a.userId, a.idempotencyKey)(b)
  }

  // ---------- createFixJob ----------

  /** The remediation a submission joins or opens, the scan it works on and its source branch. */
  datatype Session = NoSession | Attached(rem: Remediation, isNew: bool, scanId: string, baseBranch: string)

  datatype Created = Created(db: Database, job: Job, replayed: bool)

  ghost function Create(db: Database, q: Request, all: bool, newRemId: string, now: int): Result<Created, FixError>
  {
    if Malformed(q) then Err(OutOfScope)
    else if q.userId !in db.users then Err(NotFound)
    else
      var earlier := Submission(db, q.userId, q.idempotencyKey);
      if q.idempotencyKey != "" && earlier.Some? then
        var job := db.jobs[earlier.value];
        if job.requestDigest == q.requestDigest then Ok(Created(db, job, true)) else Err(IdempotencyConflict)
      else CreateNew(db, q, all, newRemId, now)
  }

  predicate Malformed(q: Request)
  {
    || q.userId == "" || q.repoId == "" || |q.idempotencyKey| > 255
    || (q.idempotencyKey != "" && q.requestDigest == "")
  }

  ghost function Submission(db: Database, userId: string, key: string): (found: Option<string>)
    ensures found.Some? ==> found.value in db.jobs
  {
    if exists id :: id in db.jobs && SameSubmission(userId, key)(db.jobs[id]) then
      var id :| id in db.jobs && SameSubmission(userId, key)(db.jobs[id]);
      Some(id)
    else None
  }

  ghost function CreateNew(db: Database, q: Request, all: bool, newRemId: string, now: int): Result<Created, FixError>
  {
    if q.repoId !in db.repos then Err(OutOfScope)
    else
      var repo := db.repos[q.repoId];
      if repo.userId != "" && repo.userId != q.userId then Err(OutOfScope)
      else if exists id :: id in db.jobs && CleaningIn(q.repoId)(db.jobs[id]) then Err(FixBusy)
      else
        var session := if q.scanId == "" then Ok(NoSession) else Attach(db, q, all, newRemId, now);
        if session.Err? then Err(session.error)
        else Enqueue(db, q, all, repo, session.value, now)
  }

  ghost function Attach(db: Database, q: Request, all: bool, newRemId: string, now: int): Result<Session, FixError>
  {
    if q.scanId !in db.scans || !OwnedScan(db.scans[q.scanId], q) then Err(OutOfScope)
    else
      var scan := db.scans[q.scanId];
      var origin := Or(scan.originScanId, scan.id);
      if q.runIndex > 1 && !ContinuesRun(db, scan, q) then Err(JobConflict)
      else if origin !in db.scans || !OwnedScan(db.scans[origin], q) then Err(OutOfScope)
      else
        var base := db.scans[origin].branch;
        var latest := First(db.remediations, OfOrigin(origin), LatestRemediation());
        var started := Attached(NewRemediation(q, newRemId, origin, now), true, q.scanId, base);
        if latest.None? then Ok(started)
        else if Foreign(db.remediations[latest.value], q) then Err(OutOfScope)
        else
          match db.remediations[latest.value].state
          case Frozen => Err(FixFrozen)
          case Open => Join(db, q, all, db.remediations[latest.value], origin, base)
          case Discarded => Ok(started)
  }

  predicate Foreign(rem: Remediation, q: Request)
  {
    rem.repoId != q.repoId || (rem.userId != "" && rem.userId != q.userId)
  }

  ghost function Join(db: Database, q: Request, all: bool, rem: Remediation, origin: string,
      base: string): Result<Session, FixError>
  {
    if AnyScanOccupies(db, q.repoId, rem.id, rem.workspacePath) then Err(FixBusy)
    else if exists id :: id in db.jobs && BusyOn(rem.id)(db.jobs[id]) then Err(FixBusy)
    else if q.targetBranch != "" && q.targetBranch != rem.branch then Err(BranchConflict)
    else
      var child := First(db.scans, CompletedChild(origin, q.repoId, q.userId), LatestScan());
      Ok(Attached(rem, false, if all && q.scanId == origin && child.Some? then child.value else q.scanId, base))
  }

  /** Findings handed in explicitly must exist, belong to the submission and agree on a source branch. */
  function ScopeBase(db: Database, q: Request, repo: Repo, i: nat, base: string): Result<string, FixError>
    requires i <= |q.findingIds| && forall id :: id in q.findingIds ==> Known(db, id)
    decreases |q.findingIds| - i
  {
    if i == |q.findingIds| then Ok(base)
    else
      assert Known(db, q.findingIds[i]);
      var finding := db.findings[q.findingIds[i]];
      var scan := db.scans[finding.scanId];
      if !OwnedScan(scan, q) || (q.scanId != "" && finding.scanId != q.scanId) then Err(OutOfScope)
      else if q.scanId != "" then ScopeBase(db, q, repo, i + 1, base)
      else
        var branch := Or(scan.branch, repo.defaultBranch);
        if i > 0 && base != branch then Err(SourceBranchConflict)
        else ScopeBase(db, q, repo, i + 1, branch)
  }

  predicate Known(db: Database, findingId: string)
  {
    findingId in db.findings && db.findings[findingId].scanId in db.scans
  }

  function Scope(db: Database, q: Request, repo: Repo, base: string): Result<string, FixError>
  {
    if (exists id :: id in q.findingIds && !Known(db, id)) || |set id | id in q.findingIds| != |q.findingIds| then
      Err(OutOfScope)
    else ScopeBase(db, q, repo, 0, base)
  }

  function ScanOf(q: Request, session: Session): string
  {
    if session.Attached? then session.scanId else q.scanId
  }

  /** The findings the job works on: every visible one of the scan, or those handed in. */
  ghost function Listed(db: Database, q: Request, all: bool, session: Session): seq<string>
  {
    if all && session.Attached? then Ascending(set id | id in db.findings && VisibleOf(session.scanId)(db.findings[id]))
    else q.findingIds
  }

  function BaseOf(db: Database, q: Request, all: bool, repo: Repo, session: Session): Result<string, FixError>
  {
    var given := if session.Attached? then session.baseBranch else q.baseBranch;
    if !all && q.findingIds != [] then Scope(db, q, repo, given) else Ok(given)
  }

  ghost function JobOf(db: Database, q: Request, all: bool, repo: Repo, session: Session, base: string, now: int): Job
  {
    NewJob(q, ScanOf(q, session), if session.Attached? then Some(session.rem) else None,
           Or(base, repo.defaultBranch), Listed(db, q, all, session), now)
  }

  ghost function Enqueue(db: Database, q: Request, all: bool, repo: Repo, session: Session,
      now: int): Result<Created, FixError>
  {
    var base := BaseOf(db, q, all, repo, session);
    if base.Err? then Err(base.error)
    else if q.id in db.jobs then Err(DuplicateKey)
    else
      var job := JobOf(db, q, all, repo, session, base.value, now);
      Ok(Created(Inserted(db, session, job, now), job, false))
  }

  function Inserted(db: Database, session: Session, job: Job, now: int): Database
  {
    var remediations := if session.Attached? && session.isNew then db.remediations[session.rem.id := session.rem]
      else db.remediations;
    db.(remediations := remediations,
      jobs := Rewritten(db.jobs[job.id := job], SupersededBy(job.remediationId, job.id), Supersede(now)))
  }

  // ---------- claimNextFixJob, updateFixJob, heartbeatFixJob, ReclaimStaleJobs ----------

  ghost function NextJob(db: Database): Option<string>
  {
    First(db.jobs, ClaimableIn(db), OldestJob())
  }

  ghost function ClaimNext(db: Database, worker: string, now: int): Database
  {
    var next := NextJob(db);
    if next.None? then db
    else db.(jobs := db.jobs[next.value := ClaimedRow(db.jobs[next.value], worker, now)])
  }

  function Update(db: Database, j: Job, now: int): Result<Database, FixError>
  {
    if j.status.Queued? && AnyScanOccupies(db, j.repoId, j.remediationId, j.workspacePath) then Err(FixBusy)
    else if j.status.Queued? && exists id :: id in db.jobs && BlocksResume(db.jobs[id], j) then Err(FixBusy)
    else if !Updates(db, j) then Err(JobConflict)
    else Ok(db.(jobs := db.jobs[j.id := UpdatedRow(db.jobs[j.id], j, now)]))
  }

  predicate HoldsClaim(db: Database, id: string, worker: string, claimedAt: int)
  {
    && id in db.jobs && db.jobs[id].claimedBy == worker && db.jobs[id].claimedAt == Some(claimedAt)
    && Active(db.jobs[id].status)
  }

  function Heartbeat(db: Database, id: string, worker: string, claimedAt: int, now: int): Result<Database, FixError>
  {
    if HoldsClaim(db, id, worker, claimedAt) then Ok(db.(jobs := db.jobs[id := db.jobs[id].(heartbeatAt := Some(now))]))
    else Err(JobConflict)
  }

  function Reclaim(db: Database, cutoff: int, now: int): Database
  {
    db.(jobs := Rewritten(db.jobs, StaleBefore(cutoff), Requeue(now)))
  }

  // ---------- updateRemediation, acceptFixRemediation, beginRemediationScan, completeFixCancellation ----------

  predicate UpdatesRemediation(db: Database, r: Remediation)
  {
    && r.id in db.remediations
    && var stored := db.remediations[r.id];
    (stored.state.Open? || (stored.state == r.state && stored.workspacePath == r.workspacePath
                            && stored.branch == r.branch && stored.repoId == r.repoId))
  }

  function UpdateRemediation(db: Database, r: Remediation, now: int): Result<Database, FixError>
  {
    if !UpdatesRemediation(db, r) then Err(FixFrozen)
    else
      var stored := db.remediations[r.id];
      Ok(db.(remediations := db.remediations[r.id := r.(userId := stored.userId, originScanId := stored.originScanId,
                                                        createdAt := stored.createdAt, updatedAt := now)]))
  }

  /** Every check a hand-off passes before it touches the checkout. */
  function AcceptRefusal(db: Database, r: Remediation): Option<FixError>
  {
    if r.repoId !in db.repos || r.id !in db.remediations then Some(NotFound)
    else
      var saved := db.remediations[r.id];
      if saved.repoId != r.repoId || saved.userId != r.userId then Some(OutOfScope)
      else if saved.state.Frozen? && saved.workspacePath == "" then None
      else if saved.state.Discarded? then Some(FixFrozen)
      else if saved.state.Frozen?
              && !exists id :: id in db.jobs && PublishedBy(db.jobs[id], saved, db.repos[r.repoId].github) then
        Some(FixFrozen)
      else if exists id :: id in db.jobs && BlocksHandoff(db.jobs[id], saved) then Some(FixBusy)
      else if AnyScanOccupies(db, saved.repoId, saved.id, saved.workspacePath) then Some(FixBusy)
      else None
  }

  /** cleaned is what the cleanup callback returned: the preserved commit, or nothing on error. */
  function Accept(db: Database, r: Remediation, cleaned: Option<string>, now: int): Result<Database, FixError>
  {
    var refusal := AcceptRefusal(db, r);
    if refusal.Some? then Err(refusal.value)
    else
      var saved := db.remediations[r.id];
      if saved.state.Frozen? && saved.workspacePath == "" then Ok(db)
      else if cleaned.None? || cleaned.value == "" then Err(CleanupFailed)
      else Ok(db.(remediations := db.remediations[saved.id := FrozenRow(saved, cleaned.value, now)],
                  jobs := Rewritten(db.jobs, ReleasedBy(saved), Release(now))))
  }

  function AdmissionRefusal(db: Database, s: Scan): Option<FixError>
  {
    if s.repoId !in db.repos || s.remediationId !in db.remediations then Some(NotFound)
    else
      var rem := db.remediations[s.remediationId];
      if !rem.state.Open? || rem.workspacePath != s.preparedWorkspace then Some(FixFrozen)
      else if rem.repoId != s.repoId || rem.userId != s.userId then Some(OutOfScope)
      else if exists id :: id in db.jobs && OccupiedOn(rem.id)(db.jobs[id]) then Some(FixBusy)
      else None
  }

  predicate NeedsAdmission(s: Scan)
  {
    s.remediationId != "" && s.preparedWorkspace != "" && s.status.Pending?
  }

  function CreateScan(db: Database, s: Scan): Result<Database, FixError>
  {
    if NeedsAdmission(s) && AdmissionRefusal(db, s).Some? then Err(AdmissionRefusal(db, s).value)
    else if s.id in db.scans then Err(DuplicateKey)
    else Ok(db.(scans := db.scans[s.id := s]))
  }

  function CancellationRefusal(db: Database, j: Job): Option<FixError>
  {
    if j.repoId !in db.repos || j.id !in db.jobs then Some(NotFound)
    else
      var saved := db.jobs[j.id];
      if saved.revision != j.revision || saved.repoId != j.repoId || !Cleaning(saved) then Some(JobConflict)
      else if exists id :: id in db.jobs && BlocksCleanup(db.jobs[id], saved) then Some(FixBusy)
      else if AnyScanOccupies(db, saved.repoId, saved.remediationId, saved.workspacePath) then Some(FixBusy)
      else None
  }

  function CompleteCancellation(db: Database, j: Job, cleaned: bool, now: int): Result<Database, FixError>
  {
    var refusal := CancellationRefusal(db, j);
    if refusal.Some? then Err(refusal.value)
    else if !cleaned then Err(CleanupFailed)
    else
      var saved := db.jobs[j.id];
      var r := saved.remediationId;
      var discards := r != "" && r in db.remediations && db.remediations[r].repoId == saved.repoId
        && db.remediations[r].state.Open?;
      var remediations :=
        if discards then
          db.remediations[r := db.remediations[r].(state := Discarded, workspacePath := "", updatedAt := now)]
        else db.remediations;
      Ok(db.(remediations := remediations, jobs := db.jobs[saved.id := CleanedRow(saved, now)]))
  }

  /** The scan queue moves a scan between these states and never leaves a terminal one. */
  predicate ScanMoves(from: ScanStatus, to: ScanStatus)
  {
    from.Pending? || from.ScanRunning? || (from.Completed? && to.ScanFailed?) || from == to
  }

  function MoveScan(db: Database, id: string, to: ScanStatus): Database
  {
    if id in db.scans && ScanMoves(db.scans[id].status, to) then
      db.(scans := db.scans[id := db.scans[id].(status := to)]) else db
  }

  // ---------- Orders the statements sort by ----------

  lemma BeforeIsOrder(a: int, ai: string, b: int, bi: string, c: int, ci: string)
    ensures Before(a, ai, b, bi) ==> !Before(b, bi, a, ai)
    ensures Before(a, ai, b, bi) && Before(b, bi, c, ci) ==> Before(a, ai, c, ci)
    ensures ai != bi ==> Before(a, ai, b, bi) || Before(b, bi, a, ai)
  {
    LessTotal(ai, bi);
    if Less(ai, bi) {
      LessAsymmetric(ai, bi);
      if Less(bi, ci) {
        LessTransitive(ai, bi, ci);
      }
    }
  }

  lemma JobOrder(db: Database, p: Job -> bool)
    requires Valid(db)
    ensures Orders(db.jobs, p, OldestJob())
  {
    forall a, b | a in db.jobs && b in db.jobs
      ensures a != b ==> OldestJob()(db.jobs[a], db.jobs[b]) || OldestJob()(db.jobs[b], db.jobs[a])
      ensures OldestJob()(db.jobs[a], db.jobs[b]) ==> !OldestJob()(db.jobs[b], db.jobs[a])
    {
      var x, y := db.jobs[a], db.jobs[b];
      BeforeIsOrder(x.createdAt, x.id, y.createdAt, y.id, x.createdAt, x.id);
    }
    forall a, b, c | a in db.jobs && b in db.jobs && c in db.jobs
      ensures OldestJob()(db.jobs[a], db.jobs[b]) && OldestJob()(db.jobs[b], db.jobs[c])
        ==> OldestJob()(db.jobs[a], db.jobs[c])
    {
      var x, y, z := db.jobs[a], db.jobs[b], db.jobs[c];
      BeforeIsOrder(x.createdAt, x.id, y.createdAt, y.id, z.createdAt, z.id);
    }
  }

  lemma RemediationOrder(db: Database, p: Remediation -> bool)
    requires Valid(db)
    ensures Orders(db.remediations, p, LatestRemediation())
  {
    forall a, b | a in db.remediations && b in db.remediations
      ensures a != b ==>
        LatestRemediation()(db.remediations[a], db.remediations[b])
          || LatestRemediation()(db.remediations[b], db.remediations[a])
      ensures LatestRemediation()(db.remediations[a], db.remediations[b]) ==>
        !LatestRemediation()(db.remediations[b], db.remediations[a])
    {
      var x, y := db.remediations[a], db.remediations[b];
      BeforeIsOrder(y.createdAt, y.id, x.createdAt, x.id, y.createdAt, y.id);
    }
    forall a, b, c | a in db.remediations && b in db.remediations && c in db.remediations
      ensures LatestRemediation()(db.remediations[a], db.remediations[b])
        && LatestRemediation()(db.remediations[b], db.remediations[c])
        ==> LatestRemediation()(db.remediations[a], db.remediations[c])
    {
      var x, y, z := db.remediations[a], db.remediations[b], db.remediations[c];
      BeforeIsOrder(z.createdAt, z.id, y.createdAt, y.id, x.createdAt, x.id);
    }
  }

  lemma ScanOrder(db: Database, p: Scan -> bool)
    requires Valid(db)
    ensures Orders(db.scans, p, LatestScan())
  {
    forall a, b | a in db.scans && b in db.scans
      ensures a != b ==> LatestScan()(db.scans[a], db.scans[b]) || LatestScan()(db.scans[b], db.scans[a])
      ensures LatestScan()(db.scans[a], db.scans[b]) ==> !LatestScan()(db.scans[b], db.scans[a])
    {
      var x, y := db.scans[a], db.scans[b];
      BeforeIsOrder(y.createdAt, y.id, x.createdAt, x.id, y.createdAt, y.id);
    }
    forall a, b, c | a in db.scans && b in db.scans && c in db.scans
      ensures LatestScan()(db.scans[a], db.scans[b]) && LatestScan()(db.scans[b], db.scans[c])
        ==> LatestScan()(db.scans[a], db.scans[c])
    {
      var x, y, z := db.scans[a], db.scans[b], db.scans[c];
      BeforeIsOrder(z.createdAt, z.id, y.createdAt, y.id, x.createdAt, x.id);
    }
  }
}
