/** The fix-job statements in columns: what each one tests and writes. */
module FixStatements {
  import opened Wrappers
  import opened Text
  import opened Tables
  import opened FixModel
  import opened FixProtocol
  import FixStore

  // ---------- The columns the statements test ----------

  /** Claimed, running, or cancelled with the checkout still to be discarded. */
  predicate HoldsCheckout(j: Job)
  {
    j.status == Claimed || j.status == Running || (j.status == Cancelled && j.pauseReason == "cancellation_cleanup")
  }

  predicate Undone(j: Job)
  {
    j.status == Queued || HoldsCheckout(j)
  }

  predicate Waits(j: Job)
  {
    j.status == AwaitingReview || j.status == AwaitingPush || j.status == PushFailed
  }

  function Branch(j: Job): string
  {
    if j.resultBranch != "" then j.resultBranch
    else if j.targetBranch != "" then j.targetBranch
    else "wolf-fix/" + if j.scanId != "" then j.scanId else j.id
  }

  /** The same workspace, the same remediation, or the same branch of one repository. */
  predicate Collide(a: Job, b: Job)
  {
    || a.workspacePath == b.workspacePath != ""
    || a.remediationId == b.remediationId != ""
    || (a.repoId == b.repoId && Branch(a) == Branch(b))
  }

  predicate Scanning(db: Database, repoId: string, remediationId: string, path: string)
  {
    exists s :: s in db.scans && db.scans[s].repoId == repoId
      && (db.scans[s].status == Pending || db.scans[s].status == ScanRunning)
      && ((db.scans[s].remediationId == remediationId != "") || (db.scans[s].preparedWorkspace == path != ""))
  }

  lemma ScanningIs(db: Database, repoId: string, remediationId: string, path: string)
    ensures AnyScanOccupies(db, repoId, remediationId, path) <==> Scanning(db, repoId, remediationId, path)
  {
    if Scanning(db, repoId, remediationId, path) {
      var s :| s in db.scans && db.scans[s].repoId == repoId
        && (db.scans[s].status == Pending || db.scans[s].status == ScanRunning)
        && ((db.scans[s].remediationId == remediationId != "") || (db.scans[s].preparedWorkspace == path != ""));
      assert ScanOccupies(db.scans[s], repoId, remediationId, path);
    }
    if s :| s in db.scans && ScanOccupies(db.scans[s], repoId, remediationId, path) {
      assert db.scans[s].repoId == repoId;
    }
  }

  lemma CollideIs(a: Job, b: Job)
    ensures SharesKey(a, b) <==> Collide(a, b)
  {
  }

  // ---------- Claim ----------

  /** Queued, clashing with no job that holds a checkout, and no scan at work on its remediation or workspace. */
  ghost predicate Free(db: Database, id: string)
  {
    && id in db.jobs && db.jobs[id].status == Queued
    && (forall other :: other in db.jobs && HoldsCheckout(db.jobs[other]) ==> !Collide(db.jobs[id], db.jobs[other]))
    && !Scanning(db, db.jobs[id].repoId, db.jobs[id].remediationId, db.jobs[id].workspacePath)
  }

  predicate Older(a: Job, b: Job)
  {
    a.createdAt < b.createdAt || (a.createdAt == b.createdAt && Less(a.id, b.id))
  }

  lemma FreeIs(db: Database, id: string)
    ensures id in db.jobs && Claimable(db, db.jobs[id]) <==> Free(db, id)
  {
    if id in db.jobs {
      var q := db.jobs[id];
      ScanningIs(db, q.repoId, q.remediationId, q.workspacePath);
      forall other | other in db.jobs
        ensures HoldsKeyOf(db.jobs[other], q) <==> HoldsCheckout(db.jobs[other]) && Collide(q, db.jobs[other])
      {
        CollideIs(q, db.jobs[other]);
      }
    }
  }

  /** The job claimed is the oldest free one, and one is claimed whenever any is free. */
  lemma ClaimedExactly(db: Database, id: string)
    requires Valid(db)
    ensures NextJob(db) == Some(id) <==>
      Free(db, id) && forall other :: Free(db, other) && other != id ==> Older(db.jobs[id], db.jobs[other])
    ensures NextJob(db).None? <==> forall other :: !Free(db, other)
  {
    hide Free, Claimable, Valid, Less;
    JobOrder(db, ClaimableIn(db));
    FirstSome(db.jobs, ClaimableIn(db), OldestJob());
    forall other
      ensures other in db.jobs && ClaimableIn(db)(db.jobs[other]) <==> Free(db, other)
    {
      FreeIs(db, other);
    }
    var next := NextJob(db);
    if next.Some? && Free(db, id)
       && forall other :: Free(db, other) && other != id ==> Older(db.jobs[id], db.jobs[other]) {
      assert Free(db, next.value);
      assert next.value != id ==> OldestJob()(db.jobs[next.value], db.jobs[id]);
      assert next.value == id by {
        BeforeIsOrder(db.jobs[id].createdAt, db.jobs[id].id, db.jobs[next.value].createdAt, db.jobs[next.value].id,
                      db.jobs[id].createdAt, db.jobs[id].id);
      }
    }
  }

  /** A claim writes the claimed row and nothing else. */
  lemma ClaimWrites(db: Database, worker: string, now: int)
    requires Valid(db)
    ensures NextJob(db).None? ==> ClaimNext(db, worker, now) == db
    ensures NextJob(db).Some? ==> NextJob(db).value in db.jobs
    ensures NextJob(db).Some? ==>
      var id, j := NextJob(db).value, db.jobs[NextJob(db).value];
      ClaimNext(db, worker, now) == db.(jobs := db.jobs[id :=
        j.(status := Claimed, claimedBy := worker, claimedAt := Some(now), heartbeatAt := Some(now),
           revision := j.revision + 1, updatedAt := now)])
  {
    hide Claimable, Valid, First, Orders;
    if NextJob(db).Some? {
      JobOrder(db, ClaimableIn(db));
      FirstSome(db.jobs, ClaimableIn(db), OldestJob());
    }
  }

  // ---------- Update, heartbeat, reclaim ----------

  /** Another unfinished job of the repository, or a scan, stands in the way of queueing the job again. */
  ghost predicate Obstructed(db: Database, j: Job)
  {
    || Scanning(db, j.repoId, j.remediationId, j.workspacePath)
    || exists id :: id in db.jobs && db.jobs[id].id != j.id && db.jobs[id].repoId == j.repoId && Undone(db.jobs[id])
         && Collide(j, db.jobs[id])
  }

  /** The stored row is the revision the caller read, and not ended in another status. */
  predicate Writable(db: Database, j: Job)
  {
    && j.id in db.jobs && db.jobs[j.id].revision == j.revision
    && (db.jobs[j.id].status in {Cancelled, Superseded, Succeeded, Failed} ==> db.jobs[j.id].status == j.status)
  }

  lemma UpdateExactly(db: Database, j: Job, now: int)
    ensures Update(db, j, now).Ok? <==> Writable(db, j) && (j.status == Queued ==> !Obstructed(db, j))
    ensures Update(db, j, now).Err? ==>
      Update(db, j, now).error == if j.status == Queued && Obstructed(db, j) then FixBusy else JobConflict
    ensures Update(db, j, now).Ok? ==>
      var stored := db.jobs[j.id];
      Update(db, j, now).value == db.(jobs := db.jobs[j.id :=
        j.(id := stored.id, userId := stored.userId, idempotencyKey := stored.idempotencyKey,
           requestDigest := stored.requestDigest, heartbeatAt := stored.heartbeatAt, createdAt := stored.createdAt,
           revision := j.revision + 1, updatedAt := now)])
  {
    hide Collide, SharesKey;
    ScanningIs(db, j.repoId, j.remediationId, j.workspacePath);
    forall id | id in db.jobs
      ensures SharesKey(j, db.jobs[id]) <==> Collide(j, db.jobs[id])
    {
      CollideIs(j, db.jobs[id]);
    }
  }

  /** Only the worker and claim time that hold an active row move its heartbeat. */
  lemma HeartbeatExactly(db: Database, id: string, worker: string, claimedAt: int, now: int)
    ensures Heartbeat(db, id, worker, claimedAt, now)
      == if id in db.jobs && db.jobs[id].claimedBy == worker && db.jobs[id].claimedAt == Some(claimedAt)
            && (db.jobs[id].status == Claimed || db.jobs[id].status == Running) then
           Ok(db.(jobs := db.jobs[id := db.jobs[id].(heartbeatAt := Some(now))]))
         else Err(JobConflict)
  {
  }

  /** A job is lost when it was never heard of, or last before the cut-off. */
  predicate Lost(j: Job, cutoff: int)
  {
    && (j.status == Claimed || j.status == Running)
    && match j.heartbeatAt
       case None => true
       case Some(at) => at < cutoff
  }

  /** Lost jobs return to the queue, every other row stays as it is. */
  lemma ReclaimExactly(db: Database, cutoff: int, now: int)
    ensures Reclaim(db, cutoff, now) == db.(jobs := map id | id in db.jobs ::
      if Lost(db.jobs[id], cutoff) then
        db.jobs[id].(status := Queued, claimedBy := "", revision := db.jobs[id].revision + 1, updatedAt := now)
      else db.jobs[id])
  {
  }

  // ---------- Remediations ----------

  /** An open remediation takes new values; a closed one is rewritten only with its own. */
  lemma UpdateRemediationExactly(db: Database, r: Remediation, now: int)
    ensures UpdateRemediation(db, r, now)
      == if r.id !in db.remediations then Err(FixFrozen)
         else
           var stored := db.remediations[r.id];
           if stored.state == Open || (r.state == stored.state && r.workspacePath == stored.workspacePath
                                       && r.branch == stored.branch && r.repoId == stored.repoId) then
             Ok(db.(remediations := db.remediations[r.id :=
               Remediation(r.id, stored.userId, r.repoId, stored.originScanId, r.branch, r.workspacePath, r.state,
                           r.publishedSha, r.publishedAt, stored.createdAt, now)]))
           else Err(FixFrozen)
  {
  }

  /** An unfinished job of the repository on the remediation, its branch or its checkout. */
  ghost predicate Worked(db: Database, r: Remediation)
  {
    exists id :: id in db.jobs && db.jobs[id].repoId == r.repoId && Undone(db.jobs[id])
      && (db.jobs[id].remediationId == r.id || db.jobs[id].resultBranch == r.branch
          || db.jobs[id].targetBranch == r.branch || db.jobs[id].workspacePath == r.workspacePath != "")
  }

  /** Some succeeded job pushed the frozen commit and, on GitHub, its pull request stands. */
  ghost predicate Published(db: Database, r: Remediation)
    requires r.repoId in db.repos
  {
    exists id :: id in db.jobs
      && db.jobs[id].repoId == r.repoId && db.jobs[id].userId == r.userId && db.jobs[id].remediationId == r.id
      && db.jobs[id].status == Succeeded && db.jobs[id].pushed && db.jobs[id].pushSha == r.publishedSha != ""
      && db.jobs[id].workspacePath == r.workspacePath
      && (db.repos[r.repoId].github ==>
            db.jobs[id].publication.Publication? && TrimSpace(db.jobs[id].publication.prUrl) != ""
            && db.jobs[id].publication.publicationError == "")
  }

  lemma WorkedIs(db: Database, r: Remediation)
    ensures Worked(db, r) <==> exists id :: id in db.jobs && BlocksHandoff(db.jobs[id], r)
  {
  }

  lemma PublishedIs(db: Database, r: Remediation)
    requires r.repoId in db.repos
    ensures Published(db, r) <==>
      exists id :: id in db.jobs && PublishedBy(db.jobs[id], r, db.repos[r.repoId].github)
  {
    hide TrimSpace;
  }

  /** When a hand-off is answered how, its checks in order. */
  lemma AcceptAnswers(db: Database, r: Remediation, cleaned: Option<string>, now: int)
    ensures r.repoId !in db.repos || r.id !in db.remediations ==> Accept(db, r, cleaned, now) == Err(NotFound)
    ensures r.repoId in db.repos && r.id in db.remediations ==>
      var saved, answer := db.remediations[r.id], Accept(db, r, cleaned, now);
      if saved.repoId != r.repoId || saved.userId != r.userId then answer == Err(OutOfScope)
      else if saved.state == Frozen && saved.workspacePath == "" then answer == Ok(db)
      else if saved.state == Discarded || (saved.state == Frozen && !Published(db, saved)) then answer == Err(FixFrozen)
      else if Worked(db, saved) || Scanning(db, saved.repoId, saved.id, saved.workspacePath) then answer == Err(FixBusy)
      else if cleaned == None || cleaned == Some("") then answer == Err(CleanupFailed)
      else answer.Ok?
  {
    hide Worked, Published, Scanning, AnyScanOccupies, BlocksHandoff, PublishedBy;
    if r.repoId in db.repos && r.id in db.remediations {
      var saved := db.remediations[r.id];
      WorkedIs(db, saved);
      ScanningIs(db, saved.repoId, saved.id, saved.workspacePath);
      if saved.repoId == r.repoId {
        PublishedIs(db, saved);
      }
    }
  }

  function FrozenNow(saved: Remediation, sha: string, now: int): Remediation
  {
    saved.(state := Frozen, workspacePath := "", publishedSha := sha, updatedAt := now,
           publishedAt := match (saved.state, saved.publishedAt)
                          case (Frozen, Some(at)) => Some(at)
                          case _ => Some(now))
  }

  /** Jobs waiting on the remediation, and succeeded ones in its checkout, end without one. */
  function ReleasedNow(saved: Remediation, j: Job, now: int): Job
  {
    if j.remediationId == saved.id
       && (Waits(j) || (j.status == Succeeded && j.workspacePath == saved.workspacePath)) then
      j.(status := Succeeded, workspacePath := "", pauseReason := "", resumeAction := "", jobError := "",
         finishedAt := match j.finishedAt case None => Some(now) case Some(at) => Some(at),
         revision := j.revision + 1, updatedAt := now)
    else j
  }

  lemma FrozenNowIs(saved: Remediation, sha: string, now: int)
    ensures FrozenRow(saved, sha, now) == FrozenNow(saved, sha, now)
  {
  }

  lemma ReleasedNowIs(saved: Remediation, j: Job, now: int)
    ensures (if ReleasedBy(saved)(j) then Release(now)(j) else j) == ReleasedNow(saved, j, now)
  {
  }

  /** What an effective hand-off writes: the frozen remediation, and its waiting and published jobs released. */
  lemma AcceptWrites(db: Database, r: Remediation, cleaned: Option<string>, now: int)
    requires Accept(db, r, cleaned, now).Ok? && r.id in db.remediations
    requires db.remediations[r.id].state != Frozen || db.remediations[r.id].workspacePath != ""
    ensures cleaned.Some?
    ensures var saved := db.remediations[r.id];
      Accept(db, r, cleaned, now).value
      == db.(remediations := db.remediations[saved.id := FrozenNow(saved, cleaned.value, now)],
             jobs := map id | id in db.jobs :: ReleasedNow(saved, db.jobs[id], now))
  {
    hide AcceptRefusal, FrozenRow, FrozenNow, ReleasedBy, Release, ReleasedNow;
    var saved := db.remediations[r.id];
    FrozenNowIs(saved, cleaned.value, now);
    forall id | id in db.jobs
      ensures (if ReleasedBy(saved)(db.jobs[id]) then Release(now)(db.jobs[id]) else db.jobs[id])
        == ReleasedNow(saved, db.jobs[id], now)
    {
      ReleasedNowIs(saved, db.jobs[id], now);
    }
  }

  /** A scan enters a remediation's checkout only while it is open, its own, and no job of it is unfinished. */
  lemma CreateScanAnswers(db: Database, s: Scan)
    ensures CreateScan(db, s)
      == if s.remediationId != "" && s.preparedWorkspace != "" && s.status == Pending && Admission(db, s).Some? then
           Err(Admission(db, s).value)
         else if s.id in db.scans then Err(DuplicateKey)
         else Ok(db.(scans := db.scans[s.id := s]))
  {
    hide Undone;
    AdmissionIs(db, s);
  }

  ghost function Admission(db: Database, s: Scan): Option<FixError>
  {
    if s.repoId !in db.repos || s.remediationId !in db.remediations then Some(NotFound)
    else
      var rem := db.remediations[s.remediationId];
      if rem.state != Open || rem.workspacePath != s.preparedWorkspace then Some(FixFrozen)
      else if rem.repoId != s.repoId || rem.userId != s.userId then Some(OutOfScope)
      else if exists id :: id in db.jobs && db.jobs[id].remediationId == rem.id && Undone(db.jobs[id]) then
        Some(FixBusy)
      else None
  }

  lemma AdmissionIs(db: Database, s: Scan)
    ensures AdmissionRefusal(db, s) == Admission(db, s)
  {
    if s.remediationId in db.remediations {
      var rem := db.remediations[s.remediationId];
      forall id | id in db.jobs
        ensures OccupiedOn(rem.id)(db.jobs[id]) <==> db.jobs[id].remediationId == rem.id && Undone(db.jobs[id])
      {
      }
    }
  }

  // ---------- Cancellation ----------

  /** Another live job of the repository on the remediation, the branch or the checkout of the cancelled one. */
  ghost predicate Shared(db: Database, saved: Job)
  {
    exists id :: id in db.jobs && db.jobs[id].id != saved.id && db.jobs[id].repoId == saved.repoId
      && db.jobs[id].status !in {Succeeded, Failed, Cancelled, Superseded}
      && (db.jobs[id].remediationId == saved.remediationId != ""
          || db.jobs[id].workspacePath == saved.workspacePath != ""
          || (saved.resultBranch != "" && saved.resultBranch in {db.jobs[id].resultBranch, db.jobs[id].targetBranch})
          || (saved.resultBranch == "" && saved.targetBranch != ""
              && saved.targetBranch in {db.jobs[id].resultBranch, db.jobs[id].targetBranch}))
  }

  lemma SharedIs(db: Database, saved: Job)
    ensures Shared(db, saved) <==> exists id :: id in db.jobs && BlocksCleanup(db.jobs[id], saved)
  {
    forall id | id in db.jobs
      ensures Live(db.jobs[id].status) <==> db.jobs[id].status !in {Succeeded, Failed, Cancelled, Superseded}
    {
      LiveStatus(db.jobs[id].status);
    }
    if Shared(db, saved) {
      var id :| id in db.jobs && db.jobs[id].id != saved.id && db.jobs[id].repoId == saved.repoId
        && db.jobs[id].status !in {Succeeded, Failed, Cancelled, Superseded}
        && (db.jobs[id].remediationId == saved.remediationId != ""
            || db.jobs[id].workspacePath == saved.workspacePath != ""
            || (saved.resultBranch != "" && saved.resultBranch in {db.jobs[id].resultBranch, db.jobs[id].targetBranch})
            || (saved.resultBranch == "" && saved.targetBranch != ""
                && saved.targetBranch in {db.jobs[id].resultBranch, db.jobs[id].targetBranch}));
      assert BlocksCleanup(db.jobs[id], saved);
    }
  }

  /** Live is every status a job can still leave. */
  lemma LiveStatus(s: JobStatus)
    ensures Live(s) <==> s !in {Succeeded, Failed, Cancelled, Superseded}
    ensures Terminal(s) <==> !Live(s)
  {
    match s
    case Queued =>
    case Claimed =>
    case Running =>
    case AwaitingReview =>
    case AwaitingPush =>
    case PushFailed =>
    case Succeeded =>
    case Failed =>
    case Cancelled =>
    case Superseded =>
  }

  lemma CancellationAnswers(db: Database, j: Job, cleaned: bool, now: int)
    ensures j.repoId !in db.repos || j.id !in db.jobs ==> CompleteCancellation(db, j, cleaned, now) == Err(NotFound)
    ensures j.repoId in db.repos && j.id in db.jobs ==>
      var saved, answer := db.jobs[j.id], CompleteCancellation(db, j, cleaned, now);
      if saved.revision != j.revision || saved.repoId != j.repoId || saved.status != Cancelled
         || saved.pauseReason != "cancellation_cleanup" then answer == Err(JobConflict)
      else if Shared(db, saved) || Scanning(db, saved.repoId, saved.remediationId, saved.workspacePath) then
        answer == Err(FixBusy)
      else if !cleaned then answer == Err(CleanupFailed)
      else answer.Ok?
  {
    hide Shared, Scanning, AnyScanOccupies, BlocksCleanup;
    if j.id in db.jobs {
      var saved := db.jobs[j.id];
      SharedIs(db, saved);
      ScanningIs(db, saved.repoId, saved.remediationId, saved.workspacePath);
    }
  }

  /** What an acknowledged cleanup writes: the job gives up its checkout, its open remediation is discarded. */
  lemma CancellationWrites(db: Database, j: Job, cleaned: bool, now: int)
    requires Valid(db) && CompleteCancellation(db, j, cleaned, now).Ok?
    ensures j.id in db.jobs
    ensures var saved, after := db.jobs[j.id], CompleteCancellation(db, j, cleaned, now).value;
      && after == db.(jobs := after.jobs, remediations := after.remediations)
      && after.jobs == db.jobs[j.id :=
           saved.(workspacePath := "", resultBranch := "", claimedBy := "", pauseReason := "", resumeAction := "",
                  jobError := "", revision := saved.revision + 1, updatedAt := now)]
      && after.remediations.Keys == db.remediations.Keys
      && forall r :: r in db.remediations ==>
           after.remediations[r] ==
             if r == saved.remediationId != "" && db.remediations[r].repoId == saved.repoId
                && db.remediations[r].state == Open then
               db.remediations[r].(state := Discarded, workspacePath := "", updatedAt := now)
             else db.remediations[r]
  {
    hide BlocksCleanup, AnyScanOccupies;
  }

  // ---------- Creation ----------

  predicate MayRead(s: Scan, q: Request)
  {
    s.repoId == q.repoId && (s.userId == "" || s.userId == q.userId)
  }

  /** An earlier submission of the same user under the same key. */
  predicate Repeats(j: Job, q: Request)
  {
    j.userId == q.userId && j.idempotencyKey == q.idempotencyKey != ""
  }

  ghost predicate Malformed(q: Request)
  {
    q.userId == "" || q.repoId == "" || |q.idempotencyKey| > 255 || (q.idempotencyKey != "" && q.requestDigest == "")
  }

  /** How a submission is answered before its session is looked for, its checks in order. */
  lemma CreateAnswers(db: Database, q: Request, all: bool, newRemId: string, now: int)
    ensures var answer := Create(db, q, all, newRemId, now);
      if Malformed(q) then answer == Err(OutOfScope)
      else if q.userId !in db.users then answer == Err(NotFound)
      else if exists id :: id in db.jobs && Repeats(db.jobs[id], q) then
        exists id :: id in db.jobs && Repeats(db.jobs[id], q)
          && answer == if db.jobs[id].requestDigest == q.requestDigest then Ok(Created(db, db.jobs[id], true))
                       else Err(IdempotencyConflict)
      else if q.repoId !in db.repos
              || (db.repos[q.repoId].userId != "" && db.repos[q.repoId].userId != q.userId) then
        answer == Err(OutOfScope)
      else if exists id :: id in db.jobs && db.jobs[id].repoId == q.repoId && db.jobs[id].status == Cancelled
                           && db.jobs[id].pauseReason == "cancellation_cleanup" then
        answer == Err(FixBusy)
      else if q.scanId == "" then answer == Enqueue(db, q, all, db.repos[q.repoId], NoSession, now)
      else if Attach(db, q, all, newRemId, now).Err? then answer == Err(Attach(db, q, all, newRemId, now).error)
      else answer == Enqueue(db, q, all, db.repos[q.repoId], Attach(db, q, all, newRemId, now).value, now)
  {
    hide Attach, Enqueue;
    forall id | id in db.jobs
      ensures q.idempotencyKey != "" ==>
        (SameSubmission(q.userId, q.idempotencyKey)(db.jobs[id]) <==> Repeats(db.jobs[id], q))
      ensures CleaningIn(q.repoId)(db.jobs[id]) <==>
        db.jobs[id].repoId == q.repoId && db.jobs[id].status == Cancelled
        && db.jobs[id].pauseReason == "cancellation_cleanup"
    {
    }
  }

  /** The remediation of the origin created last, the larger id on a tie. */
  ghost predicate Newest(db: Database, origin: string, id: string)
  {
    && id in db.remediations && db.remediations[id].originScanId == origin
    && forall other :: other in db.remediations && other != id && db.remediations[other].originScanId == origin ==>
         || db.remediations[other].createdAt < db.remediations[id].createdAt
         || (db.remediations[other].createdAt == db.remediations[id].createdAt
             && Less(db.remediations[other].id, db.remediations[id].id))
  }

  lemma NewestIs(db: Database, origin: string)
    requires Valid(db)
    ensures var latest := First(db.remediations, OfOrigin(origin), LatestRemediation());
      && (latest.Some? ==> Newest(db, origin, latest.value))
      && (latest.None? ==> forall id :: id in db.remediations ==> db.remediations[id].originScanId != origin)
  {
    hide Valid, Less;
    RemediationOrder(db, OfOrigin(origin));
    FirstSome(db.remediations, OfOrigin(origin), LatestRemediation());
    var latest := First(db.remediations, OfOrigin(origin), LatestRemediation());
    forall id | id in db.remediations
      ensures OfOrigin(origin)(db.remediations[id]) <==> db.remediations[id].originScanId == origin
    {
    }
    if latest.Some? {
      forall other | other in db.remediations && other != latest.value && db.remediations[other].originScanId == origin
        ensures LatestRemediation()(db.remediations[latest.value], db.remediations[other])
      {
      }
    }
  }

  /** The completed scan of the user that came out of the origin last. */
  ghost predicate NewestChild(db: Database, q: Request, origin: string, id: string)
  {
    && id in db.scans && IsChild(db.scans[id], q, origin)
    && forall other :: other in db.scans && other != id && IsChild(db.scans[other], q, origin) ==>
         || db.scans[other].createdAt < db.scans[id].createdAt
         || (db.scans[other].createdAt == db.scans[id].createdAt && Less(db.scans[other].id, db.scans[id].id))
  }

  predicate IsChild(s: Scan, q: Request, origin: string)
  {
    s.originScanId == origin && s.repoId == q.repoId && s.userId == q.userId && s.status == Completed
  }

  lemma NewestChildIs(db: Database, q: Request, origin: string)
    requires Valid(db)
    ensures var child := First(db.scans, CompletedChild(origin, q.repoId, q.userId), LatestScan());
      && (child.Some? ==> NewestChild(db, q, origin, child.value))
      && (child.None? ==> forall id :: id in db.scans ==> !IsChild(db.scans[id], q, origin))
  {
    hide Valid, Less;
    var p := CompletedChild(origin, q.repoId, q.userId);
    ScanOrder(db, p);
    FirstSome(db.scans, p, LatestScan());
    var child := First(db.scans, p, LatestScan());
    forall id | id in db.scans
      ensures p(db.scans[id]) <==> IsChild(db.scans[id], q, origin)
    {
    }
    if child.Some? {
      forall other | other in db.scans && other != child.value && IsChild(db.scans[other], q, origin)
        ensures LatestScan()(db.scans[child.value], db.scans[other])
      {
      }
    }
  }

  /** The scan came from the previous run of the same plan, which is done or waits to be pushed. */
  ghost predicate Continues(db: Database, scan: Scan, q: Request)
  {
    && scan.status == Completed && scan.fixJobId in db.jobs
    && var j := db.jobs[scan.fixJobId];
    && j.repoId == q.repoId && j.userId == q.userId && j.status in {AwaitingPush, Succeeded}
    && q.runIndex == j.runIndex + 1 && q.runIndex <= q.plannedRuns == j.plannedRuns
  }

  /** A session that begins with this submission. */
  function NewSession(q: Request, id: string, origin: string, base: string, now: int): Session
  {
    Attached(Remediation(id, q.userId, q.repoId, origin,
                         if q.targetBranch != "" then q.targetBranch else "wolf-fix/" + TrimSpace(origin),
                         "", Open, "", None, now, now),
             true, q.scanId, base)
  }

  /** How attaching to the scan's origin is answered. */
  lemma AttachAnswers(db: Database, q: Request, all: bool, newRemId: string, now: int)
    requires Valid(db)
    ensures var answer := Attach(db, q, all, newRemId, now);
      if q.scanId !in db.scans || !MayRead(db.scans[q.scanId], q) then answer == Err(OutOfScope)
      else
        var scan := db.scans[q.scanId];
        var origin := if scan.originScanId != "" then scan.originScanId else q.scanId;
        if q.runIndex > 1 && !Continues(db, scan, q) then answer == Err(JobConflict)
        else if origin !in db.scans || !MayRead(db.scans[origin], q) then answer == Err(OutOfScope)
        else if forall id :: id in db.remediations ==> db.remediations[id].originScanId != origin then
          answer == Ok(NewSession(q, newRemId, origin, db.scans[origin].branch, now))
        else exists id ::
          Newest(db, origin, id) && AnswersFor(db, q, all, newRemId, now, origin, db.remediations[id], answer)
  {
    hide Valid, TrimSpace, Join, First;
    if q.scanId in db.scans {
      ScanIdIs(db, q.scanId);
      var scan := db.scans[q.scanId];
      var origin := if scan.originScanId != "" then scan.originScanId else q.scanId;
      NewestIs(db, origin);
      var latest := First(db.remediations, OfOrigin(origin), LatestRemediation());
      if latest.Some? && MayRead(scan, q) && (q.runIndex > 1 ==> Continues(db, scan, q))
         && origin in db.scans && MayRead(db.scans[origin], q) {
        AttachAnswersFor(db, q, all, newRemId, now, origin, latest.value);
      }
    }
  }

  lemma ScanIdIs(db: Database, id: string)
    requires Valid(db) && id in db.scans
    ensures db.scans[id].id == id
  {
  }

  /** How the newest remediation of the origin decides. */
  ghost predicate AnswersFor(db: Database, q: Request, all: bool, newRemId: string, now: int, origin: string,
      rem: Remediation, answer: Result<Session, FixError>)
    requires origin in db.scans
  {
    var base := db.scans[origin].branch;
    if rem.repoId != q.repoId || (rem.userId != "" && rem.userId != q.userId) then answer == Err(OutOfScope)
    else match rem.state
      case Frozen => answer == Err(FixFrozen)
      case Discarded => answer == Ok(NewSession(q, newRemId, origin, base, now))
      case Open =>
        if Scanning(db, q.repoId, rem.id, rem.workspacePath)
           || exists j :: j in db.jobs && db.jobs[j].remediationId == rem.id
                          && db.jobs[j].status in {Queued, Claimed, Running} then answer == Err(FixBusy)
        else if q.targetBranch != "" && q.targetBranch != rem.branch then answer == Err(BranchConflict)
        else if all && q.scanId == origin && exists s :: s in db.scans && IsChild(db.scans[s], q, origin) then
          exists s :: NewestChild(db, q, origin, s) && answer == Ok(Attached(rem, false, s, base))
        else answer == Ok(Attached(rem, false, q.scanId, base))
  }

  lemma AttachAnswersFor(db: Database, q: Request, all: bool, newRemId: string, now: int, origin: string, id: string)
    requires Valid(db) && q.scanId in db.scans && origin in db.scans && MayRead(db.scans[q.scanId], q)
    requires origin == Or(db.scans[q.scanId].originScanId, db.scans[q.scanId].id) && MayRead(db.scans[origin], q)
    requires q.runIndex > 1 ==> Continues(db, db.scans[q.scanId], q)
    requires First(db.remediations, OfOrigin(origin), LatestRemediation()) == Some(id) && id in db.remediations
    ensures AnswersFor(db, q, all, newRemId, now, origin, db.remediations[id], Attach(db, q, all, newRemId, now))
  {
    hide Valid, TrimSpace, AnyScanOccupies, Scanning, First;
    var rem := db.remediations[id];
    ScanningIs(db, q.repoId, rem.id, rem.workspacePath);
    NewestChildIs(db, q, origin);
    forall j | j in db.jobs
      ensures BusyOn(rem.id)(db.jobs[j]) <==>
        db.jobs[j].remediationId == rem.id && db.jobs[j].status in {Queued, Claimed, Running}
    {
    }
  }

  /** Handed-in findings are known, the submission's own, and of its scan when it names one. */
  ghost predicate Eligible(db: Database, q: Request, id: string)
  {
    && id in db.findings && db.findings[id].scanId in db.scans && MayRead(db.scans[db.findings[id].scanId], q)
    && (q.scanId != "" ==> db.findings[id].scanId == q.scanId)
  }

  function SourceBranch(db: Database, repo: Repo, id: string): string
    requires id in db.findings && db.findings[id].scanId in db.scans
  {
    var branch := db.scans[db.findings[id].scanId].branch;
    if branch != "" then branch else repo.defaultBranch
  }

  ghost predicate AllEligible(db: Database, q: Request)
  {
    && (forall i, j :: 0 <= i < j < |q.findingIds| ==> q.findingIds[i] != q.findingIds[j])
    && forall id :: id in q.findingIds ==> Eligible(db, q, id)
  }

  ghost predicate OneBranch(db: Database, q: Request, repo: Repo)
    requires AllEligible(db, q)
  {
    forall a, b :: a in q.findingIds && b in q.findingIds ==> SourceBranch(db, repo, a) == SourceBranch(db, repo, b)
  }

  lemma {:induction false} DistinctIs(ids: seq<string>)
    ensures |set id | id in ids| == |ids| <==> forall i, j :: 0 <= i < j < |ids| ==> ids[i] != ids[j]
  {
    if ids != [] {
      var rest := ids[1..];
      DistinctIs(rest);
      FixStore.DistinctAtMost(rest);
      assert (set id | id in ids) == (set id | id in rest) + {ids[0]};
      if ids[0] in rest {
        assert (set id | id in ids) == set id | id in rest;
        var k :| 0 <= k < |rest| && rest[k] == ids[0];
        assert ids[k + 1] == ids[0];
      } else {
        assert |set id | id in ids| == |set id | id in rest| + 1;
        assert forall j :: 0 < j < |ids| ==> ids[j] == rest[j - 1];
        assert forall j :: 0 <= j < |rest| ==> rest[j] == ids[j + 1];
      }
    }
  }

  /** Which handed-in findings are accepted, and the branch they give. */
  lemma ScopeAnswers(db: Database, q: Request, repo: Repo, base: string)
    requires q.findingIds != []
    ensures Scope(db, q, repo, base).Ok? <==> AllEligible(db, q) && (q.scanId == "" ==> OneBranch(db, q, repo))
    ensures Scope(db, q, repo, base).Ok? ==> forall id :: id in q.findingIds && Eligible(db, q, id) ==>
      Scope(db, q, repo, base).value == if q.scanId != "" then base else SourceBranch(db, repo, id)
    ensures AllEligible(db, q) && Scope(db, q, repo, base).Err? ==>
      Scope(db, q, repo, base).error == SourceBranchConflict
    ensures Scope(db, q, repo, base).Err? ==>
      Scope(db, q, repo, base).error == OutOfScope
      || (q.scanId == "" && Scope(db, q, repo, base).error == SourceBranchConflict)
  {
    hide FixStore.InScope, Eligible;
    if forall id :: id in q.findingIds ==> Known(db, id) {
      ScopeErrors(db, q, repo, 0, base);
    }
    FixStore.ScopeAcceptedExactly(db, q, repo, base);
    DistinctIs(q.findingIds);
    assert q.findingIds[0] in q.findingIds;
    forall id | id in q.findingIds
      ensures FixStore.InScope(db, q, id) <==> Eligible(db, q, id)
      ensures Eligible(db, q, id) ==> Known(db, id) && FixStore.BranchOf(db, repo, id) == SourceBranch(db, repo, id)
    {
      EligibleIs(db, q, repo, id);
    }
  }

  lemma EligibleIs(db: Database, q: Request, repo: Repo, id: string)
    ensures FixStore.InScope(db, q, id) <==> Eligible(db, q, id)
    ensures Eligible(db, q, id) ==> Known(db, id) && FixStore.BranchOf(db, repo, id) == SourceBranch(db, repo, id)
  {
  }

  predicate AllInScope(db: Database, q: Request)
  {
    forall id :: id in q.findingIds ==> FixStore.InScope(db, q, id)
  }

  lemma {:induction false} ScopeErrors(db: Database, q: Request, repo: Repo, i: nat, base: string)
    requires i <= |q.findingIds| && forall id :: id in q.findingIds ==> Known(db, id)
    ensures ScopeBase(db, q, repo, i, base).Err? ==>
      ScopeBase(db, q, repo, i, base).error == OutOfScope
      || (q.scanId == "" && ScopeBase(db, q, repo, i, base).error == SourceBranchConflict)
    ensures AllInScope(db, q) && ScopeBase(db, q, repo, i, base).Err? ==>
      ScopeBase(db, q, repo, i, base).error == SourceBranchConflict
    decreases |q.findingIds| - i
  {
    hide OwnedScan, Or;
    if i < |q.findingIds| {
      assert Known(db, q.findingIds[i]) && (AllInScope(db, q) ==> FixStore.InScope(db, q, q.findingIds[i]));
      var scan := db.scans[db.findings[q.findingIds[i]].scanId];
      ScopeErrors(db, q, repo, i + 1, if q.scanId != "" then base else Or(scan.branch, repo.defaultBranch));
    }
  }

  /** Every representative of the scan, in ascending order of id. */
  ghost predicate ListsVisible(db: Database, scanId: string, ids: seq<string>)
  {
    && (forall i, j :: 0 <= i < j < |ids| ==> Less(ids[i], ids[j]))
    && forall id :: id in ids <==>
         id in db.findings && db.findings[id].scanId == scanId
         && (db.findings[id].clusterId == "" || db.findings[id].clusterId == db.findings[id].id)
  }

  /** The row a submission inserts. */
  ghost predicate IsNewJob(job: Job, db: Database, q: Request, all: bool, repo: Repo, session: Session, base: string,
      now: int)
  {
    && job == Job(q.id, q.userId, q.idempotencyKey, q.requestDigest, q.repoId, job.scanId, job.remediationId,
                  job.findingIds, job.targetBranch, "", if base != "" then base else repo.defaultBranch,
                  job.workspacePath, if q.plannedRuns > 0 then q.plannedRuns else 1,
                  if q.runIndex > 0 then q.runIndex else 1, Queued, "", "", "", false, "", Unreadable, "", None, None,
                  None, 0, now, now)
    && (session.NoSession? ==>
          && job.scanId == q.scanId && job.remediationId == "" && job.targetBranch == q.targetBranch
          && job.workspacePath == "" && job.findingIds == q.findingIds)
    && (session.Attached? ==>
          && job.scanId == session.scanId && job.remediationId == session.rem.id
          && job.targetBranch == session.rem.branch && job.workspacePath == session.rem.workspacePath
          && if all then ListsVisible(db, session.scanId, job.findingIds) else job.findingIds == q.findingIds)
  }

  /** How a submission with its session is enqueued or refused. */
  lemma EnqueueAnswers(db: Database, q: Request, all: bool, repo: Repo, session: Session, now: int)
    ensures var answer := Enqueue(db, q, all, repo, session, now);
      var given := if session.Attached? then session.baseBranch else q.baseBranch;
      if !all && q.findingIds != [] && Scope(db, q, repo, given).Err? then
        answer == Err(Scope(db, q, repo, given).error)
      else if q.id in db.jobs then answer == Err(DuplicateKey)
      else
        var base := if all || q.findingIds == [] then given else Scope(db, q, repo, given).value;
        && answer.Ok? && !answer.value.replayed && IsNewJob(answer.value.job, db, q, all, repo, session, base, now)
        && EnqueueWrites(db, session, answer.value.job, answer.value.db, now)
  {
    hide Scope, Ascending, EnqueueWrites, Inserted;
    if session.Attached? {
      AscendingIsSorted(set id | id in db.findings && VisibleOf(session.scanId)(db.findings[id]));
    }
    var given := if session.Attached? then session.baseBranch else q.baseBranch;
    var answer := Enqueue(db, q, all, repo, session, now);
    if answer.Ok? {
      InsertWrites(db, session, answer.value.job, now);
    }
  }

  /** The job is inserted, waiting jobs of its remediation are superseded, and a new remediation is recorded. */
  ghost predicate EnqueueWrites(db: Database, session: Session, job: Job, after: Database, now: int)
  {
    && after == db.(jobs := after.jobs, remediations := after.remediations)
    && after.remediations == (if session.Attached? && session.isNew then db.remediations[session.rem.id := session.rem]
                              else db.remediations)
    && after.jobs.Keys == db.jobs.Keys + {job.id} && after.jobs[job.id] == job
    && forall id :: id in db.jobs && id != job.id ==> after.jobs[id] == SupersededNow(job, db.jobs[id], now)
  }

  /** Waiting jobs of the same remediation give way. */
  function SupersededNow(job: Job, j: Job, now: int): Job
  {
    if j.remediationId == job.remediationId != "" && j.id != job.id && Waits(j) then
      j.(status := Superseded, pauseReason := "superseded by a later run on this branch", finishedAt := Some(now),
         revision := j.revision + 1, updatedAt := now)
    else j
  }

  lemma SupersededNowIs(job: Job, j: Job, now: int)
    ensures SupersededNow(job, j, now)
      == if SupersededBy(job.remediationId, job.id)(j) then Supersede(now)(j) else j
    ensures SupersededNow(job, job, now) == job
  {
  }

  lemma InsertWrites(db: Database, session: Session, job: Job, now: int)
    ensures EnqueueWrites(db, session, job, Inserted(db, session, job, now), now)
  {
    hide SupersededNow, SupersededBy, Supersede;
    SupersededNowIs(job, job, now);
    forall id | id in db.jobs
      ensures SupersededNow(job, db.jobs[id], now)
        == if SupersededBy(job.remediationId, job.id)(db.jobs[id]) then Supersede(now)(db.jobs[id]) else db.jobs[id]
    {
      SupersededNowIs(job, db.jobs[id], now);
    }
  }
}
