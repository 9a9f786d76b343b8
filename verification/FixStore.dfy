/**
 The store methods of the fix-job protocol, statement by statement. A transaction works on a copy of the
 tables and commits it, so it takes effect as a whole or not at all; rows are visited in no particular order.
 Each method is proved to be the transaction `FixProtocol` specifies.
*/
module FixStore {
  import opened Wrappers
  import opened Text
  import opened Tables
  import opened FixModel
  import opened FixProtocol

  class PostgresStore {
    var db: Database

    method ClaimNextFixJob(worker: string, now: int) returns (claimed: Option<Job>)
      requires Valid(db)
      modifies this
      ensures db == ClaimNext(old(db), worker, now)
      ensures claimed == if NextJob(old(db)).None? then None
        else Some(ClaimedRow(old(db).jobs[NextJob(old(db)).value], worker, now))
    {
      hide Valid, ClaimableIn, OldestJob, First, Orders;
      JobOrder(db, ClaimableIn(db));
      var id := SelectFirst(db.jobs, ClaimableIn(db), OldestJob());
      if id.None? {
        return None;
      }
      var job := db.jobs[id.value];
      job := job.(status := Claimed, claimedBy := worker, claimedAt := Some(now), heartbeatAt := Some(now),
                  revision := job.revision + 1, updatedAt := now);
      db := db.(jobs := db.jobs[id.value := job]);
      claimed := Some(job);
    }

    method UpdateFixJob(j: Job, now: int) returns (error: Option<FixError>)
      modifies this
      ensures db == if Update(old(db), j, now).Ok? then Update(old(db), j, now).value else old(db)
      ensures error == if Update(old(db), j, now).Ok? then None else Some(Update(old(db), j, now).error)
    {
      if j.status.Queued? {
        var scanning := Exists(db.scans, Occupying(j.repoId, j.remediationId, j.workspacePath));
        if scanning {
          return Some(FixBusy);
        }
        var busy := Exists(db.jobs, (other: Job) => BlocksResume(other, j));
        if busy {
          return Some(FixBusy);
        }
      }
      if !Updates(db, j) {
        return Some(JobConflict);
      }
      db := db.(jobs := db.jobs[j.id := UpdatedRow(db.jobs[j.id], j, now)]);
      error := None;
    }

    method HeartbeatFixJob(id: string, worker: string, claimedAt: int, now: int) returns (error: Option<FixError>)
      modifies this
      ensures db == if Heartbeat(old(db), id, worker, claimedAt, now).Ok? then
        Heartbeat(old(db), id, worker, claimedAt, now).value else old(db)
      ensures error.None? <==> Heartbeat(old(db), id, worker, claimedAt, now).Ok?
    {
      if !HoldsClaim(db, id, worker, claimedAt) {
        return Some(JobConflict);
      }
      db := db.(jobs := db.jobs[id := db.jobs[id].(heartbeatAt := Some(now))]);
      error := None;
    }

    method ReclaimStaleJobs(cutoff: int, now: int) returns (n: nat)
      modifies this
      ensures db == Reclaim(old(db), cutoff, now)
      ensures n == |set id | id in old(db).jobs && Stale(old(db).jobs[id], cutoff)|
    {
      var stale := SelectWhere(db.jobs, StaleBefore(cutoff));
      assert stale == set id | id in db.jobs && Stale(db.jobs[id], cutoff);
      n := |stale|;
      var jobs := UpdateWhere(db.jobs, StaleBefore(cutoff), Requeue(now));
      db := db.(jobs := jobs);
    }

    method UpdateRemediation(r: Remediation, now: int) returns (error: Option<FixError>)
      modifies this
      ensures db == if UpdatesRemediation(old(db), r) then FixProtocol.UpdateRemediation(old(db), r, now).value
        else old(db)
      ensures error == if UpdatesRemediation(old(db), r) then None else Some(FixFrozen)
    {
      if !UpdatesRemediation(db, r) {
        return Some(FixFrozen);
      }
      var stored := db.remediations[r.id];
      db := db.(remediations := db.remediations[r.id := r.(userId := stored.userId, originScanId := stored.originScanId,
                                                          createdAt := stored.createdAt, updatedAt := now)]);
      error := None;
    }

    /** cleaned is what the cleanup callback would return; it runs only after every check. */
    method AcceptFixRemediation(r: Remediation, cleaned: Option<string>, now: int)
      returns (error: Option<FixError>, ran: bool)
      requires Valid(db)
      modifies this
      ensures db == if Accept(old(db), r, cleaned, now).Ok? then Accept(old(db), r, cleaned, now).value else old(db)
      ensures error == if Accept(old(db), r, cleaned, now).Ok? then None
        else Some(Accept(old(db), r, cleaned, now).error)
      ensures error.None? ==> r.id in old(db).remediations
      ensures ran <==>
        || error == Some(CleanupFailed)
        || (error.None? && old(db).remediations[r.id].state != Frozen)
        || (error.None? && old(db).remediations[r.id].workspacePath != "")
    {
      ran := false;
      if r.repoId !in db.repos || r.id !in db.remediations {
        return Some(NotFound), false;
      }
      var repo, saved := db.repos[r.repoId], db.remediations[r.id];
      if saved.repoId != r.repoId || saved.userId != r.userId {
        return Some(OutOfScope), false;
      }
      if saved.state.Frozen? && saved.workspacePath == "" {
        return None, false;
      }
      if saved.state.Frozen? {
        var published := FindPublication(db.jobs, saved, repo.github);
        if !published {
          return Some(FixFrozen), false;
        }
      } else if !saved.state.Open? {
        return Some(FixFrozen), false;
      }
      var busy := Exists(db.jobs, BlockingHandoff(saved));
      if busy {
        return Some(FixBusy), false;
      }
      var scanning := Exists(db.scans, Occupying(saved.repoId, saved.id, saved.workspacePath));
      if scanning {
        return Some(FixBusy), false;
      }
      ran := true;
      if cleaned.None? || cleaned.value == "" {
        return Some(CleanupFailed), true;
      }
      var jobs := UpdateWhere(db.jobs, ReleasedBy(saved), Release(now));
      db := db.(remediations := db.remediations[r.id := FrozenRow(saved, cleaned.value, now)], jobs := jobs);
      error := None;
    }

    /** A durable publication among the succeeded jobs of the frozen branch. */
    static method FindPublication(jobs: map<string, Job>, saved: Remediation, github: bool) returns (published: bool)
      ensures published <==> exists id :: id in jobs && PublishedBy(jobs[id], saved, github)
    {
      var todo := SelectWhere(jobs, (j: Job) => j.remediationId == saved.id && j.status.Succeeded? && j.pushed
                                                && j.pushSha == saved.publishedSha
                                                && j.workspacePath == saved.workspacePath);
      var candidates := todo;
      published := false;
      while todo != {}
        invariant todo <= candidates
        invariant published <==> exists id :: id in candidates && id !in todo && PublishedBy(jobs[id], saved, github)
        decreases todo
      {
        var id :| id in todo;
        var job := jobs[id];
        todo := todo - {id};
        if saved.publishedSha == "" || job.repoId != saved.repoId || job.userId != saved.userId {
          continue;
        }
        if github
          && (job.publication.Unreadable? || TrimSpace(job.publication.prUrl) == ""
            || job.publication.publicationError != "") {
          continue;
        }
        published := true;
      }
      assert forall id :: id in jobs && PublishedBy(jobs[id], saved, github) ==> id in candidates;
    }

    method CreateScan(s: Scan) returns (error: Option<FixError>)
      modifies this
      ensures db == if FixProtocol.CreateScan(old(db), s).Ok? then FixProtocol.CreateScan(old(db), s).value else old(db)
      ensures error == if FixProtocol.CreateScan(old(db), s).Ok? then None
        else Some(FixProtocol.CreateScan(old(db), s).error)
    {
      if s.remediationId != "" && s.preparedWorkspace != "" && s.status.Pending? {
        if s.repoId !in db.repos || s.remediationId !in db.remediations {
          return Some(NotFound);
        }
        var rem := db.remediations[s.remediationId];
        if !rem.state.Open? || rem.workspacePath != s.preparedWorkspace {
          return Some(FixFrozen);
        }
        if rem.repoId != s.repoId || rem.userId != s.userId {
          return Some(OutOfScope);
        }
        var busy := Exists(db.jobs, OccupiedOn(rem.id));
        if busy {
          return Some(FixBusy);
        }
      }
      if s.id in db.scans {
        return Some(DuplicateKey);
      }
      db := db.(scans := db.scans[s.id := s]);
      error := None;
    }

    method CompleteFixCancellation(j: Job, cleaned: bool, now: int) returns (error: Option<FixError>)
      modifies this
      ensures db == if CompleteCancellation(old(db), j, cleaned, now).Ok? then
        CompleteCancellation(old(db), j, cleaned, now).value else old(db)
      ensures error == if CompleteCancellation(old(db), j, cleaned, now).Ok? then None
        else Some(CompleteCancellation(old(db), j, cleaned, now).error)
    {
      if j.repoId !in db.repos || j.id !in db.jobs {
        return Some(NotFound);
      }
      var saved := db.jobs[j.id];
      if saved.revision != j.revision || saved.repoId != j.repoId || !Cleaning(saved) {
        return Some(JobConflict);
      }
      var busy := Exists(db.jobs, BlockingCleanup(saved));
      if busy {
        return Some(FixBusy);
      }
      var scanning := Exists(db.scans, Occupying(saved.repoId, saved.remediationId, saved.workspacePath));
      if scanning {
        return Some(FixBusy);
      }
      if !cleaned {
        return Some(CleanupFailed);
      }
      var r := saved.remediationId;
      var tx := db;
      if r != "" && r in tx.remediations && tx.remediations[r].repoId == saved.repoId
        && tx.remediations[r].state.Open? {
        tx := tx.(remediations :=
          tx.remediations[r := tx.remediations[r].(state := Discarded, workspacePath := "", updatedAt := now)]);
      }
      tx := tx.(jobs := tx.jobs[saved.id := CleanedRow(saved, now)]);
      db := tx;
      error := None;
    }

    method CreateFixJob(q: Request, all: bool, newRemId: string, now: int) returns (r: Result<(Job, bool), FixError>)
      requires Valid(db)
      modifies this
      ensures var spec := Create(old(db), q, all, newRemId, now);
        && db == (if spec.Ok? then spec.value.db else old(db))
        && r == (if spec.Ok? then Ok((spec.value.job, spec.value.replayed)) else Err(spec.error))
    {
      if Malformed(q) {
        return Err(OutOfScope);
      }
      if q.userId !in db.users {
        return Err(NotFound);
      }
      if q.idempotencyKey != "" {
        var earlier := SelectWhere(db.jobs, SameSubmission(q.userId, q.idempotencyKey));
        if earlier != {} {
          var id :| id in earlier;
          assert SameKey(db.jobs[Submission(db, q.userId, q.idempotencyKey).value], db.jobs[id]);
          if db.jobs[id].requestDigest != q.requestDigest {
            return Err(IdempotencyConflict);
          }
          return Ok((db.jobs[id], true));
        }
        assert forall id :: id in db.jobs && SameSubmission(q.userId, q.idempotencyKey)(db.jobs[id]) ==> id in earlier;
      }
      if q.repoId !in db.repos {
        return Err(OutOfScope);
      }
      var repo := db.repos[q.repoId];
      if repo.userId != "" && repo.userId != q.userId {
        return Err(OutOfScope);
      }
      var cancelling := Exists(db.jobs, CleaningIn(q.repoId));
      if cancelling {
        return Err(FixBusy);
      }
      var session := NoSession;
      if q.scanId != "" {
        var attached := AttachSession(q, all, newRemId, now);
        if attached.Err? {
          return Err(attached.error);
        }
        session := attached.value;
      }
      r := EnqueueJob(q, all, repo, session, now);
    }

    method AttachSession(q: Request, all: bool, newRemId: string, now: int) returns (r: Result<Session, FixError>)
      requires Valid(db)
      ensures r == Attach(db, q, all, newRemId, now)
    {
      if q.scanId !in db.scans || !OwnedScan(db.scans[q.scanId], q) {
        return Err(OutOfScope);
      }
      var scan := db.scans[q.scanId];
      if q.runIndex > 1 && !ContinuesRun(db, scan, q) {
        return Err(JobConflict);
      }
      var origin := scan.originScanId;
      if origin == "" {
        origin := scan.id;
      }
      if origin !in db.scans || !OwnedScan(db.scans[origin], q) {
        return Err(OutOfScope);
      }
      RemediationOrder(db, OfOrigin(origin));
      var latest := SelectFirst(db.remediations, OfOrigin(origin), LatestRemediation());
      if latest.Some? {
        var rem := db.remediations[latest.value];
        if Foreign(rem, q) {
          return Err(OutOfScope);
        }
        if rem.state.Frozen? {
          return Err(FixFrozen);
        }
        if rem.state.Open? {
          r := JoinSession(q, all, rem, origin);
          return;
        }
      }
      r := Ok(Attached(NewRemediation(q, newRemId, origin, now), true, q.scanId, db.scans[origin].branch));
    }

    method JoinSession(q: Request, all: bool, rem: Remediation, origin: string) returns (r: Result<Session, FixError>)
      requires Valid(db) && origin in db.scans
      ensures r == Join(db, q, all, rem, origin, db.scans[origin].branch)
    {
      var scanning := Exists(db.scans, Occupying(q.repoId, rem.id, rem.workspacePath));
      if scanning {
        return Err(FixBusy);
      }
      var busy := Exists(db.jobs, BusyOn(rem.id));
      if busy {
        return Err(FixBusy);
      }
      if q.targetBranch != "" && q.targetBranch != rem.branch {
        return Err(BranchConflict);
      }
      var scanId := q.scanId;
      if all && q.scanId == origin {
        ScanOrder(db, CompletedChild(origin, q.repoId, q.userId));
        var child := SelectFirst(db.scans, CompletedChild(origin, q.repoId, q.userId), LatestScan());
        if child.Some? {
          scanId := child.value;
        }
      }
      r := Ok(Attached(rem, false, scanId, db.scans[origin].branch));
    }

    method EnqueueJob(q: Request, all: bool, repo: Repo, session: Session, now: int)
      returns (r: Result<(Job, bool), FixError>)
      modifies this
      ensures var spec := Enqueue(old(db), q, all, repo, session, now);
        && db == (if spec.Ok? then spec.value.db else old(db))
        && r == (if spec.Ok? then Ok((spec.value.job, spec.value.replayed)) else Err(spec.error))
    {
      hide Scope, NewJob, VisibleOf, Ascending, Inserted;
      var listed := q.findingIds;
      if all && session.Attached? {
        var ids := SelectWhere(db.findings, VisibleOf(session.scanId));
        assert ids == set id | id in db.findings && VisibleOf(session.scanId)(db.findings[id]);
        listed := SelectOrdered(ids);
      }
      var base := if session.Attached? then session.baseBranch else q.baseBranch;
      if !all && q.findingIds != [] {
        var scoped := CheckScope(q, repo, base);
        if scoped.Err? {
          return Err(scoped.error);
        }
        base := scoped.value;
      }
      if q.id in db.jobs {
        return Err(DuplicateKey);
      }
      if base == "" {
        base := repo.defaultBranch;
      }
      var job :=
        NewJob(q, ScanOf(q, session), if session.Attached? then Some(session.rem) else None, base, listed, now);
      assert job == JobOf(db, q, all, repo, session, BaseOf(db, q, all, repo, session).value, now);
      InsertJob(session, job, now);
      r := Ok((job, false));
    }

    method InsertJob(session: Session, job: Job, now: int)
      modifies this
      ensures db == Inserted(old(db), session, job, now)
    {
      var tx := db;
      if session.Attached? && session.isNew {
        tx := tx.(remediations := tx.remediations[session.rem.id := session.rem]);
      }
      tx := tx.(jobs := tx.jobs[job.id := job]);
      var jobs := UpdateWhere(tx.jobs, SupersededBy(job.remediationId, job.id), Supersede(now));
      db := tx.(jobs := jobs);
    }

    method CheckScope(q: Request, repo: Repo, given: string) returns (r: Result<string, FixError>)
      ensures r == Scope(db, q, repo, given)
    {
      var rows := set id | id in q.findingIds && Known(db, id);
      assert rows <= set id | id in q.findingIds;
      RowsFound(db, q.findingIds);
      if |rows| != |q.findingIds| {
        return Err(OutOfScope);
      }
      var base := given;
      for i := 0 to |q.findingIds|
        invariant ScopeBase(db, q, repo, 0, given) == ScopeBase(db, q, repo, i, base)
      {
        assert Known(db, q.findingIds[i]);
        var finding := db.findings[q.findingIds[i]];
        var scan := db.scans[finding.scanId];
        if !OwnedScan(scan, q) || (q.scanId != "" && finding.scanId != q.scanId) {
          return Err(OutOfScope);
        }
        if q.scanId == "" {
          var branch := Or(scan.branch, repo.defaultBranch);
          if i == 0 {
            base := branch;
          } else if base != branch {
            return Err(SourceBranchConflict);
          }
        }
      }
      r := Ok(base);
    }
  }

  function BranchOf(db: Database, repo: Repo, id: string): string
    requires Known(db, id)
  {
    Or(db.scans[db.findings[id].scanId].branch, repo.defaultBranch)
  }

  /** The finding belongs to the submission, and to its scan when it names one. */
  predicate InScope(db: Database, q: Request, id: string)
  {
    Known(db, id) && OwnedScan(db.scans[db.findings[id].scanId], q)
      && (q.scanId == "" || db.findings[id].scanId == q.scanId)
  }

  lemma {:induction false} ScopeBaseExactly(db: Database, q: Request, repo: Repo, i: nat, base: string)
    requires i <= |q.findingIds| && forall id :: id in q.findingIds ==> Known(db, id)
    ensures ScopeBase(db, q, repo, i, base).Ok? <==>
            && (forall k :: i <= k < |q.findingIds| ==> InScope(db, q, q.findingIds[k]))
            && (q.scanId == "" ==> forall k :: i <= k < |q.findingIds| && k > 0 ==>
                  BranchOf(db, repo, q.findingIds[k]) == if i == 0 then BranchOf(db, repo, q.findingIds[0]) else base)
    ensures ScopeBase(db, q, repo, i, base).Ok? ==>
              ScopeBase(db, q, repo, i, base).value
              == if q.scanId == "" && i == 0 && q.findingIds != [] then BranchOf(db, repo, q.findingIds[0]) else base
    decreases |q.findingIds| - i
  {
    hide OwnedScan;
    if i < |q.findingIds| {
      assert Known(db, q.findingIds[i]);
      ScopeBaseExactly(db, q, repo, i + 1, if q.scanId == "" then BranchOf(db, repo, q.findingIds[i]) else base);
    }
  }

  /**
   Handed-in findings are accepted exactly when all are distinct, known and in scope and, without a
   scan, agree on a branch. The order of the rows plays no part in that.
  */
  lemma ScopeAcceptedExactly(db: Database, q: Request, repo: Repo, base: string)
    requires q.findingIds != []
    ensures Scope(db, q, repo, base).Ok? <==>
            && |set id | id in q.findingIds| == |q.findingIds|
            && (forall id :: id in q.findingIds ==> InScope(db, q, id))
            && (q.scanId == "" ==> forall a, b :: a in q.findingIds && b in q.findingIds ==>
              BranchOf(db, repo, a) == BranchOf(db, repo, b))
    ensures Scope(db, q, repo, base).Ok? ==>
              forall id :: id in q.findingIds ==>
                Scope(db, q, repo, base).value == if q.scanId == "" then BranchOf(db, repo, id) else base
  {
    hide ScopeBase;
    if forall id :: id in q.findingIds ==> Known(db, id) {
      ScopeBaseExactly(db, q, repo, 0, base);
      assert q.findingIds[0] in q.findingIds;
    }
  }

  /** The statement finds as many rows as there are ids exactly when the ids are distinct and all known. */
  lemma RowsFound(db: Database, ids: seq<string>)
    ensures |set id | id in ids && Known(db, id)| == |ids| <==>
            (forall id :: id in ids ==> Known(db, id)) && |set id | id in ids| == |ids|
  {
    var rows, distinct := set id | id in ids && Known(db, id), set id | id in ids;
    DistinctAtMost(ids);
    if forall id :: id in ids ==> Known(db, id) {
      assert rows == distinct;
    } else {
      var id :| id in ids && !Known(db, id);
      assert rows <= distinct - {id};
      Smaller(rows, distinct - {id});
    }
  }

  lemma Smaller(a: set<string>, b: set<string>)
    requires a <= b
    ensures |a| <= |b|
  {
    assert b == a + (b - a);
  }

  lemma {:induction false} DistinctAtMost(ids: seq<string>)
    ensures |set id | id in ids| <= |ids|
  {
    if ids != [] {
      DistinctAtMost(ids[1..]);
      assert (set id | id in ids) == (set id | id in ids[1..]) + {ids[0]};
    }
  }
}
