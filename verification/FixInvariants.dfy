/**
 What every reachable state of the fix-job protocol guarantees: active jobs are exclusive, admitted scans
 keep apart from jobs, an origin has one remediation that is not discarded, and a remediation one live job.
 Each step keeps these guarantees, under the rule for workers stated in `Disciplined`.
*/
module FixInvariants {
  import opened Wrappers
  import opened Text
  import opened Tables
  import opened FixModel
  import opened FixProtocol

  // ---------- The guarantees ----------

  /** No two claimed or running jobs share a workspace, a remediation, or a repository and branch. */
  ghost predicate Exclusive(db: Database)
  {
    forall a, b :: a in db.jobs && b in db.jobs && a != b && Active(db.jobs[a].status) && Active(db.jobs[b].status)
      ==> !SharesKey(db.jobs[a], db.jobs[b])
  }

  /** A child scan in a remediation's checkout never meets a queued, claimed or running job on that remediation. */
  ghost predicate ScansApart(db: Database)
  {
    forall s, j :: s in db.scans && j in db.jobs && Admitted(db.scans[s])
      && db.jobs[j].remediationId == db.scans[s].remediationId
      ==> !Busy(db.jobs[j].status)
  }

  /** All remediations of an origin scan but the newest are discarded. */
  ghost predicate OnlyNewestKept(db: Database)
  {
    forall a, b :: a in db.remediations && b in db.remediations && a != b
      && SameOrigin(db.remediations[a], db.remediations[b])
      ==> Succeeds(db.remediations[a], db.remediations[b])
  }

  predicate Succeeds(a: Remediation, b: Remediation)
  {
    a.createdAt != b.createdAt && (a.createdAt < b.createdAt ==> a.state.Discarded?)
  }

  predicate SameOrigin(a: Remediation, b: Remediation)
  {
    a.originScanId == b.originScanId
  }

  ghost predicate OneLiveJob(db: Database)
  {
    forall a, b :: a in db.jobs && b in db.jobs && a != b && db.jobs[a].remediationId != ""
      && db.jobs[a].remediationId == db.jobs[b].remediationId && Live(db.jobs[a].status)
      ==> !Live(db.jobs[b].status)
  }

  /** Jobs and admitted scans stay in the repository of their remediation. */
  ghost predicate Linked(db: Database)
  {
    && (forall j :: j in db.jobs && db.jobs[j].remediationId != ""
          ==> OnRemediation(db, db.jobs[j].remediationId, db.jobs[j].repoId))
    && (forall s :: s in db.scans && Admitted(db.scans[s])
          ==> OnRemediation(db, db.scans[s].remediationId, db.scans[s].repoId))
  }

  predicate OnRemediation(db: Database, remediationId: string, repoId: string)
  {
    remediationId in db.remediations && db.remediations[remediationId].repoId == repoId
  }

  /** Everything but Exclusive. */
  ghost predicate Sessions(db: Database, clock: int)
  {
    Valid(db) && ScansApart(db) && OnlyNewestKept(db) && OneLiveJob(db) && Linked(db) && Dated(db, clock)
  }

  ghost predicate Dated(db: Database, clock: int)
  {
    "" !in db.remediations && forall r :: r in db.remediations ==> db.remediations[r].createdAt <= clock
  }

  ghost predicate Invariant(db: Database, clock: int)
  {
    Exclusive(db) && Sessions(db, clock)
  }

  // ---------- The steps ----------

  datatype Event =
    | Creating(q: Request, all: bool, newRemId: string)
    | Claiming(worker: string)
    | Updating(job: Job)
    | Beating(id: string, worker: string, claimedAt: int)
    | Reclaiming(cutoff: int)
    | UpdatingRemediation(rem: Remediation)
    | Accepting(handed: Remediation, preserved: Option<string>)
    | AddingScan(scan: Scan)
    | MovingScan(scanId: string, to: ScanStatus)
    | Cancelling(cancelled: Job, cleaned: bool)

  /** A refused transaction rolls back. */
  ghost function After(db: Database, e: Event, now: int): Database
  {
    match e
    case Creating(q, all, newRemId) => var r := Create(db, q, all, newRemId, now); if r.Ok? then r.value.db else db
    case Claiming(worker) => ClaimNext(db, worker, now)
    case Updating(job) => Committed(db, Update(db, job, now))
    case Beating(id, worker, claimedAt) => Committed(db, Heartbeat(db, id, worker, claimedAt, now))
    case Reclaiming(cutoff) => Reclaim(db, cutoff, now)
    case UpdatingRemediation(rem) => Committed(db, UpdateRemediation(db, rem, now))
    case Accepting(handed, preserved) => Committed(db, Accept(db, handed, preserved, now))
    case AddingScan(scan) => Committed(db, CreateScan(db, scan))
    case MovingScan(scanId, to) => MoveScan(db, scanId, to)
    case Cancelling(cancelled, cleaned) => Committed(db, CompleteCancellation(db, cancelled, cleaned, now))
  }

  function Committed(db: Database, r: Result<Database, FixError>): Database
  {
    if r.Ok? then r.value else db
  }

  /**
   What the protocol leaves to its callers: fresh ids, an update that keeps the job's
   repository and remediation, and a worker that owns its job and takes no key another
   active job holds.
   */
  ghost predicate Disciplined(db: Database, e: Event)
  {
    match e
    case Creating(q, all, newRemId) => newRemId != "" && newRemId !in db.remediations
    case Updating(j) => j.id in db.jobs ==>
      && j.repoId == db.jobs[j.id].repoId && j.remediationId == db.jobs[j.id].remediationId
      && (Active(j.status) ==> Active(db.jobs[j.id].status) && TakesNoKey(db, j))
    case UpdatingRemediation(r) => r.id in db.remediations ==> r.repoId == db.remediations[r.id].repoId
    case AddingScan(s) => !s.status.ScanRunning?
    case _ => true
  }

  ghost predicate TakesNoKey(db: Database, j: Job)
  {
    forall id :: id in db.jobs && id != j.id && Active(db.jobs[id].status) ==> !SharesKey(j, db.jobs[id])
  }

  // ---------- Changes that disturb nothing ----------

  predicate SameIdentity(before: Job, after: Job)
  {
    && after.id == before.id && after.userId == before.userId && after.idempotencyKey == before.idempotencyKey
    && after.repoId == before.repoId && after.remediationId == before.remediationId
  }

  /** The job keeps its identity and comes alive or busy only where that is safe. */
  ghost predicate Calm(db: Database, before: Job, after: Job)
  {
    && SameIdentity(before, after)
    && (Live(after.status) ==> Live(before.status))
    && (Busy(after.status) && !Busy(before.status) ==> NoScanOn(db, before.remediationId))
  }

  ghost predicate NoScanOn(db: Database, remediationId: string)
  {
    forall s :: s in db.scans && Admitted(db.scans[s]) ==> db.scans[s].remediationId != remediationId
  }

  ghost predicate AllCalm(db: Database, jobs: map<string, Job>)
  {
    jobs.Keys == db.jobs.Keys && forall id :: id in jobs ==> Calm(db, db.jobs[id], jobs[id])
  }

  /** Jobs changed calmly: the session guarantees survive. */
  lemma CalmKeepsSessions(db: Database, jobs: map<string, Job>, clock: int)
    requires Sessions(db, clock)
    requires AllCalm(db, jobs)
    ensures Sessions(db.(jobs := jobs), clock)
  {
    hide Valid, Linked;
    CalmKeepsValid(db, jobs);
    CalmKeepsLinked(db, jobs);
  }

  lemma CalmKeepsValid(db: Database, jobs: map<string, Job>)
    requires Valid(db) && AllCalm(db, jobs)
    ensures Valid(db.(jobs := jobs))
  {
    forall a, b | a in jobs && b in jobs && SameKey(jobs[a], jobs[b])
      ensures a == b
    {
      assert SameKey(db.jobs[a], db.jobs[b]);
    }
  }

  lemma CalmKeepsLinked(db: Database, jobs: map<string, Job>)
    requires Linked(db) && AllCalm(db, jobs)
    ensures Linked(db.(jobs := jobs))
  {
    var after := db.(jobs := jobs);
    forall j | j in jobs && jobs[j].remediationId != ""
      ensures OnRemediation(after, jobs[j].remediationId, jobs[j].repoId)
    {
      assert OnRemediation(db, db.jobs[j].remediationId, db.jobs[j].repoId);
    }
    forall s | s in after.scans && Admitted(after.scans[s])
      ensures OnRemediation(after, after.scans[s].remediationId, after.scans[s].repoId)
    {
      assert OnRemediation(db, db.scans[s].remediationId, db.scans[s].repoId);
    }
  }

  /** Remediations only close: the session guarantees survive. */
  lemma ClosingKeepsSessions(db: Database, rems: map<string, Remediation>, clock: int)
    requires Sessions(db, clock)
    requires AllClose(db, rems)
    ensures Sessions(db.(remediations := rems), clock)
  {
    hide Linked, OnlyNewestKept;
    ClosingKeepsNewest(db, rems);
    LinkedStays(db, db.(remediations := rems));
  }

  lemma ClosingKeepsNewest(db: Database, rems: map<string, Remediation>)
    requires OnlyNewestKept(db) && AllClose(db, rems)
    ensures OnlyNewestKept(db.(remediations := rems))
  {
    forall a, b | a in rems && b in rems && a != b && SameOrigin(rems[a], rems[b])
      ensures Succeeds(rems[a], rems[b])
    {
      assert SameOrigin(db.remediations[a], db.remediations[b]);
      assert Succeeds(db.remediations[a], db.remediations[b]);
    }
  }

  ghost predicate AllClose(db: Database, rems: map<string, Remediation>)
  {
    rems.Keys == db.remediations.Keys && forall id :: id in rems ==> Closes(db.remediations[id], rems[id])
  }

  /** A discarded or frozen remediation never reopens. */
  predicate Closes(before: Remediation, after: Remediation)
  {
    && after.id == before.id && after.repoId == before.repoId
    && after.originScanId == before.originScanId && after.createdAt == before.createdAt
    && (!before.state.Open? ==> after.state == before.state)
  }

  /** No job became active or changed while active. */
  ghost predicate Settled(db: Database, jobs: map<string, Job>)
  {
    jobs.Keys == db.jobs.Keys && forall id :: id in jobs && Active(jobs[id].status) ==>
      SameResources(db.jobs[id], jobs[id])
  }

  predicate SameResources(before: Job, after: Job)
  {
    && Active(before.status) && SameIdentity(before, after)
    && after.workspacePath == before.workspacePath && after.resultBranch == before.resultBranch
    && after.targetBranch == before.targetBranch && after.scanId == before.scanId
  }

  lemma QuietKeeps(db: Database, jobs: map<string, Job>, rems: map<string, Remediation>, clock: int)
    requires Invariant(db, clock) && AllCalm(db, jobs) && Settled(db, jobs) && AllClose(db, rems)
    ensures Invariant(db.(jobs := jobs, remediations := rems), clock)
  {
    CalmKeepsSessions(db, jobs, clock);
    ClosingKeepsSessions(db.(jobs := jobs), rems, clock);
    assert db.(jobs := jobs).(remediations := rems) == db.(jobs := jobs, remediations := rems);
    SettledKeepsExclusive(db, jobs, rems);
  }

  lemma SettledKeepsExclusive(db: Database, jobs: map<string, Job>, rems: map<string, Remediation>)
    requires Exclusive(db) && Settled(db, jobs)
    ensures Exclusive(db.(jobs := jobs, remediations := rems))
  {
    forall a, b | a in jobs && b in jobs && a != b && Active(jobs[a].status) && Active(jobs[b].status)
      ensures !SharesKey(jobs[a], jobs[b])
    {
      assert !SharesKey(db.jobs[a], db.jobs[b]);
    }
  }

  // ---------- Each step keeps the guarantees ----------

  lemma ClaimKeeps(db: Database, worker: string, now: int, clock: int)
    requires Invariant(db, clock)
    ensures Invariant(ClaimNext(db, worker, now), clock)
  {
    hide Exclusive, ScansApart, OnlyNewestKept, OneLiveJob, Linked, Dated, Valid, AllCalm, Claimable, NextJob;
    ClaimPicks(db);
    if NextJob(db).Some? {
      ClaimIsCalm(db, NextJob(db).value, worker, now);
      CalmKeepsSessions(db, ClaimNext(db, worker, now).jobs, clock);
      ClaimKeepsExclusive(db, NextJob(db).value, worker, now);
    }
  }

  lemma ClaimPicks(db: Database)
    requires Valid(db)
    ensures NextJob(db).Some? ==> NextJob(db).value in db.jobs && Claimable(db, db.jobs[NextJob(db).value])
  {
    hide Claimable;
    JobOrder(db, ClaimableIn(db));
    FirstSome(db.jobs, ClaimableIn(db), OldestJob());
  }

  lemma ClaimIsCalm(db: Database, id: string, worker: string, now: int)
    requires Valid(db) && id in db.jobs && Claimable(db, db.jobs[id])
    ensures AllCalm(db, db.jobs[id := ClaimedRow(db.jobs[id], worker, now)])
  {
  }

  lemma ClaimKeepsExclusive(db: Database, id: string, worker: string, now: int)
    requires Exclusive(db) && id in db.jobs && Claimable(db, db.jobs[id])
    ensures Exclusive(db.(jobs := db.jobs[id := ClaimedRow(db.jobs[id], worker, now)]))
  {
    var jobs := db.jobs[id := ClaimedRow(db.jobs[id], worker, now)];
    forall a, b | a in jobs && b in jobs && a != b && Active(jobs[a].status) && Active(jobs[b].status)
      ensures !SharesKey(jobs[a], jobs[b])
    {
      if a == id {
        assert !HoldsKeyOf(db.jobs[b], db.jobs[id]);
      } else if b == id {
        assert !HoldsKeyOf(db.jobs[a], db.jobs[id]);
      } else {
        assert !SharesKey(db.jobs[a], db.jobs[b]);
      }
    }
  }

  lemma UpdateKeeps(db: Database, j: Job, now: int, clock: int)
    requires Invariant(db, clock) && Disciplined(db, Updating(j))
    ensures Invariant(Committed(db, Update(db, j, now)), clock)
  {
    hide Exclusive, ScansApart, OnlyNewestKept, OneLiveJob, Linked, Dated, AllCalm, TakesNoKey, AnyScanOccupies,
        BlocksResume;
    if Update(db, j, now).Ok? {
      if j.status.Queued? {
        ResumeFindsNoScan(db, j, now, clock);
      }
      UpdateIsCalm(db, j, now);
      CalmKeepsSessions(db, Update(db, j, now).value.jobs, clock);
      UpdateKeepsExclusive(db, j, now);
    }
  }

  lemma UpdateIsCalm(db: Database, j: Job, now: int)
    requires Valid(db) && Disciplined(db, Updating(j)) && Updates(db, j)
    requires j.status.Queued? ==> NoScanOn(db, j.remediationId)
    ensures AllCalm(db, db.jobs[j.id := UpdatedRow(db.jobs[j.id], j, now)])
  {
    hide TakesNoKey;
    assert Calm(db, db.jobs[j.id], UpdatedRow(db.jobs[j.id], j, now));
  }

  lemma ResumeFindsNoScan(db: Database, j: Job, now: int, clock: int)
    requires Sessions(db, clock) && Disciplined(db, Updating(j)) && Update(db, j, now).Ok? && j.status.Queued?
    ensures NoScanOn(db, j.remediationId)
  {
    forall s | s in db.scans && Admitted(db.scans[s])
      ensures db.scans[s].remediationId != j.remediationId
    {
      assert OnRemediation(db, db.scans[s].remediationId, db.scans[s].repoId);
      assert j.remediationId != "" ==> OnRemediation(db, db.jobs[j.id].remediationId, db.jobs[j.id].repoId);
      assert !ScanOccupies(db.scans[s], j.repoId, j.remediationId, j.workspacePath);
    }
  }

  /** Exactly when an update is exclusive: an active row takes no key another active job holds. */
  lemma UpdateKeepsExclusive(db: Database, j: Job, now: int)
    requires Valid(db) && Exclusive(db) && Update(db, j, now).Ok?
    ensures Exclusive(Update(db, j, now).value) <==> (Active(j.status) ==> TakesNoKey(db, j))
  {
    var jobs := Update(db, j, now).value.jobs;
    assert jobs == db.jobs[j.id := UpdatedRow(db.jobs[j.id], j, now)];
    if Active(j.status) ==> TakesNoKey(db, j) {
      forall a, b | a in jobs && b in jobs && a != b && Active(jobs[a].status) && Active(jobs[b].status)
        ensures !SharesKey(jobs[a], jobs[b])
      {
        if a == j.id {
          assert !SharesKey(j, db.jobs[b]);
        } else if b == j.id {
          assert !SharesKey(j, db.jobs[a]);
        } else {
          assert !SharesKey(db.jobs[a], db.jobs[b]);
        }
      }
    } else {
      var id :| id in db.jobs && id != j.id && Active(db.jobs[id].status) && SharesKey(j, db.jobs[id]);
      assert SharesKey(jobs[j.id], jobs[id]);
    }
  }

  /** Without the rule an update breaks exclusion: a running job moves into the workspace of another one. */
  lemma UnruledUpdateCollides() returns (db: Database, j: Job)
    ensures Invariant(db, 0) && Update(db, j, 1).Ok? && !Exclusive(Update(db, j, 1).value)
  {
    var a :=
      Job("a", "u", "", "", "r", "", "", [], "x", "", "", "/w", 1, 1, Running, "", "", "", false, "", Unreadable, "",
        None, None, None, 0, 0, 0);
    var b := a.(id := "b", targetBranch := "y", workspacePath := "/v");
    db := Database({}, map[], map[], map[], map["a" := a, "b" := b], map[]);
    j := b.(workspacePath := "/w");
    assert EffectiveBranch(a) == "x" && EffectiveBranch(b) == "y";
    var after := Update(db, j, 1).value;
    assert SharesKey(after.jobs["a"], after.jobs["b"]);
  }

  /** Only these tables changed, and the change disturbs nothing. */
  ghost predicate Quiet(db: Database, after: Database)
  {
    && after == db.(jobs := after.jobs, remediations := after.remediations)
    && AllCalm(db, after.jobs) && Settled(db, after.jobs) && AllClose(db, after.remediations)
  }

  lemma ReclaimIsQuiet(db: Database, cutoff: int, now: int)
    ensures Quiet(db, Reclaim(db, cutoff, now))
  {
  }

  lemma HeartbeatIsQuiet(db: Database, id: string, worker: string, claimedAt: int, now: int)
    ensures Quiet(db, Committed(db, Heartbeat(db, id, worker, claimedAt, now)))
  {
    var after := Committed(db, Heartbeat(db, id, worker, claimedAt, now));
    if after != db {
      assert after.jobs == db.jobs[id := db.jobs[id].(heartbeatAt := Some(now))];
      assert Calm(db, db.jobs[id], after.jobs[id]) && SameResources(db.jobs[id], after.jobs[id]);
      assert forall other :: other in db.jobs && other != id ==> Calm(db, db.jobs[other], after.jobs[other]);
    }
  }

  lemma RemediationUpdateIsQuiet(db: Database, r: Remediation, now: int)
    requires Valid(db) && Disciplined(db, UpdatingRemediation(r))
    ensures Quiet(db, Committed(db, UpdateRemediation(db, r, now)))
  {
  }

  lemma AcceptIsQuiet(db: Database, r: Remediation, cleaned: Option<string>, now: int)
    requires Valid(db)
    ensures Quiet(db, Committed(db, Accept(db, r, cleaned, now)))
  {
    hide Accept;
    AcceptWrites(db, r, cleaned, now);
    if Committed(db, Accept(db, r, cleaned, now)) != db {
      var saved := db.remediations[r.id];
      ReleaseIsCalm(db, saved, now);
      assert Closes(saved, FrozenRow(saved, cleaned.value, now));
    }
  }

  lemma ReleaseIsCalm(db: Database, saved: Remediation, now: int)
    ensures AllCalm(db, Rewritten(db.jobs, ReleasedBy(saved), Release(now)))
    ensures Settled(db, Rewritten(db.jobs, ReleasedBy(saved), Release(now)))
  {
  }

  lemma AcceptWrites(db: Database, r: Remediation, cleaned: Option<string>, now: int)
    requires Valid(db)
    ensures var after := Committed(db, Accept(db, r, cleaned, now));
      after == db || (r.id in db.remediations && cleaned.Some? && !db.remediations[r.id].state.Discarded?
        && after == db.(remediations := db.remediations[r.id := FrozenRow(db.remediations[r.id], cleaned.value, now)],
                        jobs := Rewritten(db.jobs, ReleasedBy(db.remediations[r.id]), Release(now))))
  {
  }

  lemma CancellationIsQuiet(db: Database, j: Job, cleaned: bool, now: int)
    requires Valid(db)
    ensures Quiet(db, Committed(db, CompleteCancellation(db, j, cleaned, now)))
  {
    hide CompleteCancellation, AllClose;
    CancellationWrites(db, j, cleaned, now);
    if Committed(db, CompleteCancellation(db, j, cleaned, now)) != db {
      CleaningIsCalm(db, j.id, now);
    } else {
      AllStay(db);
    }
  }

  lemma CleaningIsCalm(db: Database, id: string, now: int)
    requires id in db.jobs && Cleaning(db.jobs[id])
    ensures AllCalm(db, db.jobs[id := CleanedRow(db.jobs[id], now)])
    ensures Settled(db, db.jobs[id := CleanedRow(db.jobs[id], now)])
  {
  }

  lemma AllStay(db: Database)
    ensures Quiet(db, db)
  {
  }

  lemma CancellationWrites(db: Database, j: Job, cleaned: bool, now: int)
    requires Valid(db)
    ensures var after := Committed(db, CompleteCancellation(db, j, cleaned, now));
      after == db || (j.id in db.jobs && Cleaning(db.jobs[j.id]) && AllClose(db, after.remediations)
        && after == db.(remediations := after.remediations, jobs := db.jobs[j.id := CleanedRow(db.jobs[j.id], now)]))
  {
    hide AnyScanOccupies, BlocksCleanup;
  }

  lemma ScanKeeps(db: Database, s: Scan, clock: int)
    requires Invariant(db, clock) && Disciplined(db, AddingScan(s))
    ensures Invariant(Committed(db, CreateScan(db, s)), clock)
  {
    if CreateScan(db, s).Ok? && Admitted(s) {
      assert NeedsAdmission(s) && OnRemediation(db, s.remediationId, s.repoId);
      forall j | j in db.jobs && db.jobs[j].remediationId == s.remediationId
        ensures !Busy(db.jobs[j].status)
      {
        assert !OccupiedOn(s.remediationId)(db.jobs[j]);
      }
    }
    ScansOnlyKeepSessions(db, Committed(db, CreateScan(db, s)), clock);
  }

  lemma MoveScanKeeps(db: Database, id: string, to: ScanStatus, clock: int)
    requires Invariant(db, clock)
    ensures Invariant(MoveScan(db, id, to), clock)
  {
    hide Invariant;
    if MoveScan(db, id, to) != db {
      MovedScan(db.scans[id], to);
      MoveKeeps(db, id, db.scans[id].(status := to), clock);
    }
  }

  lemma MovedScan(s: Scan, to: ScanStatus)
    requires ScanMoves(s.status, to)
    ensures Admitted(s.(status := to)) ==> StillAdmitted(s, s.(status := to))
  {
  }

  lemma MoveKeeps(db: Database, id: string, s: Scan, clock: int)
    requires Invariant(db, clock) && id in db.scans && s.id == db.scans[id].id
    requires Admitted(s) ==> StillAdmitted(db.scans[id], s)
    ensures Invariant(db.(scans := db.scans[id := s]), clock)
  {
    hide Exclusive, ScansApart, OnlyNewestKept, OneLiveJob, Linked, Dated;
    var after := db.(scans := db.scans[id := s]);
    assert forall other :: other in after.scans && Admitted(after.scans[other]) ==>
      StillAdmitted(db.scans[other], after.scans[other]);
    ScansOnlyKeepSessions(db, after, clock);
  }

  predicate StillAdmitted(before: Scan, after: Scan)
  {
    Admitted(before) && after.remediationId == before.remediationId && after.repoId == before.repoId
  }

  /** Only scans changed, and every scan now in a checkout was there before or was admitted properly. */
  lemma ScansOnlyKeepSessions(db: Database, after: Database, clock: int)
    requires Invariant(db, clock) && after == db.(scans := after.scans)
    requires forall id :: id in after.scans ==> after.scans[id].id == id
    requires forall id :: id in after.scans && Admitted(after.scans[id]) ==>
      || (id in db.scans && StillAdmitted(db.scans[id], after.scans[id]))
      || (OnRemediation(db, after.scans[id].remediationId, after.scans[id].repoId)
          && forall j :: j in db.jobs && db.jobs[j].remediationId == after.scans[id].remediationId ==>
            !Busy(db.jobs[j].status))
    ensures Invariant(after, clock)
  {
    assert Linked(after) by {
      forall j | j in after.jobs && after.jobs[j].remediationId != ""
        ensures OnRemediation(after, after.jobs[j].remediationId, after.jobs[j].repoId)
      {
        assert OnRemediation(db, db.jobs[j].remediationId, db.jobs[j].repoId);
      }
      forall s | s in after.scans && Admitted(after.scans[s])
        ensures OnRemediation(after, after.scans[s].remediationId, after.scans[s].repoId)
      {
        if s in db.scans && Admitted(db.scans[s]) {
          assert OnRemediation(db, db.scans[s].remediationId, db.scans[s].repoId);
        }
      }
    }
  }

  // ---------- Creation ----------

  /** The remediation a submission joins is open, idle and the newest of its origin. */
  ghost predicate Joins(db: Database, q: Request, rem: Remediation)
  {
    && rem.id in db.remediations && db.remediations[rem.id] == rem
    && !AnyScanOccupies(db, q.repoId, rem.id, rem.workspacePath)
    && forall id :: id in db.jobs ==> !BusyOn(rem.id)(db.jobs[id])
  }

  /** A new remediation follows discarded ones only. */
  ghost predicate Starts(db: Database, rem: Remediation, newRemId: string, now: int)
  {
    && rem.id == newRemId && rem.createdAt == now && rem.state.Open?
    && forall id :: id in db.remediations && SameOrigin(db.remediations[id], rem) ==>
      db.remediations[id].state.Discarded?
  }

  ghost function LatestOf(db: Database, origin: string): Option<string>
  {
    First(db.remediations, OfOrigin(origin), LatestRemediation())
  }

  /** Every remediation of an origin but the latest is discarded. */
  lemma EarlierAreDiscarded(db: Database, origin: string)
    requires Valid(db) && OnlyNewestKept(db)
    ensures LatestOf(db, origin).Some? ==> LatestOf(db, origin).value in db.remediations
    ensures LatestOf(db, origin).Some? ==> db.remediations[LatestOf(db, origin).value].originScanId == origin
    ensures forall id :: id in db.remediations && db.remediations[id].originScanId == origin ==>
              LatestOf(db, origin).Some? && (id == LatestOf(db, origin).value || db.remediations[id].state.Discarded?)
  {
    hide LatestRemediation;
    var p := OfOrigin(origin);
    RemediationOrder(db, p);
    FirstSome(db.remediations, p, LatestRemediation());
    forall id | id in db.remediations && db.remediations[id].originScanId == origin
      ensures LatestOf(db, origin).Some? && (id == LatestOf(db, origin).value || db.remediations[id].state.Discarded?)
    {
      assert p(db.remediations[id]);
      var latest := LatestOf(db, origin).value;
      if id != latest {
        LatestSucceeds(db, latest, id);
      }
    }
  }

  lemma LatestSucceeds(db: Database, latest: string, id: string)
    requires OnlyNewestKept(db) && latest in db.remediations && id in db.remediations && id != latest
    requires SameOrigin(db.remediations[id], db.remediations[latest])
    requires LatestRemediation()(db.remediations[latest], db.remediations[id])
    ensures db.remediations[id].state.Discarded?
  {
    assert Succeeds(db.remediations[id], db.remediations[latest]);
  }

  /** Attaching finds or starts a session of the scan's origin. */
  lemma SessionOf(db: Database, q: Request, all: bool, newRemId: string, now: int)
    requires Attach(db, q, all, newRemId, now).Ok?
    ensures q.scanId in db.scans
    ensures var session, origin :=
      Attach(db, q, all, newRemId, now).value, Or(db.scans[q.scanId].originScanId, db.scans[q.scanId].id);
      && session.Attached?
      && if session.isNew then
           session.rem == NewRemediation(q, newRemId, origin, now)
           && (LatestOf(db, origin).Some? ==> db.remediations[LatestOf(db, origin).value].state.Discarded?)
         else
           LatestOf(db, origin).Some? && session.rem == db.remediations[LatestOf(db, origin).value]
             && !Foreign(session.rem, q)
           && Join(db, q, all, session.rem, origin, session.baseBranch).Ok?
  {
    hide LatestRemediation, AnyScanOccupies, BusyOn, CompletedChild, LatestScan, NewRemediation;
    var latest := LatestOf(db, Or(db.scans[q.scanId].originScanId, db.scans[q.scanId].id));
    if latest.Some? {
      match db.remediations[latest.value].state
      case Frozen =>
      case Open =>
      case Discarded =>
    }
  }

  lemma SessionStarts(db: Database, q: Request, all: bool, newRemId: string, now: int)
    requires Valid(db) && OnlyNewestKept(db) && Attach(db, q, all, newRemId, now).Ok?
    requires Attach(db, q, all, newRemId, now).value.Attached? && Attach(db, q, all, newRemId, now).value.isNew
    ensures var rem := Attach(db, q, all, newRemId, now).value.rem;
      rem.repoId == q.repoId && Starts(db, rem, newRemId, now)
  {
    hide Attach, LatestOf, OnlyNewestKept, Valid;
    SessionOf(db, q, all, newRemId, now);
    EarlierAreDiscarded(db, Or(db.scans[q.scanId].originScanId, db.scans[q.scanId].id));
  }

  lemma SessionJoins(db: Database, q: Request, all: bool, newRemId: string, now: int)
    requires Valid(db) && OnlyNewestKept(db) && Attach(db, q, all, newRemId, now).Ok?
    requires Attach(db, q, all, newRemId, now).value.Attached? && !Attach(db, q, all, newRemId, now).value.isNew
    ensures var rem := Attach(db, q, all, newRemId, now).value.rem;
      rem.repoId == q.repoId && Joins(db, q, rem)
  {
    hide Attach, LatestOf, OnlyNewestKept, AnyScanOccupies, BusyOn;
    SessionOf(db, q, all, newRemId, now);
    EarlierAreDiscarded(db, Or(db.scans[q.scanId].originScanId, db.scans[q.scanId].id));
  }

  /** A session starts after discarded remediations only, or joins one that is open, idle and the newest. */
  lemma SessionFacts(db: Database, q: Request, all: bool, newRemId: string, now: int)
    requires Valid(db) && OnlyNewestKept(db) && Attach(db, q, all, newRemId, now).Ok?
    ensures var session := Attach(db, q, all, newRemId, now).value;
      && session.Attached? && session.rem.repoId == q.repoId
      && if session.isNew then Starts(db, session.rem, newRemId, now) else Joins(db, q, session.rem)
  {
    hide Attach, Starts, Joins, LatestOf, OnlyNewestKept, Valid, Join;
    SessionOf(db, q, all, newRemId, now);
    if Attach(db, q, all, newRemId, now).value.isNew {
      SessionStarts(db, q, all, newRemId, now);
    } else {
      SessionJoins(db, q, all, newRemId, now);
    }
  }

  lemma CreateKeeps(db: Database, q: Request, all: bool, newRemId: string, now: int, clock: int)
    requires Invariant(db, clock) && clock < now && Disciplined(db, Creating(q, all, newRemId))
    ensures Invariant(After(db, Creating(q, all, newRemId), now), now)
  {
    hide Exclusive, ScansApart, OneLiveJob, Linked, Dated, Valid, Create, Attach, Idle;
    LaterClock(db, clock, now);
    if Create(db, q, all, newRemId, now).Err? || Create(db, q, all, newRemId, now).value.replayed {
      ReplayChangesNothing(db, q, all, newRemId, now);
    }
    var r := Create(db, q, all, newRemId, now);
    if r.Ok? && !r.value.replayed {
      var job := r.value.job;
      CreateInserts(db, q, all, newRemId, now);
      if q.scanId == "" {
        InsertKeeps(db, job, now);
      } else {
        SessionFacts(db, q, all, newRemId, now);
        var session := Attach(db, q, all, newRemId, now).value;
        var based := Based(db, session);
        if session.isNew {
          StartKeeps(db, session.rem, newRemId, now, clock);
        }
        IdleRemediation(db, based, q, session, clock);
        assert OnRemediation(based, job.remediationId, job.repoId);
        InsertKeeps(based, job, now);
      }
    }
  }

  lemma LaterClock(db: Database, clock: int, now: int)
    requires Invariant(db, clock) && clock <= now
    ensures Invariant(db, now)
  {
    hide Exclusive, ScansApart, OnlyNewestKept, OneLiveJob, Linked, Valid;
  }

  lemma ReplayChangesNothing(db: Database, q: Request, all: bool, newRemId: string, now: int)
    requires Create(db, q, all, newRemId, now).Ok? ==> Create(db, q, all, newRemId, now).value.replayed
    ensures After(db, Creating(q, all, newRemId), now) == db
  {
    hide Attach, Listed, BaseOf;
  }

  /** The tables after the session was opened and before the job was inserted. */
  ghost function Based(db: Database, session: Session): Database
  {
    if session.Attached? && session.isNew then db.(remediations := db.remediations[session.rem.id := session.rem])
    else db
  }

  /** A submission that is not a replay inserts one queued job of its session and supersedes the paused ones. */
  lemma CreateInserts(db: Database, q: Request, all: bool, newRemId: string, now: int)
    requires Create(db, q, all, newRemId, now).Ok? && !Create(db, q, all, newRemId, now).value.replayed
    ensures q.scanId != "" ==> Attach(db, q, all, newRemId, now).Ok?
    ensures var session := if q.scanId == "" then NoSession else Attach(db, q, all, newRemId, now).value;
      var based, job := Based(db, session), Create(db, q, all, newRemId, now).value.job;
      && Insertable(db, job) && job.id == q.id && job.repoId == q.repoId
      && job.remediationId == (if session.Attached? then session.rem.id else "")
      && Create(db, q, all, newRemId, now).value.db
         == based.(jobs :=
           Rewritten(based.jobs[job.id := job], SupersededBy(job.remediationId, job.id), Supersede(now)))
  {
    hide Attach, Listed, BaseOf;
    NewSubmission(db, q);
  }

  lemma NewSubmission(db: Database, q: Request)
    requires q.idempotencyKey != "" ==> Submission(db, q.userId, q.idempotencyKey).None?
    ensures q.idempotencyKey != "" ==> forall id :: id in db.jobs ==>
      !SameSubmission(q.userId, q.idempotencyKey)(db.jobs[id])
  {
  }

  lemma StartKeeps(db: Database, rem: Remediation, newRemId: string, now: int, clock: int)
    requires Invariant(db, clock) && clock < now && newRemId != "" && newRemId !in db.remediations
    requires Starts(db, rem, newRemId, now)
    ensures Invariant(db.(remediations := db.remediations[rem.id := rem]), now)
  {
    hide OnlyNewestKept, Linked, Starts;
    StartIsNew(db, rem, newRemId, now);
    StartKeepsNewest(db, rem, newRemId, now, clock);
    StartKeepsLinked(db, rem);
  }

  lemma StartIsNew(db: Database, rem: Remediation, newRemId: string, now: int)
    requires Starts(db, rem, newRemId, now)
    ensures rem.id == newRemId && rem.createdAt == now
  {
  }

  lemma StartKeepsNewest(db: Database, rem: Remediation, newRemId: string, now: int, clock: int)
    requires OnlyNewestKept(db) && Dated(db, clock) && clock < now && newRemId !in db.remediations
    requires Starts(db, rem, newRemId, now)
    ensures OnlyNewestKept(db.(remediations := db.remediations[rem.id := rem]))
  {
    var rems := db.remediations[rem.id := rem];
    forall a, b | a in rems && b in rems && a != b && SameOrigin(rems[a], rems[b])
      ensures Succeeds(rems[a], rems[b])
    {
      if b == rem.id {
        assert SameOrigin(db.remediations[a], rem);
      } else if a != rem.id {
        assert SameOrigin(db.remediations[a], db.remediations[b]);
        assert Succeeds(db.remediations[a], db.remediations[b]);
      }
    }
  }

  lemma StartKeepsLinked(db: Database, rem: Remediation)
    requires Linked(db) && rem.id !in db.remediations
    ensures Linked(db.(remediations := db.remediations[rem.id := rem]))
  {
    LinkedStays(db, db.(remediations := db.remediations[rem.id := rem]));
  }

  /** Jobs and scans stay linked while remediations keep their repository. */
  lemma LinkedStays(db: Database, after: Database)
    requires Linked(db) && after.jobs == db.jobs && after.scans == db.scans
    requires forall r :: r in db.remediations ==>
      r in after.remediations && after.remediations[r].repoId == db.remediations[r].repoId
    ensures Linked(after)
  {
    forall j | j in after.jobs && after.jobs[j].remediationId != ""
      ensures OnRemediation(after, after.jobs[j].remediationId, after.jobs[j].repoId)
    {
      assert OnRemediation(db, db.jobs[j].remediationId, db.jobs[j].repoId);
    }
    forall s | s in after.scans && Admitted(after.scans[s])
      ensures OnRemediation(after, after.scans[s].remediationId, after.scans[s].repoId)
    {
      assert OnRemediation(db, db.scans[s].remediationId, db.scans[s].repoId);
    }
  }

  ghost predicate Idle(db: Database, remediationId: string)
  {
    NoScanOn(db, remediationId) && forall id :: id in db.jobs && db.jobs[id].remediationId == remediationId ==>
      !Busy(db.jobs[id].status)
  }

  lemma IdleRemediation(db: Database, based: Database, q: Request, session: Session, clock: int)
    requires Invariant(db, clock) && session.Attached? && session.rem.repoId == q.repoId
    requires if session.isNew then session.rem.id !in db.remediations && session.rem.id != ""
      else Joins(db, q, session.rem)
    requires based.scans == db.scans && based.jobs == db.jobs
    ensures Idle(based, session.rem.id)
  {
    forall s | s in db.scans && Admitted(db.scans[s])
      ensures db.scans[s].remediationId != session.rem.id
    {
      assert OnRemediation(db, db.scans[s].remediationId, db.scans[s].repoId);
      if !session.isNew {
        assert !ScanOccupies(db.scans[s], q.repoId, session.rem.id, session.rem.workspacePath);
      }
    }
    forall id | id in db.jobs && db.jobs[id].remediationId == session.rem.id
      ensures !Busy(db.jobs[id].status)
    {
      assert db.jobs[id].remediationId != "" ==> OnRemediation(db, db.jobs[id].remediationId, db.jobs[id].repoId);
      if !session.isNew {
        assert !BusyOn(session.rem.id)(db.jobs[id]);
      }
    }
  }

  /** Insert a queued job on an idle remediation, superseding the paused jobs on it. */
  lemma InsertKeeps(db: Database, job: Job, now: int)
    requires Invariant(db, now) && Insertable(db, job)
    requires job.remediationId != "" ==> OnRemediation(db, job.remediationId, job.repoId) && Idle(db, job.remediationId)
    ensures Invariant(db.(jobs :=
      Rewritten(db.jobs[job.id := job], SupersededBy(job.remediationId, job.id), Supersede(now))), now)
  {
    var others := Rewritten(db.jobs, SupersededBy(job.remediationId, job.id), Supersede(now));
    var before := db.(jobs := others, remediations := db.remediations);
    SupersedeIsQuiet(db, job.remediationId, job.id, now);
    QuietKeeps(db, others, db.remediations, now);
    SupersedeDeserts(db, before, job, now);
    InsertQueued(before, job, now);
    SupersedeCommutes(db.jobs, job, now);
  }

  /** The new row itself is never superseded, so it may as well be inserted last. */
  lemma SupersedeCommutes(jobs: map<string, Job>, job: Job, now: int)
    requires job.id !in jobs
    ensures Rewritten(jobs[job.id := job], SupersededBy(job.remediationId, job.id), Supersede(now))
         == Rewritten(jobs, SupersededBy(job.remediationId, job.id), Supersede(now))[job.id := job]
  {
  }

  lemma SupersedeDeserts(db: Database, before: Database, job: Job, now: int)
    requires Valid(db) && Insertable(db, job)
    requires before == db.(jobs := Rewritten(db.jobs, SupersededBy(job.remediationId, job.id), Supersede(now)))
    requires job.remediationId != "" ==> Idle(db, job.remediationId)
    requires AllCalm(db, before.jobs)
    ensures Insertable(before, job) && (job.remediationId != "" ==> Deserted(before, job.remediationId))
  {
    assert forall id :: id in before.jobs ==> SameIdentity(db.jobs[id], before.jobs[id]);
    if job.remediationId != "" {
      NoneLiveLeft(db, job, now);
    }
  }

  lemma NoneLiveLeft(db: Database, job: Job, now: int)
    requires job.id !in db.jobs && job.remediationId != ""
    requires forall id :: id in db.jobs && db.jobs[id].remediationId == job.remediationId ==> !Busy(db.jobs[id].status)
    ensures var jobs := Rewritten(db.jobs, SupersededBy(job.remediationId, job.id), Supersede(now));
      forall id :: id in jobs && jobs[id].remediationId == job.remediationId ==>
        (id in db.jobs ==> db.jobs[id].id == id) ==> !Live(jobs[id].status)
  {
  }

  lemma SupersedeIsQuiet(db: Database, remediationId: string, id: string, now: int)
    ensures var others := Rewritten(db.jobs, SupersededBy(remediationId, id), Supersede(now));
      AllCalm(db, others) && Settled(db, others) && AllClose(db, db.remediations)
  {
  }

  ghost predicate Insertable(db: Database, job: Job)
  {
    && job.id !in db.jobs && job.status.Queued?
    && (job.idempotencyKey != "" ==> forall id :: id in db.jobs ==>
      !SameSubmission(job.userId, job.idempotencyKey)(db.jobs[id]))
  }

  ghost predicate Deserted(db: Database, remediationId: string)
  {
    NoScanOn(db, remediationId) && forall id :: id in db.jobs && db.jobs[id].remediationId == remediationId ==>
      !Live(db.jobs[id].status)
  }

  lemma InsertQueued(db: Database, job: Job, now: int)
    requires Invariant(db, now) && Insertable(db, job)
    requires job.remediationId != "" ==>
      OnRemediation(db, job.remediationId, job.repoId) && Deserted(db, job.remediationId)
    ensures Invariant(db.(jobs := db.jobs[job.id := job]), now)
  {
    hide Valid, Linked, Exclusive, OnlyNewestKept;
    InsertKeepsValid(db, job);
    InsertKeepsLinked(db, job);
    InsertKeepsExclusive(db, job);
    NewestIgnoresJobs(db, db.jobs[job.id := job]);
  }

  lemma NewestIgnoresJobs(db: Database, jobs: map<string, Job>)
    requires OnlyNewestKept(db)
    ensures OnlyNewestKept(db.(jobs := jobs))
  {
  }

  lemma InsertKeepsValid(db: Database, job: Job)
    requires Valid(db) && Insertable(db, job)
    ensures Valid(db.(jobs := db.jobs[job.id := job]))
  {
    var jobs := db.jobs[job.id := job];
    forall a, b | a in jobs && b in jobs && SameKey(jobs[a], jobs[b])
      ensures a == b
    {
      if a != job.id && b != job.id {
        assert SameKey(db.jobs[a], db.jobs[b]);
      }
    }
  }

  lemma InsertKeepsLinked(db: Database, job: Job)
    requires Linked(db) && job.id !in db.jobs
    requires job.remediationId != "" ==> OnRemediation(db, job.remediationId, job.repoId)
    ensures Linked(db.(jobs := db.jobs[job.id := job]))
  {
    var after := db.(jobs := db.jobs[job.id := job]);
    forall j | j in after.jobs && after.jobs[j].remediationId != ""
      ensures OnRemediation(after, after.jobs[j].remediationId, after.jobs[j].repoId)
    {
      if j != job.id {
        assert OnRemediation(db, db.jobs[j].remediationId, db.jobs[j].repoId);
      }
    }
    forall s | s in after.scans && Admitted(after.scans[s])
      ensures OnRemediation(after, after.scans[s].remediationId, after.scans[s].repoId)
    {
      assert OnRemediation(db, db.scans[s].remediationId, db.scans[s].repoId);
    }
  }

  lemma InsertKeepsExclusive(db: Database, job: Job)
    requires Exclusive(db) && job.id !in db.jobs && job.status.Queued?
    ensures Exclusive(db.(jobs := db.jobs[job.id := job]))
  {
    var jobs := db.jobs[job.id := job];
    forall a, b | a in jobs && b in jobs && a != b && Active(jobs[a].status) && Active(jobs[b].status)
      ensures !SharesKey(jobs[a], jobs[b])
    {
      assert !SharesKey(db.jobs[a], db.jobs[b]);
    }
  }
}
