/** Whole runs of the fix-job protocol: any interleaving of its transactions. */
module FixRuns {
  import opened Wrappers
  import opened Text
  import opened Tables
  import opened FixModel
  import opened FixProtocol
  import opened FixInvariants

  datatype World = World(db: Database, clock: int)

  ghost predicate Initial(w: World)
  {
    Valid(w.db) && w.db.jobs == map[] && w.db.remediations == map[]
    && forall s :: s in w.db.scans ==> !Admitted(w.db.scans[s])
  }

  /** Each transaction happens at a later time than the one before. */
  ghost predicate Next(w: World, e: Event, w': World)
  {
    w.clock < w'.clock && Disciplined(w.db, e) && w'.db == After(w.db, e, w'.clock)
  }

  ghost predicate Run(ws: seq<World>, es: seq<Event>)
  {
    && |ws| == |es| + 1 && Initial(ws[0])
    && forall i :: 0 <= i < |es| ==> Next(ws[i], es[i], ws[i + 1])
  }

  lemma StepKeeps(db: Database, e: Event, now: int, clock: int)
    requires Invariant(db, clock) && clock < now && Disciplined(db, e)
    ensures Invariant(After(db, e, now), now)
  {
    hide Exclusive, ScansApart, OnlyNewestKept, OneLiveJob, Linked, Dated, Valid, Create, ClaimNext, Update, Heartbeat,
        Reclaim, UpdateRemediation, Accept, CreateScan, MoveScan, CompleteCancellation;
    var after := After(db, e, now);
    match e
    case Creating(q, all, newRemId) => CreateKeeps(db, q, all, newRemId, now, clock);
    case Claiming(worker) => ClaimKeeps(db, worker, now, clock); LaterClock(after, clock, now);
    case Updating(job) => UpdateKeeps(db, job, now, clock); LaterClock(after, clock, now);
    case AddingScan(scan) => ScanKeeps(db, scan, clock); LaterClock(after, clock, now);
    case MovingScan(scanId, to) => MoveScanKeeps(db, scanId, to, clock); LaterClock(after, clock, now);
    case _ =>
      QuietStep(db, e, now);
      QuietKeeps(db, after.jobs, after.remediations, clock);
      LaterClock(after, clock, now);
  }

  lemma QuietStep(db: Database, e: Event, now: int)
    requires Valid(db) && Disciplined(db, e)
    requires e.Beating? || e.Reclaiming? || e.UpdatingRemediation? || e.Accepting? || e.Cancelling?
    ensures Quiet(db, After(db, e, now))
  {
    match e
    case Beating(id, worker, claimedAt) => HeartbeatIsQuiet(db, id, worker, claimedAt, now);
    case Reclaiming(cutoff) => ReclaimIsQuiet(db, cutoff, now);
    case UpdatingRemediation(rem) => RemediationUpdateIsQuiet(db, rem, now);
    case Accepting(handed, preserved) => AcceptIsQuiet(db, handed, preserved, now);
    case Cancelling(cancelled, cleaned) => CancellationIsQuiet(db, cancelled, cleaned, now);
  }

  lemma {:induction false} RunKeeps(ws: seq<World>, es: seq<Event>, i: nat)
    requires Run(ws, es) && i < |ws|
    ensures Invariant(ws[i].db, ws[i].clock)
  {
    hide After;
    if i > 0 {
      RunKeeps(ws, es, i - 1);
      assert Next(ws[i - 1], es[i - 1], ws[i]);
      StepKeeps(ws[i - 1].db, es[i - 1], ws[i].clock, ws[i - 1].clock);
    }
  }

  // ---------- What holds in every state of every run ----------

  lemma AlwaysExclusive(ws: seq<World>, es: seq<Event>, i: nat, a: string, b: string)
    requires Run(ws, es) && i < |ws| && a in ws[i].db.jobs && b in ws[i].db.jobs && a != b
    requires Active(ws[i].db.jobs[a].status) && Active(ws[i].db.jobs[b].status)
    ensures !SharesKey(ws[i].db.jobs[a], ws[i].db.jobs[b])
  {
    hide After;
    RunKeeps(ws, es, i);
  }

  lemma AlwaysScansApart(ws: seq<World>, es: seq<Event>, i: nat, s: string, j: string)
    requires Run(ws, es) && i < |ws| && s in ws[i].db.scans && j in ws[i].db.jobs
    requires Admitted(ws[i].db.scans[s]) && Busy(ws[i].db.jobs[j].status)
    ensures ws[i].db.jobs[j].remediationId != ws[i].db.scans[s].remediationId
  {
    hide After;
    RunKeeps(ws, es, i);
  }

  lemma AlwaysOneOpen(ws: seq<World>, es: seq<Event>, i: nat, a: string, b: string)
    requires Run(ws, es) && i < |ws| && a in ws[i].db.remediations && b in ws[i].db.remediations
    requires SameOrigin(ws[i].db.remediations[a], ws[i].db.remediations[b])
    requires !ws[i].db.remediations[a].state.Discarded? && !ws[i].db.remediations[b].state.Discarded?
    ensures a == b
  {
    hide After;
    RunKeeps(ws, es, i);
    var rems := ws[i].db.remediations;
    assert SameOrigin(rems[b], rems[a]);
    assert a != b ==> Succeeds(rems[a], rems[b]) && Succeeds(rems[b], rems[a]);
  }

  lemma AlwaysOneLiveJob(ws: seq<World>, es: seq<Event>, i: nat, a: string, b: string)
    requires Run(ws, es) && i < |ws| && a in ws[i].db.jobs && b in ws[i].db.jobs
    requires Live(ws[i].db.jobs[a].status) && Live(ws[i].db.jobs[b].status)
    requires ws[i].db.jobs[a].remediationId == ws[i].db.jobs[b].remediationId != ""
    ensures a == b
  {
    hide After;
    RunKeeps(ws, es, i);
  }

  // ---------- What never changes along a run ----------

  /** Jobs are never removed, keep their submission, and never leave a terminal status. */
  predicate Persists(before: Job, after: Job)
  {
    && after.id == before.id && after.userId == before.userId
    && after.idempotencyKey == before.idempotencyKey && after.requestDigest == before.requestDigest
    && (Terminal(before.status) ==> after.status == before.status)
  }

  ghost predicate AllPersist(before: Database, after: Database)
  {
    forall id :: id in before.jobs ==> id in after.jobs && Persists(before.jobs[id], after.jobs[id])
  }

  lemma StepPersists(db: Database, e: Event, now: int)
    requires Valid(db)
    ensures AllPersist(db, After(db, e, now))
  {
    hide AllPersist, Create, ClaimNext, Update, Heartbeat, Reclaim, Accept, CompleteCancellation;
    match e
    case Creating(q, all, newRemId) => CreatePersists(db, q, all, newRemId, now);
    case Claiming(worker) => ClaimPersists(db, worker, now);
    case Updating(job) => UpdatePersists(db, job, now);
    case Accepting(handed, preserved) => ReleasePersists(db, handed, preserved, now);
    case Cancelling(cancelled, cleaned) => CancellationPersists(db, cancelled, cleaned, now);
    case Reclaiming(cutoff) => ReclaimPersists(db, cutoff, now);
    case Beating(id, worker, claimedAt) => HeartbeatPersists(db, id, worker, claimedAt, now);
    case UpdatingRemediation(rem) => JobsUntouched(db, Committed(db, UpdateRemediation(db, rem, now)));
    case AddingScan(scan) => JobsUntouched(db, Committed(db, CreateScan(db, scan)));
    case MovingScan(scanId, to) => JobsUntouched(db, MoveScan(db, scanId, to));
  }

  lemma JobsUntouched(db: Database, after: Database)
    requires after.jobs == db.jobs
    ensures AllPersist(db, after)
  {
  }

  lemma CreatePersists(db: Database, q: Request, all: bool, newRemId: string, now: int)
    requires Valid(db)
    ensures AllPersist(db, After(db, Creating(q, all, newRemId), now))
  {
    hide Create, Attach;
    if Create(db, q, all, newRemId, now).Err? || Create(db, q, all, newRemId, now).value.replayed {
      ReplayChangesNothing(db, q, all, newRemId, now);
    }
    var r := Create(db, q, all, newRemId, now);
    if r.Ok? && !r.value.replayed {
      CreateInserts(db, q, all, newRemId, now);
      var session := if q.scanId == "" then NoSession else Attach(db, q, all, newRemId, now).value;
      InsertPersists(db, Based(db, session), r.value.job, now);
    }
  }

  lemma InsertPersists(db: Database, based: Database, job: Job, now: int)
    requires based.jobs == db.jobs && job.id !in db.jobs
    ensures AllPersist(db,
      based.(jobs := Rewritten(based.jobs[job.id := job], SupersededBy(job.remediationId, job.id), Supersede(now))))
  {
  }

  lemma ClaimPersists(db: Database, worker: string, now: int)
    requires Valid(db)
    ensures AllPersist(db, ClaimNext(db, worker, now))
  {
    var next := NextJob(db);
    ClaimPicksQueued(db);
    if next.Some? {
      assert Persists(db.jobs[next.value], ClaimedRow(db.jobs[next.value], worker, now));
    }
  }

  lemma ClaimPicksQueued(db: Database)
    requires Valid(db)
    ensures NextJob(db).Some? ==> NextJob(db).value in db.jobs && db.jobs[NextJob(db).value].status.Queued?
  {
    JobOrder(db, ClaimableIn(db));
    FirstSome(db.jobs, ClaimableIn(db), OldestJob());
    if NextJob(db).Some? {
      assert Claimable(db, db.jobs[NextJob(db).value]);
    }
  }

  lemma UpdatePersists(db: Database, j: Job, now: int)
    requires Valid(db)
    ensures AllPersist(db, Committed(db, Update(db, j, now)))
  {
    hide AnyScanOccupies, BlocksResume;
  }

  lemma ReleasePersists(db: Database, r: Remediation, cleaned: Option<string>, now: int)
    ensures AllPersist(db, Committed(db, Accept(db, r, cleaned, now)))
  {
  }

  lemma CancellationPersists(db: Database, j: Job, cleaned: bool, now: int)
    requires Valid(db)
    ensures AllPersist(db, Committed(db, CompleteCancellation(db, j, cleaned, now)))
  {
  }

  lemma HeartbeatPersists(db: Database, id: string, worker: string, claimedAt: int, now: int)
    ensures AllPersist(db, Committed(db, Heartbeat(db, id, worker, claimedAt, now)))
  {
  }

  lemma ReclaimPersists(db: Database, cutoff: int, now: int)
    ensures AllPersist(db, Reclaim(db, cutoff, now))
  {
  }

  lemma {:induction false} RunPersists(ws: seq<World>, es: seq<Event>, i: nat, j: nat)
    requires Run(ws, es) && i <= j < |ws|
    ensures AllPersist(ws[i].db, ws[j].db)
    decreases j - i
  {
    hide After, AllPersist;
    if i == j {
      PersistsItself(ws[i].db);
    } else {
      RunPersists(ws, es, i, j - 1);
      RunKeeps(ws, es, j - 1);
      assert Next(ws[j - 1], es[j - 1], ws[j]);
      StepPersists(ws[j - 1].db, es[j - 1], ws[j].clock);
      PersistsTransitive(ws[i].db, ws[j - 1].db, ws[j].db);
    }
  }

  lemma PersistsItself(db: Database)
    ensures AllPersist(db, db)
  {
  }

  lemma PersistsTransitive(a: Database, b: Database, c: Database)
    requires AllPersist(a, b) && AllPersist(b, c)
    ensures AllPersist(a, c)
  {
  }

  lemma TerminalForever(ws: seq<World>, es: seq<Event>, i: nat, j: nat, id: string)
    requires Run(ws, es) && i <= j < |ws| && id in ws[i].db.jobs && Terminal(ws[i].db.jobs[id].status)
    ensures id in ws[j].db.jobs && ws[j].db.jobs[id].status == ws[i].db.jobs[id].status
  {
    hide After;
    RunPersists(ws, es, i, j);
  }

  /** A keyed submission is accepted once; ever after it is replayed, or refused when the request differs. */
  lemma SubmittedOnce(ws: seq<World>, es: seq<Event>, i: nat, j: nat, id: string, again: Request, all: bool,
      newRemId: string, now: int)
    requires Run(ws, es) && i <= j < |ws| && id in ws[i].db.jobs && ws[i].db.jobs[id].idempotencyKey != ""
    requires SameSubmission(again.userId, again.idempotencyKey)(ws[i].db.jobs[id])
    requires !Malformed(again) && again.userId in ws[j].db.users
    ensures id in ws[j].db.jobs
    ensures Create(ws[j].db, again, all, newRemId, now)
         == if again.requestDigest
           == ws[i].db.jobs[id].requestDigest then Ok(Created(ws[j].db, ws[j].db.jobs[id], true))
            else Err(IdempotencyConflict)
  {
    hide After;
    RunPersists(ws, es, i, j);
    RunKeeps(ws, es, j);
    var db := ws[j].db;
    var found := Submission(db, again.userId, again.idempotencyKey);
    assert SameSubmission(again.userId, again.idempotencyKey)(db.jobs[id]);
    assert SameKey(db.jobs[found.value], db.jobs[id]);
  }

  /** Once an origin scan's remediation is frozen it stays frozen, and no other is ever started for the origin. */
  ghost predicate FrozenFor(db: Database, origin: string, id: string)
  {
    && id in db.remediations && db.remediations[id].originScanId == origin && db.remediations[id].state.Frozen?
  }

  ghost predicate NoneStarted(before: Database, after: Database, origin: string)
  {
    forall r :: r in after.remediations && OfOrigin(origin)(after.remediations[r]) ==>
      r in before.remediations && OfOrigin(origin)(before.remediations[r])
  }

  lemma CreateStartsNone(db: Database, q: Request, all: bool, newRemId: string, now: int, origin: string, id: string)
    requires Valid(db) && OnlyNewestKept(db) && newRemId !in db.remediations && FrozenFor(db, origin, id)
    ensures var after := After(db, Creating(q, all, newRemId), now);
      FrozenFor(after, origin, id) && NoneStarted(db, after, origin)
  {
    hide Create, Attach, Insertable;
    if Create(db, q, all, newRemId, now).Err? || Create(db, q, all, newRemId, now).value.replayed {
      ReplayChangesNothing(db, q, all, newRemId, now);
    }
    var r := Create(db, q, all, newRemId, now);
    if r.Ok? && !r.value.replayed {
      CreateInserts(db, q, all, newRemId, now);
      if q.scanId != "" {
        SessionFacts(db, q, all, newRemId, now);
        var session := Attach(db, q, all, newRemId, now).value;
        BasedStartsNone(db, session, newRemId, now, origin, id);
        assert r.value.db.remediations == Based(db, session).remediations;
      }
    }
  }

  lemma BasedStartsNone(db: Database, session: Session, newRemId: string, now: int, origin: string, id: string)
    requires session.Attached? && FrozenFor(db, origin, id) && newRemId !in db.remediations
    requires session.isNew ==> Starts(db, session.rem, newRemId, now)
    ensures FrozenFor(Based(db, session), origin, id) && NoneStarted(db, Based(db, session), origin)
  {
    assert session.isNew ==> !SameOrigin(db.remediations[id], session.rem);
  }

  lemma StepKeepsFrozen(db: Database, e: Event, now: int, origin: string, id: string)
    requires Valid(db) && OnlyNewestKept(db) && Disciplined(db, e) && FrozenFor(db, origin, id)
    ensures FrozenFor(After(db, e, now), origin, id) && NoneStarted(db, After(db, e, now), origin)
  {
    hide Valid, Quiet, Create, Heartbeat, Reclaim, UpdateRemediation, Accept, CompleteCancellation;
    match e
    case Creating(q, all, newRemId) => CreateStartsNone(db, q, all, newRemId, now, origin, id);
    case Claiming(worker) => assert ClaimNext(db, worker, now).remediations == db.remediations;
    case Updating(job) => assert Committed(db, Update(db, job, now)).remediations == db.remediations;
    case AddingScan(scan) => assert Committed(db, CreateScan(db, scan)).remediations == db.remediations;
    case MovingScan(scanId, to) => assert MoveScan(db, scanId, to).remediations == db.remediations;
    case _ =>
      QuietStep(db, e, now);
      QuietKeepsFrozen(db, After(db, e, now), origin, id);
  }

  lemma QuietKeepsFrozen(db: Database, after: Database, origin: string, id: string)
    requires Quiet(db, after) && FrozenFor(db, origin, id)
    ensures FrozenFor(after, origin, id) && NoneStarted(db, after, origin)
  {
    assert Closes(db.remediations[id], after.remediations[id]);
  }

  lemma {:induction false} FrozenForever(ws: seq<World>, es: seq<Event>, i: nat, j: nat, origin: string, id: string)
    requires Run(ws, es) && i <= j < |ws| && FrozenFor(ws[i].db, origin, id)
    ensures FrozenFor(ws[j].db, origin, id) && NoneStarted(ws[i].db, ws[j].db, origin)
    decreases j - i
  {
    hide After;
    if i < j {
      FrozenForever(ws, es, i, j - 1, origin, id);
      RunKeeps(ws, es, j - 1);
      assert Next(ws[j - 1], es[j - 1], ws[j]);
      StepKeepsFrozen(ws[j - 1].db, es[j - 1], ws[j].clock, origin, id);
    }
  }

  // ---------- Clean-up only happens when nobody else works there ----------

  /**
   When a hand-off takes effect, nobody was working on the remediation. Afterwards none of its
   jobs is live, and its succeeded jobs no longer point at the checkout that was released.
   */
  lemma HandoffIsSafe(ws: seq<World>, es: seq<Event>, i: nat, r: Remediation, cleaned: Option<string>, now: int)
    requires Run(ws, es) && i < |ws| && Accept(ws[i].db, r, cleaned, now).Ok?
    requires Accept(ws[i].db, r, cleaned, now).value != ws[i].db
    ensures var db, after := ws[i].db, Accept(ws[i].db, r, cleaned, now).value;
      && (forall j :: j in db.jobs && db.jobs[j].remediationId == r.id ==>
        !Busy(db.jobs[j].status) && !Cleaning(db.jobs[j]))
      && NoScanOn(db, r.id)
      && r.id in after.remediations && after.remediations[r.id].state.Frozen?
      && after.remediations[r.id].workspacePath == ""
      && (forall j :: j in after.jobs && after.jobs[j].remediationId == r.id ==> !Live(after.jobs[j].status))
      && forall j :: j in after.jobs && after.jobs[j].remediationId == r.id && after.jobs[j].status.Succeeded? ==>
           after.jobs[j].workspacePath == "" || after.jobs[j].workspacePath != db.remediations[r.id].workspacePath
  {
    hide After;
    RunKeeps(ws, es, i);
    HandoffChecks(ws[i].db, r, cleaned, now);
    HandoffReleases(ws[i].db, r, cleaned, now);
  }

  lemma HandoffChecks(db: Database, r: Remediation, cleaned: Option<string>, now: int)
    requires Valid(db) && Linked(db) && "" !in db.remediations && Accept(db, r, cleaned, now).Ok?
    requires Accept(db, r, cleaned, now).value != db
    ensures (forall j :: j in db.jobs && db.jobs[j].remediationId == r.id ==>
      !Busy(db.jobs[j].status) && !Cleaning(db.jobs[j]))
    ensures NoScanOn(db, r.id)
  {
    var saved := db.remediations[r.id];
    forall j | j in db.jobs && db.jobs[j].remediationId == r.id
      ensures !Busy(db.jobs[j].status) && !Cleaning(db.jobs[j])
    {
      assert OnRemediation(db, db.jobs[j].remediationId, db.jobs[j].repoId);
      assert !BlocksHandoff(db.jobs[j], saved);
    }
    forall s | s in db.scans && Admitted(db.scans[s])
      ensures db.scans[s].remediationId != r.id
    {
      assert OnRemediation(db, db.scans[s].remediationId, db.scans[s].repoId);
      assert !ScanOccupies(db.scans[s], saved.repoId, saved.id, saved.workspacePath);
    }
  }

  lemma HandoffReleases(db: Database, r: Remediation, cleaned: Option<string>, now: int)
    requires Valid(db) && Accept(db, r, cleaned, now).Ok? && Accept(db, r, cleaned, now).value != db
    requires forall j :: j in db.jobs && db.jobs[j].remediationId == r.id ==> !Busy(db.jobs[j].status)
    ensures var after := Accept(db, r, cleaned, now).value;
      && r.id in after.remediations && after.remediations[r.id].state.Frozen?
      && after.remediations[r.id].workspacePath == ""
      && (forall j :: j in after.jobs && after.jobs[j].remediationId == r.id ==> !Live(after.jobs[j].status))
      && forall j :: j in after.jobs && after.jobs[j].remediationId == r.id && after.jobs[j].status.Succeeded? ==>
           after.jobs[j].workspacePath == "" || after.jobs[j].workspacePath != db.remediations[r.id].workspacePath
  {
    var saved := db.remediations[r.id];
    var after := Accept(db, r, cleaned, now).value;
    forall j | j in after.jobs && after.jobs[j].remediationId == r.id
      ensures !Live(after.jobs[j].status)
      ensures after.jobs[j].status.Succeeded? ==>
        after.jobs[j].workspacePath == "" || after.jobs[j].workspacePath != saved.workspacePath
    {
      assert db.jobs[j].remediationId == r.id;
      assert after.jobs[j] == if ReleasedBy(saved)(db.jobs[j]) then Release(now)(db.jobs[j]) else db.jobs[j];
    }
  }

  /** A cancelled job's checkout is discarded only when no other live job or scan is on its remediation. */
  lemma CleanupIsSafe(ws: seq<World>, es: seq<Event>, i: nat, job: Job, now: int)
    requires Run(ws, es) && i < |ws| && CompleteCancellation(ws[i].db, job, true, now).Ok?
    ensures job.id in ws[i].db.jobs
    ensures var db, saved := ws[i].db, ws[i].db.jobs[job.id];
      && Cleaning(saved)
      && (saved.remediationId != "" ==>
            && NoScanOn(db, saved.remediationId)
            && forall j :: j in db.jobs && j != saved.id && db.jobs[j].remediationId == saved.remediationId ==>
              !Live(db.jobs[j].status))
      && !Cleaning(CompleteCancellation(db, job, true, now).value.jobs[job.id])
  {
    hide After;
    RunKeeps(ws, es, i);
    var db := ws[i].db;
    var saved := db.jobs[job.id];
    if saved.remediationId != "" {
      assert OnRemediation(db, saved.remediationId, saved.repoId);
      forall j | j in db.jobs && j != saved.id && db.jobs[j].remediationId == saved.remediationId
        ensures !Live(db.jobs[j].status)
      {
        assert OnRemediation(db, db.jobs[j].remediationId, db.jobs[j].repoId);
        assert !BlocksCleanup(db.jobs[j], saved);
      }
      forall s | s in db.scans && Admitted(db.scans[s])
        ensures db.scans[s].remediationId != saved.remediationId
      {
        assert OnRemediation(db, db.scans[s].remediationId, db.scans[s].repoId);
        assert !ScanOccupies(db.scans[s], saved.repoId, saved.remediationId, saved.workspacePath);
      }
    }
  }
}
