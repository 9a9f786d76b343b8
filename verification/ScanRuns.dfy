/**
 Leases, attempts and terminal statuses over every run of the scan store: the steps of a run are the
 transactions of `ScanModel`, in any order and with any arguments, under the rules stated in `Disciplined`.
 A lease token that was given up is fenced off for the rest of the run.
*/
module ScanRuns {
  import opened Wrappers
  import opened Text
  import opened Tables
  import opened ScanModel

  datatype Event =
    | Creating(scan: Scan)
    | Claiming(id: string, worker: string, token: string, until: int)
    | Starting(id: string, token: string)
    | Beating(id: string, token: string, until: int)
    | Finalizing(id: string, token: string, outcome: Outcome)
    | Completing(scan: Scan, gate: Gate)
    | Reclaiming
    | Cancelling(id: string)
    | FailingCompleted(id: string, code: string)
    | Importing(rows: seq<Finding>)
    | Inserting(rows: seq<Finding>, id: string, token: string)
    | Deleting(id: string, tool: string, token: string)
    | Enriching(finding: Finding)
    | Capturing(id: string, token: string, policy: string, hides: Finding -> bool)
    | Deriving(id: string, token: string, derived: map<string, string>, baseline: string)
    | Gating(gate: Gate)
    | Clustering(id: string, token: string, primaries: seq<Finding>, hides: Finding -> bool)
    | Triaging(id: string, status: string)
    | Reconciling(id: string, suppresses: Finding -> bool, hides: Finding -> bool)

  ghost function After(db: Database, e: Event, now: int): Database
  {
    match e
    case Creating(scan) => (match CreateScan(db, scan) case Ok(next) => next case Err(_) => db)
    case Claiming(id, worker, token, until) => if id in db.scans && Waiting(db.scans[id]) then
      Claim(db, id, worker, token, until, now) else db
    case Starting(id, token) => Start(db, id, token, now)
    case Beating(id, token, until) => Heartbeat(db, id, token, until, now)
    case Finalizing(id, token, outcome) => Finalize(db, id, token, outcome)
    case Completing(scan, gate) => (match Complete(db, scan, gate) case Ok(next) => next case Err(_) => db)
    case Reclaiming => Reclaim(db, now)
    case Cancelling(id) => Cancel(db, id, now)
    case FailingCompleted(id, code) => FailCompleted(db, id, code)
    case Importing(rows) => Import(db, rows)
    case Inserting(rows, id, token) => CreateFindingsForLease(db, rows, id, token)
    case Deleting(id, tool, token) => DeleteByTool(db, id, tool, token)
    case Enriching(finding) => UpdateFinding(db, finding)
    case Capturing(id, token, policy, hides) => CapturePolicy(db, id, token, policy, hides)
    case Deriving(id, token, derived, baseline) => PersistBaseline(db, id, token, derived, baseline)
    case Gating(gate) => UpsertGate(db, gate)
    case Clustering(id, token, primaries, hides) => FinalizeClusters(db, id, token, primaries, hides)
    case Triaging(id, status) => UpdateClusterStatus(db, id, status)
    case Reconciling(id, suppresses, hides) => Reconcile(db, id, suppresses, hides)
  }

  predicate Named(rows: seq<Finding>)
  {
    forall i :: 0 <= i < |rows| ==> rows[i].id != ""
  }

  /** Fresh claim tokens, scans queued or finished when created, finalization to a terminal status, rows with an id. */
  predicate Disciplined(db: Database, e: Event)
  {
    match e
    case Creating(s) => s.leaseToken == "" && s.attempt == 0 && (s.status.Pending? || Terminal(s.status))
      && s.cancelRequestedAt.None?
    case Claiming(id, worker, token, until) => token != "" && token !in db.issuedTokens
    case Finalizing(id, token, outcome) => Terminal(outcome.status)
    case Importing(rows) => Named(rows)
    case Inserting(rows, id, token) => Named(rows)
    case _ => true
  }

  // ---------- Lease invariant ----------

  /** A pending scan has attempts left and no lease; only a cancelled scan has a cancellation on record. */
  predicate LeaseOk(s: Scan, issued: set<string>)
  {
    && 0 <= s.attempt <= s.maxAttempts
    && (s.status.Pending? ==> s.attempt < s.maxAttempts && s.leaseToken == "")
    && (s.status.Pending? || s.status.Running? ==> s.cancelRequestedAt.None?)
    && (s.leaseToken != "" ==> s.leaseToken in issued)
  }

  ghost predicate Leases(db: Database)
  {
    forall id :: id in db.scans ==> LeaseOk(db.scans[id], db.issuedTokens)
  }

  /** The event is a claim that takes this scan. */
  predicate Claims(db: Database, e: Event, id: string)
  {
    e.Claiming? && e.id == id && id in db.scans && Waiting(db.scans[id])
  }

  /** How a step may change one scan's lease columns. */
  predicate LeaseStep(db: Database, e: Event, after: Database, id: string)
    requires id in db.scans && id in after.scans
  {
    var s, t := db.scans[id], after.scans[id];
    && t.maxAttempts == s.maxAttempts
    && (t.leaseToken == s.leaseToken || t.leaseToken == "" || t.leaseToken !in db.issuedTokens)
    && (Terminal(s.status) ==> Terminal(t.status) && (s.status.Cancelled? ==> t.status.Cancelled?))
    && t.attempt == s.attempt + (if Claims(db, e, id) then 1 else 0)
  }

  ghost predicate LeaseSteps(db: Database, e: Event, after: Database)
  {
    && db.issuedTokens <= after.issuedTokens
    && (forall id :: id in db.scans ==> id in after.scans && LeaseStep(db, e, after, id))
    && (forall id :: id in after.scans && id !in db.scans ==>
      after.scans[id].leaseToken == "" && after.scans[id].attempt == 0)
  }

  predicate IsEvidence(e: Event)
  {
    || e.Importing? || e.Inserting? || e.Deleting? || e.Enriching? || e.Capturing? || e.Deriving? || e.Gating?
    || e.Clustering? || e.Triaging? || e.Reconciling?
  }

  /** Evidence is written without touching any lease column. */
  ghost predicate LeasesUntouched(db: Database, after: Database)
  {
    && after.issuedTokens == db.issuedTokens && after.scans.Keys == db.scans.Keys
    && forall id :: id in db.scans ==>
      after.scans[id] == db.scans[id].(findingsRevision := after.scans[id].findingsRevision,
                                       ignorePolicy := after.scans[id].ignorePolicy,
                                       baseline := after.scans[id].baseline)
  }

  lemma InsertKeepsLeases(db: Database, rows: seq<Finding>)
    ensures LeasesUntouched(db, Insert(db, rows))
  {
  }

  lemma ImportKeepsLeases(db: Database, rows: seq<Finding>)
    ensures LeasesUntouched(db, Import(db, rows))
  {
    InsertKeepsLeases(db, rows);
  }

  lemma LeaseInsertKeepsLeases(db: Database, rows: seq<Finding>, id: string, token: string)
    ensures LeasesUntouched(db, CreateFindingsForLease(db, rows, id, token))
  {
    InsertKeepsLeases(db, rows);
  }

  lemma EvidenceKeepsLeases(db: Database, e: Event, now: int)
    requires IsEvidence(e)
    ensures LeasesUntouched(db, After(db, e, now))
  {
    hide Import, CreateFindingsForLease, UpdateFinding, UpdateClusterStatus, CapturePolicy, DeleteByTool,
        PersistBaseline, FinalizeClusters, Reconcile;
    match e
    case Importing(rows) => ImportKeepsLeases(db, rows);
    case Inserting(rows, id, token) => LeaseInsertKeepsLeases(db, rows, id, token);
    case Gating(gate) =>
    case Enriching(f) => EnrichingKeepsLeases(db, f);
    case Triaging(id, status) => TriagingKeepsLeases(db, id, status);
    case Capturing(id, token, policy, hides) => CapturingKeepsLeases(db, id, token, policy, hides);
    case Deleting(id, tool, token) => DeletingKeepsLeases(db, id, tool, token);
    case Deriving(id, token, derived, baseline) => DerivingKeepsLeases(db, id, token, derived, baseline);
    case Clustering(id, token, primaries, hides) => ClusteringKeepsLeases(db, id, token, primaries, hides);
    case Reconciling(id, suppresses, hides) => ReconcilingKeepsLeases(db, id, suppresses, hides);
  }

  lemma EnrichingKeepsLeases(db: Database, f: Finding)
    ensures LeasesUntouched(db, UpdateFinding(db, f))
  {
  }

  lemma TriagingKeepsLeases(db: Database, id: string, status: string)
    ensures LeasesUntouched(db, UpdateClusterStatus(db, id, status))
  {
  }

  lemma CapturingKeepsLeases(db: Database, id: string, token: string, policy: string, hides: Finding -> bool)
    ensures LeasesUntouched(db, CapturePolicy(db, id, token, policy, hides))
  {
  }

  lemma DeletingKeepsLeases(db: Database, id: string, tool: string, token: string)
    ensures LeasesUntouched(db, DeleteByTool(db, id, tool, token))
  {
  }

  lemma DerivingKeepsLeases(db: Database, id: string, token: string, derived: map<string, string>, baseline: string)
    ensures LeasesUntouched(db, PersistBaseline(db, id, token, derived, baseline))
  {
  }

  lemma ClusteringKeepsLeases(db: Database, id: string, token: string, primaries: seq<Finding>, hides: Finding -> bool)
    ensures LeasesUntouched(db, FinalizeClusters(db, id, token, primaries, hides))
  {
  }

  lemma ReconcilingKeepsLeases(db: Database, id: string, suppresses: Finding -> bool, hides: Finding -> bool)
    ensures LeasesUntouched(db, Reconcile(db, id, suppresses, hides))
  {
  }

  /** One scan changed, in a way its lease allows. */
  lemma OneScanKeepsLeases(db: Database, e: Event, after: Database, id: string)
    requires Leases(db) && id in db.scans && id in after.scans && after.scans == db.scans[id := after.scans[id]]
    requires forall other :: other != id ==> !Claims(db, e, other)
    requires db.issuedTokens <= after.issuedTokens && LeaseOk(after.scans[id], after.issuedTokens)
    requires LeaseStep(db, e, after, id)
    ensures Leases(after) && LeaseSteps(db, e, after)
  {
  }

  lemma QueueKeepsLeases(db: Database, e: Event, now: int)
    requires Leases(db) && Disciplined(db, e) && !IsEvidence(e) && !e.Creating? && !e.Reclaiming? && !e.Completing?
    ensures Leases(After(db, e, now)) && LeaseSteps(db, e, After(db, e, now))
  {
    var after := After(db, e, now);
    if after != db {
      OneScanKeepsLeases(db, e, after, e.id);
    }
  }

  lemma UntouchedKeepsLeases(db: Database, e: Event, after: Database)
    requires Leases(db) && LeasesUntouched(db, after) && forall id :: !Claims(db, e, id)
    ensures Leases(after) && LeaseSteps(db, e, after)
  {
  }

  lemma ReclaimKeepsLeases(db: Database, now: int)
    requires Leases(db)
    ensures Leases(Reclaim(db, now)) && LeaseSteps(db, Reclaiming, Reclaim(db, now))
  {
    var after := Reclaim(db, now);
    forall id | id in db.scans
      ensures LeaseOk(after.scans[id], after.issuedTokens) && LeaseStep(db, Reclaiming, after, id)
    {
      assert LeaseOk(db.scans[id], db.issuedTokens);
    }
  }

  lemma CreateKeepsLeases(db: Database, scan: Scan, now: int)
    requires Leases(db) && Disciplined(db, Creating(scan))
    ensures Leases(After(db, Creating(scan), now)) && LeaseSteps(db, Creating(scan), After(db, Creating(scan), now))
  {
  }

  lemma StepKeepsLeases(db: Database, e: Event, now: int)
    requires Leases(db) && Disciplined(db, e)
    ensures Leases(After(db, e, now)) && LeaseSteps(db, e, After(db, e, now))
  {
    if IsEvidence(e) {
      EvidenceKeepsLeases(db, e, now);
      UntouchedKeepsLeases(db, e, After(db, e, now));
    } else if e.Creating? {
      CreateKeepsLeases(db, e.scan, now);
    } else if e.Reclaiming? {
      ReclaimKeepsLeases(db, now);
    } else if e.Completing? {
      CompleteKeepsLeases(db, e, now);
    } else {
      QueueKeepsLeases(db, e, now);
    }
  }

  lemma CompleteKeepsLeases(db: Database, e: Event, now: int)
    requires Leases(db) && e.Completing?
    ensures Leases(After(db, e, now)) && LeaseSteps(db, e, After(db, e, now))
  {
    var after := After(db, e, now);
    if after != db {
      OneScanKeepsLeases(db, e, after, e.scan.id);
    } else {
      assert LeasesUntouched(db, after);
      UntouchedKeepsLeases(db, e, after);
    }
  }

  // ---------- Runs ----------

  datatype World = World(db: Database, clock: int)

  ghost predicate Run(ws: seq<World>, es: seq<Event>)
  {
    && |ws| == |es| + 1 && ws[0].db == Database(map[], map[], map[], {})
    && forall i :: 0 <= i < |es| ==> Next(ws[i], es[i], ws[i + 1])
  }

  ghost predicate Next(w: World, e: Event, w': World)
  {
    w.clock <= w'.clock && Disciplined(w.db, e) && w'.db == After(w.db, e, w'.clock)
  }

  lemma {:induction false} RunKeepsLeases(ws: seq<World>, es: seq<Event>, i: nat)
    requires Run(ws, es) && i < |ws|
    ensures Leases(ws[i].db)
    ensures i > 0 ==> LeaseSteps(ws[i - 1].db, es[i - 1], ws[i].db)
  {
    hide After;
    if i > 0 {
      RunKeepsLeases(ws, es, i - 1);
      assert Next(ws[i - 1], es[i - 1], ws[i]);
      StepKeepsLeases(ws[i - 1].db, es[i - 1], ws[i].clock);
    }
  }

  // ---------- Fencing ----------

  /** The step acts on scan id in the name of a lease token. */
  predicate Carries(e: Event, id: string, token: string)
  {
    || (e.Starting? && e.id == id && e.token == token)
    || (e.Beating? && e.id == id && e.token == token)
    || (e.Finalizing? && e.id == id && e.token == token)
    || (e.Completing? && e.scan.id == id && e.scan.leaseToken == token)
    || (e.Inserting? && e.id == id && e.token == token)
    || (e.Deleting? && e.id == id && e.token == token)
    || (e.Capturing? && e.id == id && e.token == token)
    || (e.Deriving? && e.id == id && e.token == token)
    || (e.Clustering? && e.id == id && e.token == token)
  }

  /** A step carrying a token that is not the scan's live lease changes nothing. */
  lemma StaleStepDoesNothing(db: Database, e: Event, now: int, id: string, token: string)
    requires Leases(db) && token != "" && Carries(e, id, token) && !HoldsLease(db, id, token)
    ensures After(db, e, now) == db
  {
    hide Leases, CreateScan, Claim, Reclaim, Cancel, FailCompleted, Import, UpdateFinding, UpdateClusterStatus,
        Reconcile, UpsertGate, Partition;
    if id in db.scans {
      LiveTokenIsLeased(db, id);
    }
  }

  lemma LiveTokenIsLeased(db: Database, id: string)
    requires Leases(db) && id in db.scans
    ensures LeaseOk(db.scans[id], db.issuedTokens)
  {
  }

  ghost predicate Retired(db: Database, id: string, token: string)
  {
    token != "" && token in db.issuedTokens && !HoldsLease(db, id, token)
  }

  lemma {:induction false} RetiredForever(ws: seq<World>, es: seq<Event>, i: nat, j: nat, id: string, token: string)
    requires Run(ws, es) && i <= j < |ws| && Retired(ws[i].db, id, token)
    ensures Retired(ws[j].db, id, token)
    decreases j - i
  {
    hide After;
    if i < j {
      RetiredForever(ws, es, i, j - 1, id, token);
      RunKeepsLeases(ws, es, j - 1);
      RunKeepsLeases(ws, es, j);
      var before, after := ws[j - 1].db, ws[j].db;
      if id in before.scans {
        assert LeaseOk(before.scans[id], before.issuedTokens) && LeaseStep(before, es[j - 1], after, id);
      }
    }
  }

  /** Once a token was reclaimed, finalized or cancelled, no later step carrying it changes anything. */
  lemma Fenced(ws: seq<World>, es: seq<Event>, i: nat, j: nat, id: string, token: string)
    requires Run(ws, es) && i <= j < |es| && Retired(ws[i].db, id, token) && Carries(es[j], id, token)
    ensures ws[j + 1].db == ws[j].db
  {
    hide After;
    RetiredForever(ws, es, i, j, id, token);
    RunKeepsLeases(ws, es, j);
    assert Next(ws[j], es[j], ws[j + 1]);
    StaleStepDoesNothing(ws[j].db, es[j], ws[j + 1].clock, id, token);
  }

  lemma StepFromTerminal(db: Database, e: Event, after: Database, id: string)
    requires LeaseSteps(db, e, after) && id in db.scans && Terminal(db.scans[id].status)
    ensures id in after.scans && Terminal(after.scans[id].status)
    ensures db.scans[id].status.Cancelled? ==> after.scans[id].status.Cancelled?
  {
    assert LeaseStep(db, e, after, id);
  }

  /** A finished scan never runs again, and a cancelled one stays cancelled. */
  lemma {:induction false} TerminalForever(ws: seq<World>, es: seq<Event>, i: nat, j: nat, id: string)
    requires Run(ws, es) && i <= j < |ws| && id in ws[i].db.scans && Terminal(ws[i].db.scans[id].status)
    ensures id in ws[j].db.scans && Terminal(ws[j].db.scans[id].status)
    ensures ws[i].db.scans[id].status.Cancelled? ==> ws[j].db.scans[id].status.Cancelled?
    decreases j - i
  {
    hide After;
    if i < j {
      TerminalForever(ws, es, i, j - 1, id);
      RunKeepsLeases(ws, es, j);
      StepFromTerminal(ws[j - 1].db, es[j - 1], ws[j].db, id);
    }
  }

  /** How often the first i steps claimed the scan. */
  ghost function ClaimCount(ws: seq<World>, es: seq<Event>, id: string, i: nat): nat
    requires i <= |es| && |ws| == |es| + 1
  {
    if i == 0 then 0 else ClaimCount(ws, es, id, i - 1) + if Claims(ws[i - 1].db, es[i - 1], id) then 1 else 0
  }

  /** Each scan is claimed at most max_attempts times. */
  lemma {:induction false} ClaimsBounded(ws: seq<World>, es: seq<Event>, id: string, i: nat)
    requires Run(ws, es) && i < |ws|
    ensures if id in ws[i].db.scans then
      ClaimCount(ws, es, id, i) == ws[i].db.scans[id].attempt <= ws[i].db.scans[id].maxAttempts
            else ClaimCount(ws, es, id, i) == 0
  {
    hide After;
    RunKeepsLeases(ws, es, i);
    if i > 0 {
      ClaimsBounded(ws, es, id, i - 1);
      if id in ws[i - 1].db.scans {
        assert LeaseStep(ws[i - 1].db, es[i - 1], ws[i].db, id);
      }
    }
    if id in ws[i].db.scans {
      assert LeaseOk(ws[i].db.scans[id], ws[i].db.issuedTokens);
    }
  }
}
