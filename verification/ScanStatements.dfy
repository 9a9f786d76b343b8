/** The scan and finding statements in columns: what each one tests and writes. */
module ScanStatements {
  import opened Wrappers
  import opened Text
  import opened Tables
  import opened ScanModel

  /** What a statement leaves of the tables when it only writes this scan. */
  function Set(db: Database, id: string, s: Scan): Database
  {
    Database(db.scans[id := s], db.findings, db.gates, db.issuedTokens)
  }

  /** Running under this token, and nobody asked to cancel. */
  predicate Leased(db: Database, id: string, token: string)
  {
    && id in db.scans && db.scans[id].status == Running && db.scans[id].leaseToken == token
    && db.scans[id].cancelRequestedAt == None
  }

  function FirstTime(recorded: Option<int>, at: int): Option<int>
  {
    match recorded
    case None => Some(at)
    case Some(_) => recorded
  }

  // ---------- The queue ----------

  lemma CreateExactly(db: Database, s: Scan)
    ensures CreateScan(db, s) == if s.id in db.scans then Err(DuplicateKey)
                                 else Ok(Set(db, s.id, if s.maxAttempts > 0 then s else s.(maxAttempts := 2)))
  {
  }

  /** What a claim may take: queued, and nobody asked to cancel. */
  lemma WaitingExactly(s: Scan)
    ensures Waiting(s) <==> s.status == Pending && s.cancelRequestedAt == None
  {
  }

  /** A claim leases the scan and counts an attempt. */
  lemma ClaimExactly(db: Database, id: string, worker: string, token: string, until: int, now: int)
    requires id in db.scans
    ensures Claim(db, id, worker, token, until, now)
      == Set(db, id, db.scans[id].(status := Running, claimedBy := worker, leaseToken := token,
                                   leaseExpiresAt := Some(until), heartbeatAt := Some(now),
                                   attempt := db.scans[id].attempt + 1, failureCode := "", completedAt := None,
                                   startedAt := FirstTime(db.scans[id].startedAt, now)))
         .(issuedTokens := db.issuedTokens + {token})
  {
  }

  lemma StartExactly(db: Database, id: string, token: string, at: int)
    ensures Start(db, id, token, at)
      == if (token != "" && Leased(db, id, token))
            || (token == "" && id in db.scans && db.scans[id].status == Pending
                && db.scans[id].cancelRequestedAt == None) then
           Set(db, id, db.scans[id].(status := Running, startedAt := FirstTime(db.scans[id].startedAt, at)))
         else db
  {
  }

  /** A lease is extended even after a cancellation was asked for. */
  lemma HeartbeatExactly(db: Database, id: string, token: string, until: int, now: int)
    ensures Heartbeat(db, id, token, until, now)
      == if id in db.scans && db.scans[id].status == Running && db.scans[id].leaseToken == token then
           Set(db, id, db.scans[id].(heartbeatAt := Some(now), leaseExpiresAt := Some(until)))
         else db
  {
  }

  lemma FinalizeExactly(db: Database, id: string, token: string, outcome: Outcome)
    ensures Finalize(db, id, token, outcome)
      == if Leased(db, id, token) then
           Set(db, id, db.scans[id].(status := outcome.status, failureCode := outcome.failureCode,
                                     completedAt := outcome.completedAt, claimedBy := "", leaseToken := "",
                                     leaseExpiresAt := None, heartbeatAt := None))
         else db
  {
  }

  /** Running with a lease that ended before now. */
  predicate RanOut(s: Scan, now: int)
  {
    && s.status == Running
    && match s.leaseExpiresAt
       case None => false
       case Some(end) => end < now
  }

  /** A scan whose lease ended goes back to the queue while attempts are left, and fails otherwise. */
  function AfterLoss(s: Scan, now: int): Scan
  {
    if !RanOut(s, now) then s
    else if s.attempt < s.maxAttempts then
      s.(status := Pending, claimedBy := "", leaseToken := "", leaseExpiresAt := None, heartbeatAt := None,
         failureCode := "worker_lost")
    else
      s.(status := Failed, claimedBy := "", leaseToken := "", leaseExpiresAt := None, failureCode := "worker_lost",
         completedAt := Some(now))
  }

  lemma ReclaimExactly(db: Database, now: int)
    ensures Reclaim(db, now) == Database(map id | id in db.scans :: AfterLoss(db.scans[id], now), db.findings, db.gates,
                                         db.issuedTokens)
  {
  }

  /** A lease that has not ended is never taken away; one that has is, and its scan moves on. */
  lemma ReclaimTakesEndedLeases(db: Database, now: int, id: string)
    requires id in db.scans
    ensures id in Reclaim(db, now).scans
    ensures var s, after := db.scans[id], Reclaim(db, now).scans[id];
      && (s.status != Running || s.leaseExpiresAt == None || s.leaseExpiresAt.value >= now ==> after == s)
      && (s.status == Running && s.leaseExpiresAt != None && s.leaseExpiresAt.value < now ==>
            && after.leaseToken == "" && after.leaseExpiresAt == None
            && after.status == if s.attempt < s.maxAttempts then Pending else Failed)
  {
    ReclaimExactly(db, now);
  }

  /** The number reclaimed is the number of scans that changed. */
  lemma ReclaimCountsChanges(db: Database, now: int)
    ensures (set id | id in db.scans && Expired(db.scans[id], now))
         == (set id | id in db.scans && id in Reclaim(db, now).scans && Reclaim(db, now).scans[id] != db.scans[id])
  {
    ReclaimExactly(db, now);
    forall id | id in db.scans
      ensures Expired(db.scans[id], now) <==> AfterLoss(db.scans[id], now) != db.scans[id]
    {
    }
  }

  lemma CancelExactly(db: Database, id: string, at: int)
    ensures Cancel(db, id, at)
      == if id in db.scans && (db.scans[id].status == Pending || db.scans[id].status == Running) then
           Set(db, id, db.scans[id].(status := Cancelled, cancelRequestedAt := Some(at),
                                     completedAt := FirstTime(db.scans[id].completedAt, at)))
         else db
  {
  }

  lemma FailCompletedExactly(db: Database, id: string, code: string)
    ensures FailCompleted(db, id, code)
      == if id in db.scans && db.scans[id].status == Completed then
           Set(db, id, db.scans[id].(status := Failed, failureCode := code))
         else db
  {
  }

  // ---------- Findings ----------

  /** The scan's revision moves by one. */
  function Moved(s: Scan): Scan
  {
    s.(findingsRevision := s.findingsRevision + 1)
  }

  /** The rows can enter: new ids, none twice, each of a known scan of its repository. */
  predicate Enters(db: Database, rows: seq<Finding>)
  {
    && (forall i :: 0 <= i < |rows| ==> rows[i].id !in db.findings && rows[i].scanId in db.scans
                                        && db.scans[rows[i].scanId].repoId == rows[i].repoId)
    && (forall i, j :: 0 <= i < |rows| && 0 <= j < |rows| && rows[i].id == rows[j].id ==> i == j)
  }

  function Ids(rows: seq<Finding>): set<string>
  {
    set i | 0 <= i < |rows| :: rows[i].id
  }

  /** The tables with the rows added, unclustered, and each scan that received one moved once. */
  ghost predicate Entered(db: Database, rows: seq<Finding>, after: Database)
  {
    && after == db.(scans := after.scans, findings := after.findings) && after.scans.Keys == db.scans.Keys
    && (forall id :: id in db.scans ==>
          after.scans[id] == if exists i :: 0 <= i < |rows| && rows[i].scanId == id then Moved(db.scans[id])
                             else db.scans[id])
    && after.findings.Keys == db.findings.Keys + Ids(rows)
    && (forall f :: f in db.findings && f in after.findings ==> after.findings[f] == db.findings[f])
    && forall i :: 0 <= i < |rows| && rows[i].id in after.findings ==>
         after.findings[rows[i].id] == rows[i].(clusterId := "")
  }

  lemma {:induction false} AddedHolds(findings: map<string, Finding>, rows: seq<Finding>)
    requires forall i :: 0 <= i < |rows| ==> rows[i].id !in findings
    requires forall i, j :: 0 <= i < |rows| && 0 <= j < |rows| && rows[i].id == rows[j].id ==> i == j
    ensures var after := Added(findings, rows);
      && after.Keys == findings.Keys + Ids(rows)
      && (forall f :: f in findings ==> after[f] == findings[f])
      && forall i :: 0 <= i < |rows| ==> after[rows[i].id] == rows[i].(clusterId := "")
  {
    if rows != [] {
      var front, last := rows[..|rows| - 1], rows[|rows| - 1];
      assert forall i :: 0 <= i < |front| ==> front[i] == rows[i];
      AddedHolds(findings, front);
      assert Ids(rows) == Ids(front) + {last.id};
    }
  }

  lemma InsertEnters(db: Database, rows: seq<Finding>)
    requires Enters(db, rows)
    ensures Entered(db, rows, Insert(db, rows))
  {
    AddedHolds(db.findings, rows);
  }

  lemma ImportExactly(db: Database, rows: seq<Finding>)
    ensures if Enters(db, rows) then Entered(db, rows, Import(db, rows)) else Import(db, rows) == db
  {
    hide Entered, Insert;
    InsertableIs(db, rows);
    if Enters(db, rows) {
      InsertEnters(db, rows);
    }
  }

  lemma InsertableIs(db: Database, rows: seq<Finding>)
    ensures Insertable(db, rows) <==> Enters(db, rows)
  {
  }

  /** A lease holder adds rows to its own scan only. */
  lemma CreateFindingsExactly(db: Database, rows: seq<Finding>, id: string, token: string)
    ensures var after := CreateFindingsForLease(db, rows, id, token);
      if token != "" && Leased(db, id, token) && Enters(db, rows)
         && (forall row :: row in rows ==> row.scanId == id) then
        Entered(db, rows, after)
      else after == db
  {
    hide Entered, Insert, Enters, Insertable;
    InsertableIs(db, rows);
    if Enters(db, rows) {
      InsertEnters(db, rows);
    }
  }

  lemma DeleteByToolExactly(db: Database, id: string, tool: string, token: string)
    ensures DeleteByTool(db, id, tool, token)
      == if Leased(db, id, token) then
           Set(db, id, Moved(db.scans[id]))
             .(findings :=
                 map f | f in db.findings && (db.findings[f].scanId != id || db.findings[f].toolName != tool) ::
                 if db.findings[f].scanId == id then db.findings[f].(clusterId := "") else db.findings[f])
         else db
  {
  }

  lemma UpdateFindingExactly(db: Database, f: Finding)
    ensures UpdateFinding(db, f)
      == if f.id in db.findings && db.findings[f.id].scanId in db.scans then
           var stored := db.findings[f.id];
           Set(db, stored.scanId, Moved(db.scans[stored.scanId]))
             .(findings := db.findings[f.id :=
                 Finding(stored.id, stored.scanId, stored.repoId, stored.toolName, stored.clusterId, f.key,
                         stored.status, f.suppressed, stored.severity, f.details)])
         else db
  {
  }

  /** The policy is captured once; it only ever hides rows of its scan. */
  lemma CapturePolicyExactly(db: Database, id: string, token: string, policy: string, hides: Finding -> bool)
    ensures CapturePolicy(db, id, token, policy, hides)
      == if Leased(db, id, token) && db.scans[id].ignorePolicy == "" then
           Set(db, id, Moved(db.scans[id]).(ignorePolicy := policy))
             .(findings := map f | f in db.findings ::
                 if db.findings[f].scanId == id && hides(db.findings[f]) then db.findings[f].(suppressed := true)
                 else db.findings[f])
         else db
  {
    if Leased(db, id, token) && db.scans[id].ignorePolicy == "" {
      assert Hidden(db.findings, id, hides) == map f | f in db.findings ::
        if db.findings[f].scanId == id && hides(db.findings[f]) then db.findings[f].(suppressed := true)
        else db.findings[f];
    }
  }

  /**
   A baseline is recorded while the scan runs under the token, or after it completed cleanly without
   one; the revision moves unless nothing changed and a baseline was recorded before.
  */
  lemma PersistBaselineExactly(db: Database, id: string, token: string, derived: map<string, string>, baseline: string)
    ensures var findings := map f | f in db.findings ::
        if db.findings[f].scanId == id && f in derived then db.findings[f].(details := derived[f])
        else db.findings[f];
      PersistBaseline(db, id, token, derived, baseline)
      == if id !in db.scans || db.scans[id].leaseToken != token || db.scans[id].cancelRequestedAt != None
            || !(db.scans[id].status == Running
                 || (db.scans[id].status == Completed && token == "" && db.scans[id].failureCode == "")) then db
         else if findings == db.findings && db.scans[id].baseline != None then db
         else Set(db, id, Moved(db.scans[id]).(baseline := Some(baseline))).(findings := findings)
  {
    assert Rederived(db.findings, id, derived) == map f | f in db.findings ::
      if db.findings[f].scanId == id && f in derived then db.findings[f].(details := derived[f]) else db.findings[f];
  }

  // ---------- Gates and completion ----------

  lemma UpsertGateExactly(db: Database, g: Gate)
    ensures UpsertGate(db, g)
      == if g.scanId in db.scans && g.findingsRevision == db.scans[g.scanId].findingsRevision
            && g.scanStatus == db.scans[g.scanId].status then
           db.(gates := db.gates[(g.scanId, g.policyId) := g])
         else db
  {
  }

  /** A result is read exactly when it was evaluated on the scan's present findings and status. */
  lemma ReadGateExactly(db: Database, scanId: string, policyId: string, g: Gate)
    ensures ReadGate(db, scanId, policyId) == Some(g) <==>
      && (scanId, policyId) in db.gates && db.gates[(scanId, policyId)] == g && scanId in db.scans
      && g.findingsRevision == db.scans[scanId].findingsRevision && g.scanStatus == db.scans[scanId].status
  {
  }

  /** How a completion is answered, its checks in order, and what it writes. */
  lemma CompleteAnswers(db: Database, s: Scan, g: Gate)
    ensures var answer := Complete(db, s, g);
      if s.status != Completed || s.completedAt == None || s.failureCode != "" || s.cancelRequestedAt != None
         || g.scanId != s.id || g.scanStatus != Completed || g.findingsRevision != s.findingsRevision
         || g.status == "" || g.status == "pending" then answer == Err(InvalidCompletion)
      else if s.id !in db.scans || db.scans[s.id].repoId != s.repoId then answer == Err(NoRows)
      else if !Leased(db, s.id, s.leaseToken) then answer == Err(StaleLease)
      else
        var current := db.scans[s.id];
        if (current.findingsRevision, current.ignorePolicy, current.userId, current.branch, current.sourceKey)
           != (s.findingsRevision, s.ignorePolicy, s.userId, s.branch, s.sourceKey) then answer == Err(StaleFindings)
        else answer == Ok(
          Set(db, s.id, current.(status := Completed, failureCode := "", completedAt := s.completedAt, claimedBy := "",
                                 leaseToken := "", leaseExpiresAt := None, heartbeatAt := None))
            .(gates := db.gates[(s.id, g.policyId) := g]))
  {
  }

  // ---------- Clusters ----------

  /** Open, or without a status, and not suppressed. */
  predicate Shown(f: Finding)
  {
    f.suppressed == false && f.status in {"open", ""}
  }

  /** The chosen row is stored evidence of the scan, under the key given. */
  predicate Stored(db: Database, id: string, p: Finding)
  {
    && p.id in db.findings && p.id != "" && p.scanId == id && db.findings[p.id].scanId == id
    && db.findings[p.id].repoId == p.repoId && db.findings[p.id].key == p.key
  }

  /** The chosen row stands for the row: the same key, and shown when the row is, unless a policy was captured. */
  predicate Serves(db: Database, id: string, p: Finding, f: Finding)
    requires id in db.scans
  {
    && p.key == f.key
    && (p.id in db.findings && db.scans[id].ignorePolicy == "" && Shown(f) ==> Shown(db.findings[p.id]))
  }

  ghost predicate KeysDiffer(primaries: seq<Finding>)
  {
    forall i, j :: 0 <= i < |primaries| && 0 <= j < |primaries| && primaries[i].key == primaries[j].key ==> i == j
  }

  /** Each chosen row is evidence of the scan, no key is chosen twice, and every row is served. */
  ghost predicate Chosen(db: Database, id: string, primaries: seq<Finding>)
    requires id in db.scans
  {
    && (forall p :: p in primaries ==> Stored(db, id, p)) && KeysDiffer(primaries)
    && forall f :: f in db.findings && db.findings[f].scanId == id ==>
         exists p :: p in primaries && Serves(db, id, p, db.findings[f])
  }

  lemma ServesIs(db: Database, id: string, p: Finding, f: Finding)
    requires id in db.scans
    ensures Represents(db, id, p) <==> Stored(db, id, p)
    ensures p.id in db.findings ==>
      (p.key == f.key && (Visible(f) && db.scans[id].ignorePolicy == "" ==> Visible(db.findings[p.id]))
       <==> Serves(db, id, p, f))
  {
  }

  lemma ChosenIs(db: Database, id: string, primaries: seq<Finding>)
    requires id in db.scans
    ensures Partition(db, id, primaries) <==> Chosen(db, id, primaries)
  {
    hide Visible, Represents, Stored, Serves;
    if Partition(db, id, primaries) {
      PartitionIsChosen(db, id, primaries);
    }
    if Chosen(db, id, primaries) {
      ChosenIsPartition(db, id, primaries);
    }
  }

  lemma PartitionIsChosen(db: Database, id: string, primaries: seq<Finding>)
    requires id in db.scans && Partition(db, id, primaries)
    ensures Chosen(db, id, primaries)
  {
    hide Visible, Stored, Serves;
    forall p | p in primaries
      ensures Stored(db, id, p)
    {
      var i :| 0 <= i < |primaries| && primaries[i] == p;
      ServesIs(db, id, primaries[i], p);
    }
    forall f | f in db.findings && db.findings[f].scanId == id
      ensures exists p :: p in primaries && Serves(db, id, p, db.findings[f])
    {
      var i :| 0 <= i < |primaries| && primaries[i].key == db.findings[f].key
        && (Visible(db.findings[f]) && db.scans[id].ignorePolicy == "" ==> Visible(db.findings[primaries[i].id]));
      ServesIs(db, id, primaries[i], db.findings[f]);
      assert primaries[i] in primaries;
    }
  }

  lemma ServedBy(db: Database, id: string, primaries: seq<Finding>, f: Finding) returns (i: nat)
    requires id in db.scans && Chosen(db, id, primaries) && exists p :: p in primaries && Serves(db, id, p, f)
    ensures i < |primaries| && primaries[i].id in db.findings && primaries[i].key == f.key
    ensures Visible(f) && db.scans[id].ignorePolicy == "" ==> Visible(db.findings[primaries[i].id])
  {
    hide Visible, Serves;
    var p :| p in primaries && Serves(db, id, p, f);
    assert Stored(db, id, p);
    i :| 0 <= i < |primaries| && primaries[i] == p;
    ServesIs(db, id, p, f);
  }

  lemma ChosenIsPartition(db: Database, id: string, primaries: seq<Finding>)
    requires id in db.scans && Chosen(db, id, primaries)
    ensures Partition(db, id, primaries)
  {
    hide Visible, Serves, Stored;
    forall i | 0 <= i < |primaries|
      ensures Represents(db, id, primaries[i])
    {
      assert primaries[i] in primaries;
      ServesIs(db, id, primaries[i], primaries[i]);
    }
    forall f | f in db.findings && db.findings[f].scanId == id
      ensures exists i ::
        0 <= i < |primaries| && primaries[i].key == db.findings[f].key
        && (Visible(db.findings[f]) && db.scans[id].ignorePolicy == "" ==> Visible(db.findings[primaries[i].id]))
    {
      var i := ServedBy(db, id, primaries, db.findings[f]);
    }
  }

  /** The row of the scan points to the chosen row of its key. */
  lemma {:induction false} PrimaryForIs(primaries: seq<Finding>, p: Finding)
    requires p in primaries && KeysDiffer(primaries)
    ensures PrimaryFor(primaries, p.key) == p.id
  {
    var i :| 0 <= i < |primaries| && primaries[i] == p;
    if i > 0 {
      assert primaries[0].key != p.key;
      assert primaries[1..][i - 1] == p;
      assert forall k :: 0 <= k < |primaries| - 1 ==> primaries[1..][k] == primaries[k + 1];
      PrimaryForIs(primaries[1..], p);
    }
  }

  /** Finalization under the lease, when no policy is captured: every row points to its key's chosen row. */
  lemma FinalizeClustersExactly(db: Database, id: string, token: string, primaries: seq<Finding>,
      hides: Finding -> bool)
    ensures var after := FinalizeClusters(db, id, token, primaries, hides);
      if !Leased(db, id, token) || !Chosen(db, id, primaries) then after == db
      else
        && after == Set(db, id, Moved(db.scans[id])).(findings := after.findings)
        && after.findings.Keys == db.findings.Keys
        && (forall f :: f in db.findings && db.findings[f].scanId != id ==> after.findings[f] == db.findings[f])
        && (db.scans[id].ignorePolicy == "" ==>
              forall p, f :: p in primaries && f in db.findings ==>
                db.findings[f].scanId == id && db.findings[f].key == p.key ==>
                  after.findings[f] == db.findings[f].(clusterId := p.id))
        && (db.scans[id].ignorePolicy != "" ==>
              after.findings == Reselected(Clustered(db.findings, id, primaries), id, hides))
  {
    hide Partition, Chosen, Reselected;
    if id in db.scans {
      ChosenIs(db, id, primaries);
      if Leased(db, id, token) && Chosen(db, id, primaries) {
        ChosenKeysDiffer(db, id, primaries);
        forall p | p in primaries
          ensures PrimaryFor(primaries, p.key) == p.id
        {
          PrimaryForIs(primaries, p);
        }
        ReselectedElsewhere(Clustered(db.findings, id, primaries), id, hides);
      }
    }
  }

  lemma ChosenKeysDiffer(db: Database, id: string, primaries: seq<Finding>)
    requires id in db.scans && Chosen(db, id, primaries)
    ensures KeysDiffer(primaries)
  {
  }

  lemma ReselectedElsewhere(findings: map<string, Finding>, id: string, hides: Finding -> bool)
    ensures Reselected(findings, id, hides).Keys == findings.Keys
    ensures forall f :: f in findings ==>
      && Reselected(findings, id, hides)[f] == findings[f].(clusterId := Reselected(findings, id, hides)[f].clusterId)
      && (findings[f].scanId != id ==> Reselected(findings, id, hides)[f] == findings[f])
  {
    hide NewPrimary;
  }

  /** Rows of the issue of finding t: its cluster, or itself alone. */
  predicate OfIssue(f: Finding, t: Finding)
  {
    && f.scanId == t.scanId && f.repoId == t.repoId
    && if t.clusterId == "" then f.id == t.id || f.clusterId == t.id
       else f.id == t.clusterId || f.clusterId == t.clusterId
  }

  lemma UpdateClusterStatusExactly(db: Database, id: string, status: string)
    ensures UpdateClusterStatus(db, id, status)
      == if id in db.findings && db.findings[id].scanId in db.scans then
           var t := db.findings[id];
           Set(db, t.scanId, Moved(db.scans[t.scanId]))
             .(findings := map f | f in db.findings ::
                 if OfIssue(db.findings[f], t) then db.findings[f].(status := status) else db.findings[f])
         else db
  {
  }

  /** a is the better primary: shown over hidden, then severer, then the present primary, then the smaller id. */
  predicate Leads(hides: Finding -> bool, root: string, a: Finding, b: Finding)
  {
    var x, y := Shown(a) && !hides(a), Shown(b) && !hides(b);
    if x != y then x
    else if a.severity != b.severity then a.severity > b.severity
    else if a.id == root || b.id == root then b.id != root
    else Less(a.id, b.id)
  }

  lemma AheadIs(hides: Finding -> bool, root: string, a: Finding, b: Finding)
    ensures Ahead(hides, root)(a, b) <==> Leads(hides, root, a, b)
  {
  }

  /** The chosen primary of a cluster leads all other members. */
  lemma NewPrimaryIs(findings: map<string, Finding>, scanId: string, hides: Finding -> bool, root: string)
    requires forall f :: f in findings ==> findings[f].id == f
    requires root in findings && findings[root].scanId == scanId && findings[root].clusterId == root
    ensures var p := NewPrimary(findings, scanId, hides, root);
      && p in findings && findings[p].scanId == scanId && findings[p].clusterId == root
      && forall m :: m in findings && m != p && findings[m].scanId == scanId && findings[m].clusterId == root ==>
           Leads(hides, root, findings[p], findings[m])
  {
    hide Leads, Ahead, Less;
    ClusterOrder(findings, MemberOf(scanId, root), hides, root);
    FirstSome(findings, MemberOf(scanId, root), Ahead(hides, root));
    assert MemberOf(scanId, root)(findings[root]);
    var p := NewPrimary(findings, scanId, hides, root);
    forall m | m in findings && m != p && findings[m].scanId == scanId && findings[m].clusterId == root
      ensures Leads(hides, root, findings[p], findings[m])
    {
      assert MemberOf(scanId, root)(findings[m]);
      AheadIs(hides, root, findings[p], findings[m]);
    }
  }

  lemma LeadsIsOrder(hides: Finding -> bool, root: string, a: Finding, b: Finding, c: Finding)
    ensures Leads(hides, root, a, b) ==> !Leads(hides, root, b, a)
    ensures a.id != b.id ==> Leads(hides, root, a, b) || Leads(hides, root, b, a)
    ensures Leads(hides, root, a, b) && Leads(hides, root, b, c) ==> Leads(hides, root, a, c)
  {
    hide Shown;
    LessTotal(a.id, b.id);
    LessIrreflexive(a.id);
    if Less(a.id, b.id) {
      LessAsymmetric(a.id, b.id);
      if Less(b.id, c.id) {
        LessTransitive(a.id, b.id, c.id);
      }
    }
  }

  lemma ClusterOrder(findings: map<string, Finding>, p: Finding -> bool, hides: Finding -> bool, root: string)
    requires forall f :: f in findings ==> findings[f].id == f
    ensures Orders(findings, p, Ahead(hides, root))
  {
    hide Leads, Ahead;
    forall a, b, c | a in findings && b in findings && c in findings
      ensures a != b ==>
        Ahead(hides, root)(findings[a], findings[b]) || Ahead(hides, root)(findings[b], findings[a])
      ensures Ahead(hides, root)(findings[a], findings[b]) ==> !Ahead(hides, root)(findings[b], findings[a])
      ensures Ahead(hides, root)(findings[a], findings[b]) && Ahead(hides, root)(findings[b], findings[c])
        ==> Ahead(hides, root)(findings[a], findings[c])
    {
      LeadsIsOrder(hides, root, findings[a], findings[b], findings[c]);
      AheadIs(hides, root, findings[a], findings[b]);
      AheadIs(hides, root, findings[b], findings[a]);
      AheadIs(hides, root, findings[b], findings[c]);
      AheadIs(hides, root, findings[a], findings[c]);
    }
  }

  /**
   Reconciling a scan sets its flags to the rules' answer, moves clusters to their new primaries and
   tells of any change.
  */
  lemma ReconcileExactly(db: Database, id: string, suppresses: Finding -> bool, hides: Finding -> bool)
    ensures var flagged := map f | f in db.findings ::
        if db.findings[f].scanId == id then db.findings[f].(suppressed := suppresses(db.findings[f]))
        else db.findings[f];
      var findings := map f | f in flagged ::
        if flagged[f].scanId == id && flagged[f].clusterId != "" then
          flagged[f].(clusterId := NewPrimary(flagged, id, hides, flagged[f].clusterId))
        else flagged[f];
      Reconcile(db, id, suppresses, hides)
      == if id !in db.scans || findings == db.findings then db
         else Set(db, id, Moved(db.scans[id])).(findings := findings)
  {
    hide NewPrimary;
    assert Flagged(db.findings, id, suppresses) == map f | f in db.findings ::
      if db.findings[f].scanId == id then db.findings[f].(suppressed := suppresses(db.findings[f])) else db.findings[f];
  }
}
