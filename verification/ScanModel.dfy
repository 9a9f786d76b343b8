/** Scan, finding and gate rows, and what each transaction of the scan queue and of finding persistence does to them. */
module ScanModel {
  import opened Wrappers
  import opened Text
  import opened Tables

  datatype ScanStatus = Pending | Running | Completed | Failed | Cancelled

  /** baseline is the resolved baseline with its observation time, as one text. */
  datatype Scan = Scan(
    id: string, userId: string, repoId: string, branch: string, sourceKey: string,
    status: ScanStatus, claimedBy: string, leaseToken: string, leaseExpiresAt: Option<int>, heartbeatAt: Option<int>,
    attempt: int, maxAttempts: int, cancelRequestedAt: Option<int>, failureCode: string,
    startedAt: Option<int>, completedAt: Option<int>, createdAt: int,
    findingsRevision: int, ignorePolicy: string, baseline: Option<string>)

  /** key is the cluster key of the stored evidence; details are the columns enrichment writes. */
  datatype Finding = Finding(
    id: string, scanId: string, repoId: string, toolName: string, clusterId: string, key: string,
    status: string, suppressed: bool, severity: int, details: string)

  datatype Gate = Gate(scanId: string, policyId: string, status: string, findingsRevision: int, scanStatus: ScanStatus)

  datatype Database = Database(
    scans: map<string, Scan>,
    findings: map<string, Finding>,
    gates: map<(string, string), Gate>,
    issuedTokens: set<string>)

  datatype ScanError = StaleLease | StaleFindings | NoRows | DuplicateKey | CrossesScope | BadCluster
    | InvalidCompletion

  ghost predicate Valid(db: Database)
  {
    && (forall id :: id in db.scans ==> db.scans[id].id == id)
    && (forall id :: id in db.findings ==> db.findings[id].id == id && Homed(db, db.findings[id]))
  }

  /** A finding belongs to a scan of the same repository. */
  predicate Homed(db: Database, f: Finding)
  {
    f.scanId in db.scans && db.scans[f.scanId].repoId == f.repoId
  }

  // ---------- Leases ----------

  /** WHERE id = ? AND status = 'running' AND lease_token = ? AND cancel_requested_at IS NULL */
  predicate HoldsLease(db: Database, id: string, token: string)
  {
    && id in db.scans && db.scans[id].status.Running? && db.scans[id].leaseToken == token
    && db.scans[id].cancelRequestedAt.None?
  }

  function WithScan(db: Database, id: string, s: Scan): Database
  {
    db.(scans := db.scans[id := s])
  }

  function CreateScan(db: Database, s: Scan): Result<Database, ScanError>
  {
    if s.id in db.scans then Err(DuplicateKey)
    else Ok(WithScan(db, s.id, s.(maxAttempts := if s.maxAttempts <= 0 then 2 else s.maxAttempts)))
  }

  predicate Waiting(s: Scan)
  {
    s.status.Pending? && s.cancelRequestedAt.None?
  }

  function Claim(db: Database, id: string, worker: string, token: string, until: int, now: int): Database
    requires id in db.scans
  {
    var s := db.scans[id];
    WithScan(db, id, s.(status := Running, claimedBy := worker, leaseToken := token, leaseExpiresAt := Some(until),
                    heartbeatAt := Some(now), attempt := s.attempt + 1, failureCode := "", completedAt := None,
                    startedAt := if s.startedAt.Some? then s.startedAt else Some(now)))
      .(issuedTokens := db.issuedTokens + {token})
  }

  /** StartScanExecution: an empty token starts a scan that no worker claimed. */
  predicate Starts(db: Database, id: string, token: string)
  {
    if token == "" then id in db.scans && Waiting(db.scans[id]) else HoldsLease(db, id, token)
  }

  function Start(db: Database, id: string, token: string, at: int): Database
  {
    if Starts(db, id, token) then
      WithScan(db, id, db.scans[id].(status := Running,
                                 startedAt := if db.scans[id].startedAt.Some? then db.scans[id].startedAt
                                   else Some(at)))
    else db
  }

  predicate Beats(db: Database, id: string, token: string)
  {
    id in db.scans && db.scans[id].leaseToken == token && db.scans[id].status.Running?
  }

  function Heartbeat(db: Database, id: string, token: string, until: int, now: int): Database
  {
    if Beats(db, id, token) then
      WithScan(db, id, db.scans[id].(heartbeatAt := Some(now), leaseExpiresAt := Some(until))) else db
  }

  /** The columns finalization takes from the worker's copy of the scan. */
  datatype Outcome = Outcome(status: ScanStatus, failureCode: string, completedAt: Option<int>)

  predicate Terminal(s: ScanStatus)
  {
    s.Completed? || s.Failed? || s.Cancelled?
  }

  function Finalize(db: Database, id: string, token: string, outcome: Outcome): Database
  {
    if HoldsLease(db, id, token) then
      WithScan(db, id,
        db.scans[id].(status := outcome.status, failureCode := outcome.failureCode, completedAt := outcome.completedAt,
                                 claimedBy := "", leaseToken := "", leaseExpiresAt := None, heartbeatAt := None))
    else db
  }

  predicate Expired(s: Scan, now: int)
  {
    s.status.Running? && s.leaseExpiresAt.Some? && s.leaseExpiresAt.value < now
  }

  function Retryable(now: int): Scan -> bool
  {
    (s: Scan) => Expired(s, now) && s.attempt < s.maxAttempts
  }

  function Exhausted(now: int): Scan -> bool
  {
    (s: Scan) => Expired(s, now) && s.attempt >= s.maxAttempts
  }

  function Requeued(): Scan -> Scan
  {
    (s: Scan) => s.(status := Pending, claimedBy := "", leaseToken := "", leaseExpiresAt := None, heartbeatAt := None,
                    failureCode := "worker_lost")
  }

  function WorkerLost(now: int): Scan -> Scan
  {
    (s: Scan) =>
      s.(status := Failed, claimedBy := "", leaseToken := "", leaseExpiresAt := None, failureCode := "worker_lost",
                    completedAt := Some(now))
  }

  /** Two statements: requeue what still has attempts left, then fail the rest. */
  function Reclaim(db: Database, now: int): Database
  {
    db.(scans := Rewritten(Rewritten(db.scans, Retryable(now), Requeued()), Exhausted(now), WorkerLost(now)))
  }

  function Cancel(db: Database, id: string, at: int): Database
  {
    if id in db.scans && (db.scans[id].status.Pending? || db.scans[id].status.Running?) then
      WithScan(db, id, db.scans[id].(status := Cancelled, cancelRequestedAt := Some(at),
                                 completedAt := if db.scans[id].completedAt.Some? then db.scans[id].completedAt
                                   else Some(at)))
    else db
  }

  function FailCompleted(db: Database, id: string, code: string): Database
  {
    if id in db.scans && db.scans[id].status.Completed? then
      WithScan(db, id, db.scans[id].(status := Failed, failureCode := code))
    else db
  }

  // ---------- Findings ----------

  function FindingsOf(findings: map<string, Finding>, scanId: string): map<string, Finding>
  {
    map id | id in findings && findings[id].scanId == scanId :: findings[id]
  }

  function Advance(db: Database, id: string): Database
    requires id in db.scans
  {
    db.(scans := db.scans[id := db.scans[id].(findingsRevision := db.scans[id].findingsRevision + 1)])
  }

  /** Every row's scan exists, the repositories agree and the ids are new. */
  predicate Insertable(db: Database, rows: seq<Finding>)
  {
    && (forall i :: 0 <= i < |rows| ==> Homed(db, rows[i]) && rows[i].id !in db.findings)
    && (forall i, j :: 0 <= i < j < |rows| ==> rows[i].id != rows[j].id)
  }

  /** Each touched scan advances once, however many of its rows arrive; new rows belong to no cluster. */
  function Insert(db: Database, rows: seq<Finding>): Database
  {
    db.(scans := Touched(db.scans, rows), findings := Added(db.findings, rows))
  }

  function Touched(scans: map<string, Scan>, rows: seq<Finding>): map<string, Scan>
  {
    map id | id in scans :: if Receives(rows, id) then scans[id].(findingsRevision := scans[id].findingsRevision + 1)
      else scans[id]
  }

  predicate Receives(rows: seq<Finding>, id: string)
  {
    exists i :: 0 <= i < |rows| && rows[i].scanId == id
  }

  function Added(findings: map<string, Finding>, rows: seq<Finding>): map<string, Finding>
  {
    if rows == [] then findings
    else Added(findings, rows[..|rows| - 1])[rows[|rows| - 1].id := rows[|rows| - 1].(clusterId := "")]
  }

  function Import(db: Database, rows: seq<Finding>): Database
  {
    if Insertable(db, rows) then Insert(db, rows) else db
  }

  function CreateFindingsForLease(db: Database, rows: seq<Finding>, id: string, token: string): Database
  {
    if Admits(db, rows, id, token) then Insert(db, rows) else db
  }

  /** Only the lease holder adds rows, and only to its own scan. */
  predicate Admits(db: Database, rows: seq<Finding>, id: string, token: string)
  {
    token != "" && (forall i :: 0 <= i < |rows| ==> rows[i].scanId == id) && HoldsLease(db, id, token)
      && Insertable(db, rows)
  }

  function DeleteByTool(db: Database, id: string, tool: string, token: string): Database
  {
    if HoldsLease(db, id, token) then Advance(db.(findings := Kept(db.findings, id, tool)), id) else db
  }

  /** Memberships of the scan are dissolved and the tool's rows are gone. */
  function Kept(findings: map<string, Finding>, id: string, tool: string): map<string, Finding>
  {
    map f | f in findings && !(findings[f].scanId == id && findings[f].toolName == tool) ::
      if findings[f].scanId == id then findings[f].(clusterId := "") else findings[f]
  }

  /** updateFindingWithRevision: identity, membership and triage status stay as stored. */
  function UpdateFinding(db: Database, f: Finding): Database
  {
    if f.id in db.findings && db.findings[f.id].scanId in db.scans then
      Advance(db.(findings := db.findings[f.id := Enriched(db.findings[f.id], f)]), db.findings[f.id].scanId)
    else db
  }

  function Enriched(stored: Finding, f: Finding): Finding
  {
    stored.(key := f.key, suppressed := f.suppressed, details := f.details)
  }

  /** captureScanIgnorePolicy: once, under the lease; hides says which findings the policy suppresses. */
  function CapturePolicy(db: Database, id: string, token: string, policy: string, hides: Finding -> bool): Database
  {
    if HoldsLease(db, id, token) && db.scans[id].ignorePolicy == "" then
      WithPolicy(Advance(db.(findings := Hidden(db.findings, id, hides)), id), id, policy)
    else db
  }

  function Hidden(findings: map<string, Finding>, id: string, hides: Finding -> bool): map<string, Finding>
  {
    map f | f in findings ::
      if findings[f].scanId == id then findings[f].(suppressed := findings[f].suppressed || hides(findings[f]))
                             else findings[f]
  }

  function WithPolicy(db: Database, id: string, policy: string): Database
    requires id in db.scans
  {
    db.(scans := db.scans[id := db.scans[id].(ignorePolicy := policy)])
  }

  function Rederived(findings: map<string, Finding>, id: string, derived: map<string, string>): map<string, Finding>
  {
    map f | f in findings ::
      if findings[f].scanId == id && f in derived then findings[f].(details := derived[f]) else findings[f]
  }

  /**
   persistFindingBaseline: the derived columns are details here. The baseline is recorded and the revision
   moves when a row changed, or the baseline was not resolved before.
  */
  function PersistBaseline(db: Database, id: string, token: string, derived: map<string, string>,
      baseline: string): Database
  {
    if MayDerive(db, id, token) then
      var findings := Rederived(db.findings, id, derived);
      if findings == db.findings && db.scans[id].baseline.Some? then db
      else Advance(WithScan(db.(findings := findings), id, db.scans[id].(baseline := Some(baseline))), id)
    else db
  }

  predicate MayDerive(db: Database, id: string, token: string)
  {
    && id in db.scans && db.scans[id].cancelRequestedAt.None? && db.scans[id].leaseToken == token
    && (db.scans[id].status.Running?
      || (db.scans[id].status.Completed? && token == "" && db.scans[id].failureCode == ""))
  }

  // ---------- Gates ----------

  function UpsertGate(db: Database, g: Gate): Database
  {
    if g.scanId in db.scans && db.scans[g.scanId].findingsRevision == g.findingsRevision
      && db.scans[g.scanId].status == g.scanStatus then
      db.(gates := db.gates[(g.scanId, g.policyId) := g])
    else db
  }

  /** The join of the read: only a result for the scan's present revision and status is returned. */
  function ReadGate(db: Database, scanId: string, policyId: string): Option<Gate>
  {
    if (scanId, policyId) in db.gates && scanId in db.scans
       && db.scans[scanId].findingsRevision == db.gates[(scanId, policyId)].findingsRevision
       && db.scans[scanId].status == db.gates[(scanId, policyId)].scanStatus then
      Some(db.gates[(scanId, policyId)])
    else None
  }

  /** completeScan on the caller's copy s of the scan: publish only against the snapshot the gate was evaluated on. */
  function Complete(db: Database, s: Scan, g: Gate): Result<Database, ScanError>
  {
    if !Completes(s, g) then Err(InvalidCompletion)
    else if s.id !in db.scans || db.scans[s.id].repoId != s.repoId then Err(NoRows)
    else if !HoldsLease(db, s.id, s.leaseToken) then Err(StaleLease)
    else if !SameSnapshot(db.scans[s.id], s) then Err(StaleFindings)
    else
      var done := Finalize(db, s.id, s.leaseToken, Outcome(s.status, s.failureCode, s.completedAt));
      Ok(done.(gates := done.gates[(g.scanId, g.policyId) := g]))
  }

  predicate Completes(s: Scan, g: Gate)
  {
    && s.status.Completed? && s.completedAt.Some? && s.failureCode == "" && s.cancelRequestedAt.None?
    && g.scanStatus.Completed? && g.scanId == s.id && g.findingsRevision == s.findingsRevision
    && g.status != "pending" && g.status != ""
  }

  predicate SameSnapshot(current: Scan, s: Scan)
  {
    && current.findingsRevision == s.findingsRevision && current.ignorePolicy == s.ignorePolicy
    && current.userId == s.userId && current.branch == s.branch && current.sourceKey == s.sourceKey
  }

  // ---------- Clusters ----------

  /** finalizeFindingClusters: primaries are the chosen representatives, one for each cluster key of the scan. */
  predicate Partition(db: Database, id: string, primaries: seq<Finding>)
  {
    && (forall i :: 0 <= i < |primaries| ==> Represents(db, id, primaries[i]))
    && (forall i, j :: 0 <= i < j < |primaries| ==> primaries[i].key != primaries[j].key)
    && (forall f :: f in db.findings && db.findings[f].scanId == id ==>
          exists i :: 0 <= i < |primaries| && primaries[i].key == db.findings[f].key
            && (Visible(db.findings[f]) && db.scans[id].ignorePolicy == "" ==> Visible(db.findings[primaries[i].id])))
  }

  predicate Represents(db: Database, id: string, p: Finding)
  {
    && id in db.scans && p.id in db.findings && p.id != "" && db.findings[p.id].scanId == id && p.scanId == id
    && p.repoId == db.findings[p.id].repoId && db.findings[p.id].key == p.key
  }

  predicate Visible(f: Finding)
  {
    !f.suppressed && (f.status == "open" || f.status == "")
  }

  function PrimaryFor(primaries: seq<Finding>, key: string): string
  {
    if primaries == [] then "" else if primaries[0].key == key then primaries[0].id else PrimaryFor(primaries[1..], key)
  }

  function Clustered(findings: map<string, Finding>, id: string, primaries: seq<Finding>): map<string, Finding>
  {
    map f | f in findings ::
      if findings[f].scanId == id then findings[f].(clusterId := PrimaryFor(primaries, findings[f].key))
      else findings[f]
  }

  /** Triage through any member applies to the whole issue. */
  function Root(f: Finding): string
  {
    Or(f.clusterId, f.id)
  }

  predicate SameIssue(f: Finding, target: Finding)
  {
    && f.scanId == target.scanId && f.repoId == target.repoId
    && (f.id == Root(target) || f.clusterId == Root(target))
  }

  function UpdateClusterStatus(db: Database, id: string, status: string): Database
  {
    if id in db.findings && db.findings[id].scanId in db.scans then
      var target := db.findings[id];
      Advance(db.(findings := map f | f in db.findings ::
        if SameIssue(db.findings[f], target) then db.findings[f].(status := status)
                                                          else db.findings[f]), target.scanId)
    else db
  }

  // ---------- Primary reselection ----------

  function MemberOf(scanId: string, root: string): Finding -> bool
  {
    (f: Finding) => f.scanId == scanId && f.clusterId == root
  }

  /** PreferPrimary on projected visibility. */
  predicate Prefer(hides: Finding -> bool, candidate: Finding, current: Finding)
  {
    var a, b := Visible(candidate) && !hides(candidate), Visible(current) && !hides(current);
    (a && !b) || (a == b && candidate.severity > current.severity)
  }

  /** The better representative; the present primary wins ties, then the smaller id. */
  function Ahead(hides: Finding -> bool, root: string): (Finding, Finding) -> bool
  {
    (a: Finding, b: Finding) =>
      Prefer(hides, a, b)
      || (!Prefer(hides, b, a) && b.id != root && (a.id == root || Less(a.id, b.id)))
  }

  ghost function NewPrimary(findings: map<string, Finding>, scanId: string, hides: Finding -> bool,
      root: string): string
  {
    var first := First(findings, MemberOf(scanId, root), Ahead(hides, root));
    if first.Some? then first.value else root
  }

  ghost function Reselected(findings: map<string, Finding>, scanId: string,
      hides: Finding -> bool): map<string, Finding>
  {
    map f | f in findings ::
      if findings[f].scanId == scanId && findings[f].clusterId != "" then
        findings[f].(clusterId := NewPrimary(findings, scanId, hides, findings[f].clusterId))
      else findings[f]
  }

  /**
   The reconciliation of one scan after a rule change: flags, then primaries; the revision moves
   when anything changed.
  */
  ghost function Reconcile(db: Database, scanId: string, suppresses: Finding -> bool, hides: Finding -> bool): Database
  {
    if scanId !in db.scans then db
    else
      var flagged := Flagged(db.findings, scanId, suppresses);
      var findings := Reselected(flagged, scanId, hides);
      if findings == db.findings then db else Advance(db.(findings := findings), scanId)
  }

  function Flagged(findings: map<string, Finding>, scanId: string, suppresses: Finding -> bool): map<string, Finding>
  {
    map f | f in findings :: if findings[f].scanId == scanId then findings[f].(suppressed := suppresses(findings[f]))
      else findings[f]
  }

  ghost function FinalizeClusters(db: Database, id: string, token: string, primaries: seq<Finding>,
      hides: Finding -> bool): Database
  {
    if HoldsLease(db, id, token) && Partition(db, id, primaries) then
      var clustered := Clustered(db.findings, id, primaries);
      Advance(db.(findings := if db.scans[id].ignorePolicy == "" then clustered else Reselected(clustered, id, hides)),
        id)
    else db
  }
}
