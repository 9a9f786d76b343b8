/**
 The store methods of scans, findings, clusters and gates, statement by statement. A transaction
 works on a copy of the tables and commits it, so it takes effect as a whole or not at all; rows are
 visited in no particular order. Each method is proved to be the transaction `ScanModel` specifies.
*/
module ScanStore {
  import opened Wrappers
  import opened Text
  import opened Tables
  import opened ScanModel
  import opened ScanRuns
  import opened FindingRuns
  import opened ClusterRuns

  class PostgresStore {
    var db: Database

    // ---------- Queue ----------

    /** The oldest waiting scan; rows created at the same time come in any order. */
    method ClaimNextScan(worker: string, token: string, until: int, now: int) returns (claimed: Option<Scan>)
      requires Valid(db)
      modifies this
      ensures claimed.None? ==> db == old(db) && forall id :: id in db.scans ==> !Waiting(db.scans[id])
      ensures claimed.Some? ==>
        var id := claimed.value.id;
        && id in old(db).scans && Waiting(old(db).scans[id])
        && (forall other :: other in old(db).scans && Waiting(old(db).scans[other]) ==>
          old(db).scans[id].createdAt <= old(db).scans[other].createdAt)
        && db == Claim(old(db), id, worker, token, until, now) && claimed.value == db.scans[id]
    {
      var waiting := SelectWhere(db.scans, (s: Scan) => Waiting(s));
      if waiting == {} {
        assert forall id :: id in db.scans && Waiting(db.scans[id]) ==> id in waiting;
        return None;
      }
      var id :| id in waiting;
      var todo := waiting;
      while todo != {}
        invariant todo <= waiting && id in waiting
        invariant forall other :: other in waiting && other !in todo ==>
          db.scans[id].createdAt <= db.scans[other].createdAt
        decreases todo
      {
        var other :| other in todo;
        if db.scans[other].createdAt < db.scans[id].createdAt {
          id := other;
        }
        todo := todo - {other};
      }
      assert forall other :: other in db.scans && Waiting(db.scans[other]) ==> other in waiting;
      var s := db.scans[id];
      if s.startedAt.None? {
        s := s.(startedAt := Some(now));
      }
      s := s.(status := Running, claimedBy := worker, leaseToken := token, leaseExpiresAt := Some(until),
              heartbeatAt := Some(now), attempt := s.attempt + 1, failureCode := "", completedAt := None);
      db := WithScan(db, id, s).(issuedTokens := db.issuedTokens + {token});
      claimed := Some(s);
    }

    method StartScanExecution(id: string, token: string, at: int) returns (started: bool)
      modifies this
      ensures db == Start(old(db), id, token, at) && (started <==> Starts(old(db), id, token))
    {
      if token == "" {
        started := id in db.scans && db.scans[id].status.Pending? && db.scans[id].cancelRequestedAt.None?;
      } else {
        started := HoldsLease(db, id, token);
      }
      if started {
        var s := db.scans[id];
        if s.startedAt.None? {
          s := s.(startedAt := Some(at));
        }
        db := WithScan(db, id, s.(status := Running));
      }
    }

    method HeartbeatScanLease(id: string, token: string, until: int, now: int) returns (held: bool)
      modifies this
      ensures db == Heartbeat(old(db), id, token, until, now) && (held <==> Beats(old(db), id, token))
    {
      held := Beats(db, id, token);
      if held {
        db := WithScan(db, id, db.scans[id].(heartbeatAt := Some(now), leaseExpiresAt := Some(until)));
      }
    }

    method FinalizeScan(id: string, token: string, outcome: Outcome) returns (finalized: bool)
      modifies this
      ensures db == Finalize(old(db), id, token, outcome) && (finalized <==> HoldsLease(old(db), id, token))
    {
      finalized := HoldsLease(db, id, token);
      if finalized {
        db := WithScan(db, id, db.scans[id].(status := outcome.status, failureCode := outcome.failureCode,
                                             completedAt := outcome.completedAt, claimedBy := "", leaseToken := "",
                                             leaseExpiresAt := None, heartbeatAt := None));
      }
    }

    /** Returns how many scans were requeued or failed. */
    method ReclaimStaleScans(now: int) returns (n: nat)
      modifies this
      ensures db == Reclaim(old(db), now)
      ensures n == |set id | id in old(db).scans && Expired(old(db).scans[id], now)|
    {
      var retryable := SelectWhere(db.scans, Retryable(now));
      var requeued := UpdateWhere(db.scans, Retryable(now), Requeued());
      var exhausted := SelectWhere(requeued, Exhausted(now));
      var failed := UpdateWhere(requeued, Exhausted(now), WorkerLost(now));
      assert retryable == set id | id in db.scans && Retryable(now)(db.scans[id]);
      assert exhausted == set id | id in requeued && Exhausted(now)(requeued[id]);
      ExpiredSplit(db.scans, now);
      n := |retryable| + |exhausted|;
      db := db.(scans := failed);
    }

    method RequestScanCancellation(id: string, at: int)
      modifies this
      ensures db == Cancel(old(db), id, at)
    {
      if id in db.scans && (db.scans[id].status.Pending? || db.scans[id].status.Running?) {
        var s := db.scans[id];
        if s.completedAt.None? {
          s := s.(completedAt := Some(at));
        }
        db := WithScan(db, id, s.(status := Cancelled, cancelRequestedAt := Some(at)));
      }
    }

    // ---------- Findings ----------

    method DeleteFindingsByScanTool(id: string, tool: string, token: string) returns (error: Option<ScanError>)
      modifies this
      ensures db == DeleteByTool(old(db), id, tool, token) && (error.None? <==> HoldsLease(old(db), id, token))
    {
      if !HoldsLease(db, id, token) {
        return Some(StaleLease);
      }
      var findings := UpdateWhere(db.findings, (f: Finding) => f.scanId == id, (f: Finding) => f.(clusterId := ""));
      var doomed := SelectWhere(findings, (f: Finding) => f.scanId == id && f.toolName == tool);
      findings := findings - doomed;
      assert findings == Kept(db.findings, id, tool);
      db := Advance(db.(findings := findings), id);
      error := None;
    }

    method CreateFindingsForScanLease(rows: seq<Finding>, id: string, token: string) returns (created: bool)
      modifies this
      ensures db == CreateFindingsForLease(old(db), rows, id, token)
      ensures created <==> Admits(old(db), rows, id, token)
    {
      if token == "" {
        return false;
      }
      for i := 0 to |rows|
        invariant forall k :: 0 <= k < i ==> rows[k].scanId == id
      {
        if rows[i].scanId != id {
          return false;
        }
      }
      if !HoldsLease(db, id, token) {
        return false;
      }
      var tx := InsertFindings(db, rows);
      if tx.Err? {
        return false;
      }
      db := tx.value;
      created := true;
    }

    /** insertFindingsTx: the revisions first, one for each touched scan, then the rows. */
    static method InsertFindings(db: Database, rows: seq<Finding>) returns (tx: Result<Database, ScanError>)
      ensures tx.Ok? <==> Insertable(db, rows)
      ensures tx.Ok? ==> tx.value == Insert(db, rows)
    {
      hide Touched, Added;
      var scans := AdvanceTouched(db.scans, rows);
      if scans.Err? {
        return Err(scans.error);
      }
      for i := 0 to |rows|
        invariant forall k :: 0 <= k < i ==> Homed(db, rows[k])
      {
        assert rows[i].scanId in db.scans;
        if db.scans[rows[i].scanId].repoId != rows[i].repoId {
          return Err(CrossesScope);
        }
      }
      var findings := InsertRows(db.findings, rows);
      if findings.Err? {
        return Err(findings.error);
      }
      tx := Ok(db.(scans := scans.value, findings := findings.value));
    }

    static method InsertRows(findings: map<string, Finding>, rows: seq<Finding>)
      returns (r: Result<map<string, Finding>, ScanError>)
      ensures r.Ok? <==> NewIds(findings, rows)
      ensures r.Ok? ==> r.value == Added(findings, rows)
    {
      hide Added, NewIds;
      var out := findings;
      NothingAdded(findings);
      for i := 0 to |rows|
        invariant out == Added(findings, rows[..i]) && NewIds(findings, rows[..i])
      {
        assert rows[..i + 1] == rows[..i] + [rows[i]];
        OneMoreRow(findings, rows[..i], rows[i]);
        if rows[i].id in out {
          if NewIds(findings, rows) {
            NewIdsInFront(findings, rows, i + 1);
          }
          return Err(DuplicateKey);
        }
        out := out[rows[i].id := rows[i].(clusterId := "")];
      }
      assert rows[..|rows|] == rows;
      r := Ok(out);
    }

    /** The scan ids are compacted, so however many rows a scan receives its revision moves once. */
    static method AdvanceTouched(scans: map<string, Scan>, rows: seq<Finding>)
      returns (r: Result<map<string, Scan>, ScanError>)
      ensures r.Ok? <==> forall i :: 0 <= i < |rows| ==> rows[i].scanId in scans
      ensures r.Ok? ==> r.value == Touched(scans, rows)
    {
      hide Receives, Touched;
      var touched := set row | row in rows :: row.scanId;
      TouchedScans(rows, touched);
      var todo, out := touched, scans;
      while todo != {}
        invariant todo <= touched && out.Keys == scans.Keys
        invariant forall id :: id in touched && id !in todo ==> id in scans
        invariant forall id :: id in scans ==>
          out[id] == if id in touched && id !in todo then
            scans[id].(findingsRevision := scans[id].findingsRevision + 1) else scans[id]
        decreases todo
      {
        var id :| id in todo;
        if id !in scans {
          SomeRow(rows, id);
          return Err(NoRows);
        }
        out := out[id := out[id].(findingsRevision := out[id].findingsRevision + 1)];
        todo := todo - {id};
      }
      assert forall i :: 0 <= i < |rows| ==> rows[i] in rows;
      TouchedAdvanced(scans, rows, touched, out);
      r := Ok(out);
    }

    method UpdateFindingWithRevision(f: Finding) returns (error: Option<ScanError>)
      modifies this
      ensures db == UpdateFinding(old(db), f)
      ensures error.None? <==> f.id in old(db).findings && old(db).findings[f.id].scanId in old(db).scans
    {
      if f.id !in db.findings || db.findings[f.id].scanId !in db.scans {
        return Some(NoRows);
      }
      var tx := Advance(db, db.findings[f.id].scanId);
      db := tx.(findings := tx.findings[f.id := Enriched(tx.findings[f.id], f)]);
      error := None;
    }

    method CaptureScanIgnorePolicy(id: string, token: string, policy: string, hides: Finding -> bool)
      returns (error: Option<ScanError>)
      modifies this
      ensures db == CapturePolicy(old(db), id, token, policy, hides)
      ensures (error.None? <==> HoldsLease(old(db), id, token))
    {
      if !HoldsLease(db, id, token) {
        return Some(StaleLease);
      }
      if db.scans[id].ignorePolicy == "" {
        var findings := HideFindings(db.findings, id, hides);
        db := WithPolicy(Advance(db.(findings := findings), id), id, policy);
      }
      error := None;
    }

    static method HideFindings(findings: map<string, Finding>, id: string, hides: Finding -> bool)
      returns (out: map<string, Finding>)
      ensures out == Hidden(findings, id, hides)
    {
      var todo := SelectWhere(findings, (f: Finding) => f.scanId == id);
      ghost var evidence := todo;
      out := findings;
      while todo != {}
        invariant todo <= evidence && out.Keys == findings.Keys
        invariant forall f :: f in findings ==>
          out[f] == if f in evidence && f !in todo then
            findings[f].(suppressed := findings[f].suppressed || hides(findings[f])) else findings[f]
        decreases todo
      {
        var f :| f in todo;
        if hides(out[f]) {
          out := out[f := out[f].(suppressed := true)];
        }
        todo := todo - {f};
      }
      assert forall f :: f in findings ==> (f in evidence <==> findings[f].scanId == id);
    }

    // ---------- Gates ----------

    method UpsertQualityGateResult(g: Gate) returns (error: Option<ScanError>)
      modifies this
      ensures db == UpsertGate(old(db), g)
      ensures error.None? ==> ReadGate(db, g.scanId, g.policyId) == Some(g)
      ensures error.Some? <==> g.scanId in db.scans ==>
        db.scans[g.scanId].findingsRevision != g.findingsRevision || db.scans[g.scanId].status != g.scanStatus
    {
      if g.scanId !in db.scans || db.scans[g.scanId].findingsRevision != g.findingsRevision
        || db.scans[g.scanId].status != g.scanStatus {
        return Some(StaleFindings);
      }
      db := db.(gates := db.gates[(g.scanId, g.policyId) := g]);
      error := None;
    }

    /** The refusals come in this order; a lost lease is reported without an error. */
    method CompleteScan(s: Scan, g: Gate) returns (r: Result<bool, ScanError>)
      modifies this
      ensures var spec := Complete(old(db), s, g);
        && db == (if spec.Ok? then spec.value else old(db))
        && r == (if spec.Ok? then Ok(true) else if spec.error.StaleLease? then Ok(false) else Err(spec.error))
    {
      if !Completes(s, g) {
        return Err(InvalidCompletion);
      }
      if s.id !in db.scans || db.scans[s.id].repoId != s.repoId {
        return Err(NoRows);
      }
      var current := db.scans[s.id];
      if !current.status.Running? || current.leaseToken != s.leaseToken || current.cancelRequestedAt.Some? {
        return Ok(false);
      }
      if current.findingsRevision != s.findingsRevision || current.ignorePolicy != s.ignorePolicy {
        return Err(StaleFindings);
      }
      if current.userId != s.userId || current.branch != s.branch || current.sourceKey != s.sourceKey {
        return Err(StaleFindings);
      }
      var tx :=
        WithScan(db, s.id, current.(status := s.status, failureCode := s.failureCode, completedAt := s.completedAt,
                                            claimedBy := "", leaseToken := "", leaseExpiresAt := None,
                                            heartbeatAt := None));
      db := tx.(gates := tx.gates[(g.scanId, g.policyId) := g]);
      r := Ok(true);
    }

    // ---------- Clusters ----------

    method UpdateFindingClusterStatus(id: string, status: string) returns (error: Option<ScanError>)
      modifies this
      ensures db == UpdateClusterStatus(old(db), id, status)
      ensures error.None? <==> id in old(db).findings && old(db).findings[id].scanId in old(db).scans
    {
      if id !in db.findings || db.findings[id].scanId !in db.scans {
        return Some(NoRows);
      }
      var target := db.findings[id];
      var findings :=
        UpdateWhere(db.findings, (f: Finding) => SameIssue(f, target), (f: Finding) => f.(status := status));
      assert findings == UpdateClusterStatus(db, id, status).findings;
      db := Advance(db.(findings := findings), target.scanId);
      error := None;
    }

    method FinalizeFindingClusters(id: string, token: string, clusters: seq<Finding>, hides: Finding -> bool)
      returns (error: Option<ScanError>)
      requires Valid(db) && Clusters(db.findings)
      modifies this
      ensures db == FinalizeClusters(old(db), id, token, clusters, hides)
      ensures error.None? <==> HoldsLease(old(db), id, token) && Partition(old(db), id, clusters)
      ensures !HoldsLease(old(db), id, token) ==> error == Some(StaleLease)
    {
      if !HoldsLease(db, id, token) {
        return Some(StaleLease);
      }
      var chosen := ChosenPrimaries(db, id, clusters);
      if chosen.Err? {
        return Some(chosen.error);
      }
      var grouped := AssignClusters(db, id, clusters, chosen.value);
      if grouped.Err? {
        return Some(grouped.error);
      }
      var findings := grouped.value;
      if db.scans[id].ignorePolicy != "" {
        ClusteredKeeps(db, id, clusters);
        findings := ReselectPrimaries(findings, id, hides);
      }
      db := Advance(db.(findings := findings), id);
      error := None;
    }

    /**
     The map from cluster key to primary id, refused when a primary is not evidence of the scan or
     a key comes twice.
    */
    static method ChosenPrimaries(db: Database, id: string, clusters: seq<Finding>)
      returns (r: Result<map<string, string>, ScanError>)
      requires id in db.scans
      ensures r.Ok? <==> Distinct(db, id, clusters)
      ensures r.Ok? ==> Assigns(r.value, clusters)
    {
      hide Represents;
      var primary: map<string, string> := map[];
      for i := 0 to |clusters|
        invariant Distinct(db, id, clusters[..i]) && Assigns(primary, clusters[..i])
      {
        var f := clusters[i];
        assert clusters[..i + 1] == clusters[..i] + [f];
        var matches := MatchesEvidence(db, id, f);
        if !matches {
          return Err(BadCluster);
        }
        if f.key in primary {
          var k :| 0 <= k < i && clusters[..i][k].key == f.key;
          assert clusters[k].key == clusters[i].key;
          return Err(BadCluster);
        }
        primary := primary[f.key := f.id];
      }
      assert clusters[..|clusters|] == clusters;
      r := Ok(primary);
    }

    static method MatchesEvidence(db: Database, id: string, f: Finding) returns (matches: bool)
      requires id in db.scans
      ensures matches <==> Represents(db, id, f)
    {
      if f.id !in db.findings || f.scanId != id || db.findings[f.id].scanId != id {
        return false;
      }
      var stored := db.findings[f.id];
      matches := f.repoId == stored.repoId && stored.key == f.key && f.id != "";
    }

    static method AssignClusters(db: Database, id: string, ghost clusters: seq<Finding>, primary: map<string, string>)
      returns (r: Result<map<string, Finding>, ScanError>)
      requires Valid(db) && id in db.scans && Distinct(db, id, clusters) && Assigns(primary, clusters)
      ensures r.Ok? <==> Partition(db, id, clusters)
      ensures r.Ok? ==> r.value == Clustered(db.findings, id, clusters)
    {
      hide Distinct, Assigns, Represented, Partition, Valid, Member, Clustered;
      var todo := SelectWhere(db.findings, (f: Finding) => f.scanId == id);
      ghost var evidence := todo;
      var findings := db.findings;
      while todo != {}
        invariant todo <= evidence && findings.Keys == db.findings.Keys
        invariant forall f :: f in evidence && f !in todo ==> Represented(db, id, clusters, db.findings[f])
        invariant forall f :: f in db.findings ==>
          findings[f] == if f in evidence && f !in todo then Member(clusters, db.findings[f]) else db.findings[f]
        decreases todo
      {
        var f :| f in todo;
        var root := RepresentativeOf(db, id, clusters, primary, db.findings[f]);
        if root.None? {
          NotRepresented(db, id, clusters, f);
          return Err(BadCluster);
        }
        MemberIs(clusters, findings[f], root.value);
        findings := findings[f := findings[f].(clusterId := root.value)];
        todo := todo - {f};
      }
      assert forall f :: f in db.findings ==> (f in evidence <==> db.findings[f].scanId == id);
      AllRepresented(db, id, clusters);
      MembersAreClustered(db.findings, id, clusters, findings);
      r := Ok(findings);
    }

    /** The primary of a row's key, unless it is missing or no longer represents open evidence. */
    static method RepresentativeOf(db: Database, id: string, ghost clusters: seq<Finding>,
        primary: map<string, string>, row: Finding)
      returns (root: Option<string>)
      requires id in db.scans && Distinct(db, id, clusters) && Assigns(primary, clusters)
      ensures root.Some? <==> Represented(db, id, clusters, row)
      ensures root.Some? ==> root.value == PrimaryFor(clusters, row.key)
    {
      if row.key !in primary {
        return None;
      }
      ghost var i :| 0 <= i < |clusters| && clusters[i].key == row.key;
      PrimaryForKey(clusters, i);
      assert Represents(db, id, clusters[i]);
      if Visible(row) && !Visible(db.findings[primary[row.key]]) && db.scans[id].ignorePolicy == "" {
        OnlyRepresentative(db, id, clusters, i, row);
        return None;
      }
      root := Some(primary[row.key]);
    }

    /** reselectSuppressedClusterPrimariesTx: every cluster has its primary, so the "no primary" error cannot arise. */
    static method ReselectPrimaries(findings: map<string, Finding>, scanId: string, hides: Finding -> bool)
      returns (out: map<string, Finding>)
      requires Clusters(findings) && forall f :: f in findings ==> findings[f].id == f
      ensures out == Reselected(findings, scanId, hides)
    {
      hide NewPrimary, IsPrimary, Clusters;
      var todo := set f | f in findings && findings[f].scanId == scanId
        && findings[f].clusterId != "" :: findings[f].clusterId;
      ghost var roots := todo;
      out := findings;
      while todo != {}
        invariant todo <= roots && out.Keys == findings.Keys
        invariant forall f :: f in findings ==> out[f] == Regrouped(findings, scanId, hides, roots - todo, findings[f])
        decreases todo
      {
        var root :| root in todo;
        RootIsPrimary(findings, scanId, root);
        var chosen := PickPrimary(findings, scanId, hides, root);
        out := MoveMembers(findings, out, scanId, root, chosen);
        todo := todo - {root};
      }
      assert forall f :: f in findings && findings[f].scanId == scanId && findings[f].clusterId != "" ==>
        findings[f].clusterId in roots;
      assert "" !in roots;
    }

    static method PickPrimary(findings: map<string, Finding>, scanId: string, hides: Finding -> bool, root: string)
      returns (chosen: string)
      requires IsPrimary(findings, scanId, root) && forall f :: f in findings ==> findings[f].id == f
      ensures chosen == NewPrimary(findings, scanId, hides, root)
    {
      hide Ahead, IsPrimary, NewPrimary, Leading;
      var ids := SelectWhere(findings, MemberOf(scanId, root));
      var members := SelectOrdered(ids);
      AscendingIsSorted(ids);
      RootIsMember(findings, scanId, root);
      chosen := root;
      RootLeads(findings, hides, root);
      for i := 0 to |members|
        invariant chosen in ids && (chosen == root || chosen in members[..i])
        invariant Leading(findings, hides, root, members[..i], chosen)
      {
        var f := members[i];
        assert f in ids && members[..i + 1] == members[..i] + [f];
        assert chosen == root || Less(chosen, f);
        LeadPasses(findings, hides, root, members[..i], chosen, f);
        if Prefer(hides, findings[f], findings[chosen]) {
          chosen := f;
        }
      }
      assert members[..|members|] == members;
      LeaderIsFirst(findings, scanId, hides, root, members, chosen);
      BestIsNewPrimary(findings, scanId, hides, root, chosen);
    }

    static method MoveMembers(findings: map<string, Finding>, before: map<string, Finding>, scanId: string,
        root: string, chosen: string)
      returns (out: map<string, Finding>)
      requires before.Keys == findings.Keys
      requires forall f :: f in findings && MemberOf(scanId, root)(findings[f]) ==> before[f] == findings[f]
      ensures out.Keys == findings.Keys
      ensures forall f :: f in findings ==>
        out[f] == if MemberOf(scanId, root)(findings[f]) then findings[f].(clusterId := chosen) else before[f]
    {
      out := before;
      if chosen != root {
        var todo := SelectWhere(findings, MemberOf(scanId, root));
        ghost var members := todo;
        while todo != {}
          invariant todo <= members && out.Keys == findings.Keys
          invariant forall f :: f in findings ==>
            out[f] == if f in members && f !in todo then findings[f].(clusterId := chosen) else before[f]
          decreases todo
        {
          var f :| f in todo;
          out := out[f := out[f].(clusterId := chosen)];
          todo := todo - {f};
        }
        assert forall f :: f in findings && MemberOf(scanId, root)(findings[f]) ==> f in members;
      }
    }

    /** One scan of the reconciliation after a suppression rule changed. */
    method ReconcileScan(id: string, suppresses: Finding -> bool, hides: Finding -> bool)
      requires Valid(db) && Clusters(db.findings)
      modifies this
      ensures db == Reconcile(old(db), id, suppresses, hides)
    {
      if id !in db.scans {
        return;
      }
      var flagged := UpdateWhere(db.findings, (f: Finding) => f.scanId == id,
          (f: Finding) => f.(suppressed := suppresses(f)));
      assert flagged == Flagged(db.findings, id, suppresses);
      SameMembershipKeeps(db.findings, flagged);
      var findings := ReselectPrimaries(flagged, id, hides);
      if findings != db.findings {
        db := Advance(db.(findings := findings), id);
      }
    }
  }

  lemma ExpiredSplit(scans: map<string, Scan>, now: int)
    ensures var requeued := Rewritten(scans, Retryable(now), Requeued());
      |set id | id in scans && Retryable(now)(scans[id])| + |set id | id in requeued && Exhausted(now)(requeued[id])|
      == |set id | id in scans && Expired(scans[id], now)|
  {
    var requeued := Rewritten(scans, Retryable(now), Requeued());
    var retryable := set id | id in scans && Retryable(now)(scans[id]);
    var exhausted := set id | id in requeued && Exhausted(now)(requeued[id]);
    assert retryable + exhausted == set id | id in scans && Expired(scans[id], now);
    assert retryable !! exhausted;
  }

  lemma TouchedAdvanced(scans: map<string, Scan>, rows: seq<Finding>, touched: set<string>, out: map<string, Scan>)
    requires out.Keys == scans.Keys && forall id :: id in touched <==> Receives(rows, id)
    requires forall id :: id in scans ==>
      out[id] == if id in touched then scans[id].(findingsRevision := scans[id].findingsRevision + 1) else scans[id]
    ensures out == Touched(scans, rows)
  {
    hide Receives;
  }

  lemma TouchedScans(rows: seq<Finding>, touched: set<string>)
    requires touched == set row | row in rows :: row.scanId
    ensures forall id :: id in touched <==> Receives(rows, id)
  {
    forall id | id in touched
      ensures Receives(rows, id)
    {
      var row :| row in rows && row.scanId == id;
      var i :| 0 <= i < |rows| && rows[i] == row;
    }
  }

  lemma SomeRow(rows: seq<Finding>, id: string)
    requires Receives(rows, id)
    ensures exists i :: 0 <= i < |rows| && rows[i].scanId == id
  {
  }

  ghost predicate NewIds(findings: map<string, Finding>, rows: seq<Finding>)
  {
    && (forall i :: 0 <= i < |rows| ==> rows[i].id !in findings)
    && forall i, j :: 0 <= i < j < |rows| ==> rows[i].id != rows[j].id
  }

  lemma NothingAdded(findings: map<string, Finding>)
    ensures Added(findings, []) == findings && NewIds(findings, [])
  {
  }

  lemma OneMoreRow(findings: map<string, Finding>, rows: seq<Finding>, row: Finding)
    requires NewIds(findings, rows)
    ensures Added(findings, rows + [row]) == Added(findings, rows)[row.id := row.(clusterId := "")]
    ensures NewIds(findings, rows + [row]) <==> row.id !in Added(findings, rows)
  {
    var longer := rows + [row];
    assert longer[..|rows|] == rows;
    AddedRows(findings, rows, row.id);
    if row.id in Added(findings, rows) && row.id !in findings {
      var k :| 0 <= k < |rows| && rows[k].id == row.id;
      assert longer[k].id == longer[|rows|].id;
    }
  }

  lemma NewIdsInFront(findings: map<string, Finding>, rows: seq<Finding>, i: nat)
    requires i <= |rows| && NewIds(findings, rows)
    ensures NewIds(findings, rows[..i])
  {
  }

  /** The row once the clusters in `moved` have their new primaries. */
  ghost function Regrouped(findings: map<string, Finding>, scanId: string,
      hides: Finding -> bool, moved: set<string>, f: Finding): Finding
  {
    if f.scanId == scanId && f.clusterId in moved then
      f.(clusterId := NewPrimary(findings, scanId, hides, f.clusterId)) else f
  }

  lemma RootIsPrimary(findings: map<string, Finding>, scanId: string, root: string)
    requires Clusters(findings)
    requires root in set f | f in findings && findings[f].scanId == scanId
      && findings[f].clusterId != "" :: findings[f].clusterId
    ensures IsPrimary(findings, scanId, root)
  {
    var f :| f in findings && findings[f].scanId == scanId && findings[f].clusterId == root && root != "";
    assert InCluster(findings, findings[f]);
  }

  // ---------- The primaries a caller hands in ----------

  ghost predicate Distinct(db: Database, id: string, clusters: seq<Finding>)
  {
    && (forall i :: 0 <= i < |clusters| ==> Represents(db, id, clusters[i]))
    && forall i, j :: 0 <= i < j < |clusters| ==> clusters[i].key != clusters[j].key
  }

  ghost predicate Assigns(primary: map<string, string>, clusters: seq<Finding>)
  {
    && (forall i :: 0 <= i < |clusters| ==> clusters[i].key in primary && primary[clusters[i].key] == clusters[i].id)
    && forall key :: key in primary ==> exists i :: 0 <= i < |clusters| && clusters[i].key == key
  }

  ghost predicate Represented(db: Database, id: string, clusters: seq<Finding>, f: Finding)
    requires id in db.scans && Distinct(db, id, clusters)
  {
    exists i :: 0 <= i < |clusters| && clusters[i].key == f.key
      && (Visible(f) && db.scans[id].ignorePolicy == "" ==> Visible(db.findings[clusters[i].id]))
  }

  /** The row as a member of its key's cluster. */
  function Member(clusters: seq<Finding>, f: Finding): Finding
  {
    f.(clusterId := PrimaryFor(clusters, f.key))
  }

  lemma MemberIs(clusters: seq<Finding>, f: Finding, root: string)
    requires root == PrimaryFor(clusters, f.key)
    ensures Member(clusters, f) == f.(clusterId := root)
  {
  }

  lemma MembersAreClustered(findings: map<string, Finding>, id: string, clusters: seq<Finding>,
      out: map<string, Finding>)
    requires out.Keys == findings.Keys
    requires forall f :: f in findings ==>
      out[f] == if findings[f].scanId == id then Member(clusters, findings[f]) else findings[f]
    ensures out == Clustered(findings, id, clusters)
  {
  }

  lemma NotRepresented(db: Database, id: string, clusters: seq<Finding>, f: string)
    requires id in db.scans && Distinct(db, id, clusters) && f in db.findings && db.findings[f].scanId == id
    requires !Represented(db, id, clusters, db.findings[f])
    ensures !Partition(db, id, clusters)
  {
  }

  lemma AllRepresented(db: Database, id: string, clusters: seq<Finding>)
    requires id in db.scans && Distinct(db, id, clusters)
    requires forall f :: f in db.findings && db.findings[f].scanId == id ==>
      Represented(db, id, clusters, db.findings[f])
    ensures Partition(db, id, clusters)
  {
    forall f | f in db.findings && db.findings[f].scanId == id
      ensures exists i :: 0 <= i < |clusters| && clusters[i].key == db.findings[f].key
                && (Visible(db.findings[f]) && db.scans[id].ignorePolicy == "" ==> Visible(db.findings[clusters[i].id]))
    {
      assert Represented(db, id, clusters, db.findings[f]);
    }
  }

  lemma OnlyRepresentative(db: Database, id: string, clusters: seq<Finding>, i: nat, f: Finding)
    requires id in db.scans && Distinct(db, id, clusters) && i < |clusters| && clusters[i].key == f.key
    requires Visible(f) && db.scans[id].ignorePolicy == "" && !Visible(db.findings[clusters[i].id])
    ensures !Represented(db, id, clusters, f)
  {
    forall k | 0 <= k < |clusters| && clusters[k].key == f.key
      ensures k == i
    {
    }
  }

  /** The chosen member is ahead of the root and of every member seen. */
  ghost predicate Leading(findings: map<string, Finding>, hides: Finding -> bool, root: string, seen: seq<string>,
      chosen: string)
  {
    && chosen in findings
    && forall m :: (m == root || m in seen) && m != chosen ==>
      m in findings && Ahead(hides, root)(findings[chosen], findings[m])
  }

  lemma RootLeads(findings: map<string, Finding>, hides: Finding -> bool, root: string)
    requires root in findings
    ensures Leading(findings, hides, root, [], root)
  {
  }

  lemma LeadPasses(findings: map<string, Finding>, hides: Finding -> bool, root: string, seen: seq<string>,
      chosen: string, f: string)
    requires Leading(findings, hides, root, seen, chosen) && f in findings && (chosen == root || Less(chosen, f))
    requires findings[f].id == f && findings[chosen].id == chosen
    ensures Leading(findings, hides, root, seen + [f],
      if Prefer(hides, findings[f], findings[chosen]) then f else chosen)
  {
    hide Prefer, Less;
    if Prefer(hides, findings[f], findings[chosen]) {
      forall m | (m == root || m in seen + [f]) && m != f
        ensures m in findings && Ahead(hides, root)(findings[f], findings[m])
      {
        AheadIsOrder(hides, root, findings[f], findings[chosen], findings[m]);
      }
    }
  }

  lemma LeaderIsFirst(findings: map<string, Finding>, scanId: string, hides: Finding -> bool, root: string,
      members: seq<string>, chosen: string)
    requires Leading(findings, hides, root, members, chosen) && MemberOf(scanId, root)(findings[chosen])
    requires forall f :: f in findings && MemberOf(scanId, root)(findings[f]) ==> f in members
    ensures IsFirst(findings, MemberOf(scanId, root), Ahead(hides, root), chosen)
  {
    hide Ahead;
  }

  lemma RootIsMember(findings: map<string, Finding>, scanId: string, root: string)
    requires IsPrimary(findings, scanId, root)
    ensures root in findings && MemberOf(scanId, root)(findings[root])
  {
  }

  lemma BestIsNewPrimary(findings: map<string, Finding>, scanId: string,
      hides: Finding -> bool, root: string, chosen: string)
    requires IsPrimary(findings, scanId, root) && (forall f :: f in findings ==> findings[f].id == f)
    requires IsFirst(findings, MemberOf(scanId, root), Ahead(hides, root), chosen)
    ensures chosen == NewPrimary(findings, scanId, hides, root)
  {
    NewPrimaryLeads(findings, scanId, hides, root);
    var first := NewPrimary(findings, scanId, hides, root);
    if chosen != first {
      AheadIsOrder(hides, root, findings[chosen], findings[first], findings[chosen]);
    }
  }
}
