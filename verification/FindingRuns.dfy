/** Findings revisions, gate results and clusters over every run of the scan store. */
module FindingRuns {
  import opened Wrappers
  import opened Text
  import opened Tables
  import opened ScanModel
  import opened ScanRuns

  // ---------- Revision ----------

  /** The scan's revision never falls, and stands still only while its findings do. */
  ghost predicate RevisionStep(db: Database, after: Database)
  {
    forall id :: id in db.scans ==>
      && id in after.scans && db.scans[id].findingsRevision <= after.scans[id].findingsRevision
      && (after.scans[id].findingsRevision == db.scans[id].findingsRevision ==>
        FindingsOf(after.findings, id) == FindingsOf(db.findings, id))
  }

  /** Only this scan's findings changed. */
  ghost predicate OnlyOf(db: Database, findings: map<string, Finding>, id: string)
  {
    forall f :: (f in db.findings && db.findings[f].scanId != id) || (f in findings && findings[f].scanId != id)
      ==> f in db.findings && f in findings && findings[f] == db.findings[f]
  }

  lemma AdvanceIsRevisionStep(db: Database, findings: map<string, Finding>, id: string)
    requires id in db.scans && OnlyOf(db, findings, id)
    ensures RevisionStep(db, Advance(db.(findings := findings), id))
  {
    var after := Advance(db.(findings := findings), id);
    forall other | other in db.scans && other != id
      ensures FindingsOf(after.findings, other) == FindingsOf(db.findings, other)
    {
    }
  }

  lemma {:induction false} AddedRows(findings: map<string, Finding>, rows: seq<Finding>, f: string)
    requires forall i, j :: 0 <= i < j < |rows| ==> rows[i].id != rows[j].id
    ensures f in Added(findings, rows) <==> f in findings || exists i :: 0 <= i < |rows| && rows[i].id == f
    ensures forall i :: 0 <= i < |rows| ==>
      rows[i].id in Added(findings, rows) && Added(findings, rows)[rows[i].id] == rows[i].(clusterId := "")
    ensures f in findings && (forall i :: 0 <= i < |rows| ==> rows[i].id != f) ==>
      Added(findings, rows)[f] == findings[f]
  {
    if rows != [] {
      var front, last := rows[..|rows| - 1], rows[|rows| - 1];
      AddedRows(findings, front, f);
      if f == last.id {
        assert rows[|rows| - 1].id == f;
      }
      forall i | 0 <= i < |rows|
        ensures rows[i].id in Added(findings, rows) && Added(findings, rows)[rows[i].id] == rows[i].(clusterId := "")
      {
        if i < |rows| - 1 {
          assert front[i] == rows[i] && rows[i].id != last.id;
        }
      }
      assert forall i :: 0 <= i < |front| ==> front[i] == rows[i];
    }
  }

  lemma InsertIsRevisionStep(db: Database, rows: seq<Finding>)
    requires Valid(db) && Insertable(db, rows)
    ensures RevisionStep(db, Insert(db, rows))
  {
    var after := Insert(db, rows);
    forall id | id in db.scans && !Receives(rows, id)
      ensures FindingsOf(after.findings, id) == FindingsOf(db.findings, id)
    {
      forall f | f in after.findings || f in db.findings
        ensures (f in after.findings && after.findings[f].scanId == id) <==>
          (f in db.findings && db.findings[f].scanId == id)
        ensures f in db.findings ==> f in after.findings && after.findings[f] == db.findings[f]
      {
        AddedRows(db.findings, rows, f);
      }
    }
  }

  lemma StepIsRevisionStep(db: Database, e: Event, now: int)
    requires Valid(db)
    ensures RevisionStep(db, After(db, e, now))
  {
    if IsEvidence(e) {
      EvidenceIsRevisionStep(db, e, now);
    } else {
      QueueKeepsEvidence(db, e, now);
    }
  }

  lemma EvidenceIsRevisionStep(db: Database, e: Event, now: int)
    requires Valid(db) && IsEvidence(e)
    ensures RevisionStep(db, After(db, e, now))
  {
    hide Import, CreateFindingsForLease, UpdateFinding, UpdateClusterStatus, CapturePolicy, DeleteByTool,
        PersistBaseline, FinalizeClusters, Reconcile, UpsertGate, RevisionStep;
    match e
    case Importing(rows) => ImportingAdvances(db, rows);
    case Inserting(rows, id, token) => InsertingAdvances(db, rows, id, token);
    case Enriching(f) => EnrichingAdvances(db, f);
    case Triaging(id, status) => TriagingAdvances(db, id, status);
    case Capturing(id, token, policy, hides) => CapturingAdvances(db, id, token, policy, hides);
    case Deleting(id, tool, token) => DeletingAdvances(db, id, tool, token);
    case Deriving(id, token, derived, baseline) => DerivingAdvances(db, id, token, derived, baseline);
    case Clustering(id, token, primaries, hides) => ClusteringAdvances(db, id, token, primaries, hides);
    case Reconciling(id, suppresses, hides) => ReconcilingAdvances(db, id, suppresses, hides);
    case Gating(gate) => GatingKeepsEvidence(db, gate);
  }

  lemma GatingKeepsEvidence(db: Database, gate: Gate)
    ensures RevisionStep(db, UpsertGate(db, gate))
    ensures HomesKept(db.findings, UpsertGate(db, gate).findings)
    ensures UpsertGate(db, gate).findings.Keys == db.findings.Keys
  {
  }

  /** Scans may come and change their queue columns; no finding, revision or repository changes. */
  ghost predicate EvidenceKept(db: Database, after: Database)
  {
    && after.findings == db.findings
    && (forall id :: id in db.scans ==> id in after.scans && SameEvidence(db.scans[id], after.scans[id]))
    && (forall id :: id in after.scans && id !in db.scans ==> after.scans[id].id == id)
  }

  predicate SameEvidence(s: Scan, t: Scan)
  {
    t.findingsRevision == s.findingsRevision && t.repoId == s.repoId && t.id == s.id
  }

  lemma OneScanKeepsEvidence(db: Database, after: Database, id: string)
    requires after.findings == db.findings && id in db.scans && id in after.scans
    requires after.scans == db.scans[id := after.scans[id]] && SameEvidence(db.scans[id], after.scans[id])
    ensures EvidenceKept(db, after)
  {
  }

  lemma ReclaimKeepsEvidence(db: Database, now: int)
    ensures EvidenceKept(db, Reclaim(db, now))
  {
  }

  lemma QueueKeepsEvidence(db: Database, e: Event, now: int)
    requires !IsEvidence(e)
    ensures EvidenceKept(db, After(db, e, now))
  {
    var after := After(db, e, now);
    if e.Reclaiming? {
      ReclaimKeepsEvidence(db, now);
    } else if e.Creating? {
    } else if after != db {
      OneScanKeepsEvidence(db, after, if e.Completing? then e.scan.id else e.id);
    }
  }

  lemma ImportingAdvances(db: Database, rows: seq<Finding>)
    requires Valid(db)
    ensures RevisionStep(db, Import(db, rows))
  {
    if Insertable(db, rows) {
      InsertIsRevisionStep(db, rows);
    }
  }

  lemma InsertingAdvances(db: Database, rows: seq<Finding>, id: string, token: string)
    requires Valid(db)
    ensures RevisionStep(db, CreateFindingsForLease(db, rows, id, token))
  {
    if Insertable(db, rows) {
      InsertIsRevisionStep(db, rows);
    }
  }

  lemma EnrichingAdvances(db: Database, f: Finding)
    requires Valid(db)
    ensures RevisionStep(db, UpdateFinding(db, f))
  {
    if f.id in db.findings {
      AdvanceIsRevisionStep(db, db.findings[f.id := Enriched(db.findings[f.id], f)], db.findings[f.id].scanId);
    }
  }

  lemma TriagingAdvances(db: Database, id: string, status: string)
    requires Valid(db)
    ensures RevisionStep(db, UpdateClusterStatus(db, id, status))
  {
    if id in db.findings {
      AdvanceIsRevisionStep(db, UpdateClusterStatus(db, id, status).findings, db.findings[id].scanId);
    }
  }

  lemma CapturingAdvances(db: Database, id: string, token: string, policy: string, hides: Finding -> bool)
    ensures RevisionStep(db, CapturePolicy(db, id, token, policy, hides))
  {
    hide Hidden, OnlyOf;
    if HoldsLease(db, id, token) && db.scans[id].ignorePolicy == "" {
      HidesOnlyOf(db, id, hides);
      AdvanceIsRevisionStep(db, Hidden(db.findings, id, hides), id);
    }
  }

  lemma HidesOnlyOf(db: Database, id: string, hides: Finding -> bool)
    ensures OnlyOf(db, Hidden(db.findings, id, hides), id)
  {
  }

  lemma DeletingAdvances(db: Database, id: string, tool: string, token: string)
    ensures RevisionStep(db, DeleteByTool(db, id, tool, token))
  {
    if HoldsLease(db, id, token) {
      AdvanceIsRevisionStep(db, Kept(db.findings, id, tool), id);
    }
  }

  lemma DerivingAdvances(db: Database, id: string, token: string, derived: map<string, string>, baseline: string)
    ensures RevisionStep(db, PersistBaseline(db, id, token, derived, baseline))
  {
    if PersistBaseline(db, id, token, derived, baseline) != db {
      AdvanceIsRevisionStep(db, PersistBaseline(db, id, token, derived, baseline).findings, id);
    }
  }

  lemma ClusteringAdvances(db: Database, id: string, token: string, primaries: seq<Finding>, hides: Finding -> bool)
    ensures RevisionStep(db, FinalizeClusters(db, id, token, primaries, hides))
  {
    if HoldsLease(db, id, token) && Partition(db, id, primaries) {
      AdvanceIsRevisionStep(db, FinalizeClusters(db, id, token, primaries, hides).findings, id);
    }
  }

  lemma ReconcilingAdvances(db: Database, id: string, suppresses: Finding -> bool, hides: Finding -> bool)
    ensures RevisionStep(db, Reconcile(db, id, suppresses, hides))
  {
    if Reconcile(db, id, suppresses, hides) != db {
      AdvanceIsRevisionStep(db, Reconcile(db, id, suppresses, hides).findings, id);
    }
  }

  // ---------- Validity ----------

  /** Scans keep their repository, findings their identity. */
  ghost predicate HomeStep(db: Database, after: Database)
  {
    && (forall id :: id in db.scans ==>
      id in after.scans && after.scans[id].repoId == db.scans[id].repoId && after.scans[id].id == db.scans[id].id)
    && (forall id :: id in after.scans && id !in db.scans ==> after.scans[id].id == id)
    && (forall f :: f in after.findings && f in db.findings ==> SameHome(db.findings[f], after.findings[f]))
  }

  predicate SameHome(a: Finding, b: Finding)
  {
    a.id == b.id && a.scanId == b.scanId && a.repoId == b.repoId
  }

  ghost predicate HomesKept(findings: map<string, Finding>, after: map<string, Finding>)
  {
    forall f :: f in after && f in findings ==> SameHome(findings[f], after[f])
  }

  lemma StepIsHomeStep(db: Database, e: Event, now: int)
    requires Valid(db)
    ensures HomeStep(db, After(db, e, now))
  {
    if IsEvidence(e) {
      EvidenceKeepsLeases(db, e, now);
      EvidenceKeepsHomes(db, e, now);
    } else {
      QueueKeepsEvidence(db, e, now);
    }
  }

  lemma EvidenceKeepsHomes(db: Database, e: Event, now: int)
    requires Valid(db) && IsEvidence(e)
    ensures HomesKept(db.findings, After(db, e, now).findings)
  {
    hide Import, CreateFindingsForLease, UpdateFinding, UpdateClusterStatus, CapturePolicy, DeleteByTool,
        PersistBaseline, FinalizeClusters, Reconcile, UpsertGate, HomesKept;
    match e
    case Importing(rows) => ImportingKeepsHomes(db, rows);
    case Inserting(rows, id, token) => InsertingKeepsHomes(db, rows, id, token);
    case Enriching(f) => EnrichingKeepsHomes(db, f);
    case Triaging(id, status) => TriagingKeepsHomes(db, id, status);
    case Capturing(id, token, policy, hides) => CapturingKeepsHomes(db, id, token, policy, hides);
    case Deleting(id, tool, token) => DeletingKeepsHomes(db, id, tool, token);
    case Deriving(id, token, derived, baseline) => DerivingKeepsHomes(db, id, token, derived, baseline);
    case Clustering(id, token, primaries, hides) => ClusteringKeepsHomes(db, id, token, primaries, hides);
    case Reconciling(id, suppresses, hides) => ReconcilingKeepsHomes(db, id, suppresses, hides);
    case Gating(gate) => GatingKeepsEvidence(db, gate);
  }

  lemma ImportingKeepsHomes(db: Database, rows: seq<Finding>)
    requires Valid(db)
    ensures HomesKept(db.findings, Import(db, rows).findings)
  {
    if Insertable(db, rows) {
      InsertKeepsHomes(db, rows);
    }
  }

  lemma InsertingKeepsHomes(db: Database, rows: seq<Finding>, id: string, token: string)
    requires Valid(db)
    ensures HomesKept(db.findings, CreateFindingsForLease(db, rows, id, token).findings)
  {
    if Insertable(db, rows) {
      InsertKeepsHomes(db, rows);
    }
  }

  lemma EnrichingKeepsHomes(db: Database, f: Finding)
    ensures HomesKept(db.findings, UpdateFinding(db, f).findings)
    ensures UpdateFinding(db, f).findings.Keys == db.findings.Keys
  {
  }

  lemma TriagingKeepsHomes(db: Database, id: string, status: string)
    ensures HomesKept(db.findings, UpdateClusterStatus(db, id, status).findings)
    ensures UpdateClusterStatus(db, id, status).findings.Keys == db.findings.Keys
  {
  }

  lemma CapturingKeepsHomes(db: Database, id: string, token: string, policy: string, hides: Finding -> bool)
    ensures HomesKept(db.findings, CapturePolicy(db, id, token, policy, hides).findings)
    ensures CapturePolicy(db, id, token, policy, hides).findings.Keys == db.findings.Keys
  {
  }

  lemma DeletingKeepsHomes(db: Database, id: string, tool: string, token: string)
    ensures HomesKept(db.findings, DeleteByTool(db, id, tool, token).findings)
    ensures DeleteByTool(db, id, tool, token).findings.Keys <= db.findings.Keys
  {
  }

  lemma DerivingKeepsHomes(db: Database, id: string, token: string, derived: map<string, string>, baseline: string)
    ensures HomesKept(db.findings, PersistBaseline(db, id, token, derived, baseline).findings)
    ensures PersistBaseline(db, id, token, derived, baseline).findings.Keys == db.findings.Keys
  {
  }

  lemma ClusteringKeepsHomes(db: Database, id: string, token: string, primaries: seq<Finding>, hides: Finding -> bool)
    ensures HomesKept(db.findings, FinalizeClusters(db, id, token, primaries, hides).findings)
    ensures FinalizeClusters(db, id, token, primaries, hides).findings.Keys == db.findings.Keys
  {
    var clustered := Clustered(db.findings, id, primaries);
    assert forall f :: f in db.findings ==> SameHome(db.findings[f], clustered[f]);
    ReselectedKeepsHomes(clustered, id, hides);
  }

  lemma ReconcilingKeepsHomes(db: Database, id: string, suppresses: Finding -> bool, hides: Finding -> bool)
    ensures HomesKept(db.findings, Reconcile(db, id, suppresses, hides).findings)
    ensures Reconcile(db, id, suppresses, hides).findings.Keys == db.findings.Keys
  {
    var flagged := Flagged(db.findings, id, suppresses);
    assert forall f :: f in db.findings ==> SameHome(db.findings[f], flagged[f]);
    ReselectedKeepsHomes(flagged, id, hides);
  }

  lemma InsertKeepsHomes(db: Database, rows: seq<Finding>)
    requires Valid(db) && Insertable(db, rows)
    ensures forall f :: f in db.findings ==>
      f in Insert(db, rows).findings && Insert(db, rows).findings[f] == db.findings[f]
    ensures forall f :: f in Insert(db, rows).findings && f !in db.findings ==>
              exists i :: 0 <= i < |rows| && rows[i].id == f
                && Insert(db, rows).findings[f] == rows[i].(clusterId := "")
  {
    forall f | f in Added(db.findings, rows)
      ensures f in db.findings ==> Added(db.findings, rows)[f] == db.findings[f]
      ensures f !in db.findings ==>
        exists i :: 0 <= i < |rows| && rows[i].id == f && Added(db.findings, rows)[f] == rows[i].(clusterId := "")
    {
      AddedRows(db.findings, rows, f);
      if f !in db.findings {
        var i :| 0 <= i < |rows| && rows[i].id == f;
        assert Added(db.findings, rows)[rows[i].id] == rows[i].(clusterId := "");
      }
    }
    forall f | f in db.findings
      ensures f in Added(db.findings, rows)
    {
      AddedRows(db.findings, rows, f);
    }
  }

  lemma ReselectedKeepsHomes(findings: map<string, Finding>, scanId: string, hides: Finding -> bool)
    ensures Reselected(findings, scanId, hides).Keys == findings.Keys
    ensures forall f :: f in findings ==> SameHome(findings[f], Reselected(findings, scanId, hides)[f])
  {
  }

  lemma StepKeepsValid(db: Database, e: Event, now: int)
    requires Valid(db)
    ensures Valid(After(db, e, now))
  {
    var after := After(db, e, now);
    StepIsHomeStep(db, e, now);
    forall f | f in after.findings
      ensures after.findings[f].id == f && Homed(after, after.findings[f])
    {
      if f in db.findings {
        assert SameHome(db.findings[f], after.findings[f]) && Homed(db, db.findings[f]);
      } else {
        NewFindings(db, e, now, f);
      }
    }
  }

  /** Only an insert brings new rows, each a fresh unclustered row of an existing scan. */
  lemma NewFindings(db: Database, e: Event, now: int, f: string)
    requires Valid(db) && f in After(db, e, now).findings && f !in db.findings
    ensures var row := After(db, e, now).findings[f]; row.id == f && Homed(db, row) && row.clusterId == ""
  {
    if e.Importing? || e.Inserting? {
      InsertKeepsHomes(db, e.rows);
    } else {
      NoNewFindings(db, e, now);
    }
  }

  lemma NoNewFindings(db: Database, e: Event, now: int)
    requires Valid(db) && !e.Importing? && !e.Inserting?
    ensures After(db, e, now).findings.Keys <= db.findings.Keys
  {
    hide Import, CreateFindingsForLease, UpdateFinding, UpdateClusterStatus, CapturePolicy, DeleteByTool,
        PersistBaseline, FinalizeClusters, Reconcile, UpsertGate;
    if !IsEvidence(e) {
      QueueKeepsEvidence(db, e, now);
    } else {
      match e
      case Enriching(f) => EnrichingKeepsHomes(db, f);
      case Triaging(id, status) => TriagingKeepsHomes(db, id, status);
      case Capturing(id, token, policy, hides) => CapturingKeepsHomes(db, id, token, policy, hides);
      case Deleting(id, tool, token) => DeletingKeepsHomes(db, id, tool, token);
      case Deriving(id, token, derived, baseline) => DerivingKeepsHomes(db, id, token, derived, baseline);
      case Clustering(id, token, primaries, hides) => ClusteringKeepsHomes(db, id, token, primaries, hides);
      case Reconciling(id, suppresses, hides) => ReconcilingKeepsHomes(db, id, suppresses, hides);
      case Gating(gate) => GatingKeepsEvidence(db, gate);
    }
  }

  lemma {:induction false} RunKeepsValid(ws: seq<World>, es: seq<Event>, i: nat)
    requires Run(ws, es) && i < |ws|
    ensures Valid(ws[i].db)
  {
    hide After;
    if i > 0 {
      RunKeepsValid(ws, es, i - 1);
      assert Next(ws[i - 1], es[i - 1], ws[i]);
      StepKeepsValid(ws[i - 1].db, es[i - 1], ws[i].clock);
    }
  }

  // ---------- Gate results ----------

  /** Along a run, a scan's revision determines its findings. */
  lemma {:induction false} RevisionDetermines(ws: seq<World>, es: seq<Event>, i: nat, j: nat, id: string)
    requires Run(ws, es) && i <= j < |ws| && id in ws[i].db.scans
    ensures id in ws[j].db.scans && ws[i].db.scans[id].findingsRevision <= ws[j].db.scans[id].findingsRevision
    ensures ws[i].db.scans[id].findingsRevision == ws[j].db.scans[id].findingsRevision ==>
      FindingsOf(ws[i].db.findings, id) == FindingsOf(ws[j].db.findings, id)
    decreases j - i
  {
    hide After;
    if i < j {
      RevisionDetermines(ws, es, i, j - 1, id);
      RunKeepsValid(ws, es, j - 1);
      assert Next(ws[j - 1], es[j - 1], ws[j]);
      StepIsRevisionStep(ws[j - 1].db, es[j - 1], ws[j].clock);
    }
  }

  /**
   A gate evaluated on the snapshot of state i carries that snapshot's revision. Whenever it
   is read back in a later state j, the scan's findings are exactly the ones it was
   evaluated on and the scan has the status the gate names.
   */
  lemma GateIsCurrent(ws: seq<World>, es: seq<Event>, i: nat, j: nat, g: Gate)
    requires Run(ws, es) && i <= j < |ws| && g.scanId in ws[i].db.scans
    requires g.findingsRevision == ws[i].db.scans[g.scanId].findingsRevision
    requires ReadGate(ws[j].db, g.scanId, g.policyId) == Some(g)
    ensures FindingsOf(ws[j].db.findings, g.scanId) == FindingsOf(ws[i].db.findings, g.scanId)
    ensures ws[j].db.scans[g.scanId].status == g.scanStatus
  {
    hide After;
    RevisionDetermines(ws, es, i, j, g.scanId);
  }

  /** A write is accepted exactly when it would be read back at once. */
  lemma UpsertIsReadable(db: Database, g: Gate)
    ensures ReadGate(UpsertGate(db, g), g.scanId, g.policyId) == Some(g)
      <==> (ReadGate(db, g.scanId, g.policyId) == Some(g) || UpsertGate(db, g) != db)
    ensures g.scanId in db.scans
      && (db.scans[g.scanId].findingsRevision != g.findingsRevision || db.scans[g.scanId].status != g.scanStatus)
      ==> UpsertGate(db, g) == db
  {
    if UpsertGate(db, g) != db {
      assert UpsertGate(db, g).gates[(g.scanId, g.policyId)] == g;
    }
  }

  /** A completed scan publishes its findings, status and gate together. */
  lemma CompletionPublishes(db: Database, s: Scan, g: Gate)
    requires Complete(db, s, g).Ok?
    ensures ReadGate(Complete(db, s, g).value, g.scanId, g.policyId) == Some(g)
    ensures Complete(db, s, g).value.scans[s.id].status.Completed?
    ensures Complete(db, s, g).value.scans[s.id].leaseToken == ""
    ensures FindingsOf(Complete(db, s, g).value.findings, s.id) == FindingsOf(db.findings, s.id)
  {
  }
}
