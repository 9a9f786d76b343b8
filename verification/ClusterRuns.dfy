/** Clusters of findings: membership, representatives and triage over every run of the scan store. */
module ClusterRuns {
  import opened Wrappers
  import opened Text
  import opened Tables
  import opened ScanModel
  import opened ScanRuns
  import opened FindingRuns

  // ---------- Integrity ----------

  /** A non-empty cluster id names a finding of the same scan that is its own primary. */
  predicate InCluster(findings: map<string, Finding>, f: Finding)
  {
    f.clusterId == "" || IsPrimary(findings, f.scanId, f.clusterId)
  }

  predicate IsPrimary(findings: map<string, Finding>, scanId: string, root: string)
  {
    root in findings && findings[root].scanId == scanId && findings[root].clusterId == root
  }

  ghost predicate Clusters(findings: map<string, Finding>)
  {
    forall f :: f in findings ==> f != "" && InCluster(findings, findings[f])
  }

  /** The rows are the same and none changed its scan or cluster. */
  ghost predicate SameMembership(findings: map<string, Finding>, after: map<string, Finding>)
  {
    && after.Keys == findings.Keys
    && forall f :: f in findings ==>
      after[f].scanId == findings[f].scanId && after[f].clusterId == findings[f].clusterId
  }

  lemma SameMembershipKeeps(findings: map<string, Finding>, after: map<string, Finding>)
    requires Clusters(findings) && SameMembership(findings, after)
    ensures Clusters(after)
  {
    forall f | f in after
      ensures InCluster(after, after[f])
    {
      assert InCluster(findings, findings[f]);
    }
  }

  lemma InsertKeepsClusters(db: Database, rows: seq<Finding>)
    requires Valid(db) && Insertable(db, rows) && Named(rows) && Clusters(db.findings)
    ensures Clusters(Insert(db, rows).findings)
  {
    hide Insert;
    InsertKeepsHomes(db, rows);
    var after := Insert(db, rows).findings;
    forall f | f in after
      ensures f != "" && InCluster(after, after[f])
    {
      if f in db.findings {
        assert InCluster(db.findings, db.findings[f]);
      }
    }
  }

  lemma DeleteKeepsClusters(findings: map<string, Finding>, id: string, tool: string)
    requires Clusters(findings)
    ensures Clusters(Kept(findings, id, tool))
  {
    var after := Kept(findings, id, tool);
    forall f | f in after
      ensures InCluster(after, after[f])
    {
      assert InCluster(findings, findings[f]);
    }
  }

  // ---------- Finalization ----------

  lemma {:induction false} PrimaryForKey(primaries: seq<Finding>, i: nat)
    requires i < |primaries| && forall a, b :: 0 <= a < b < |primaries| ==> primaries[a].key != primaries[b].key
    ensures PrimaryFor(primaries, primaries[i].key) == primaries[i].id
  {
    if i > 0 {
      assert primaries[0].key != primaries[i].key;
      assert primaries[1..][i - 1] == primaries[i];
      PrimaryForKey(primaries[1..], i - 1);
    }
  }

  /** Every finding of the scan joins the primary of its key. */
  lemma ClusteredJoins(db: Database, id: string, primaries: seq<Finding>, f: string)
    requires Partition(db, id, primaries) && f in db.findings && db.findings[f].scanId == id
    ensures var after := Clustered(db.findings, id, primaries);
      && after[f].clusterId != "" && IsPrimary(after, id, after[f].clusterId)
      && db.findings[after[f].clusterId].key == db.findings[f].key
  {
    var i :| 0 <= i < |primaries| && primaries[i].key == db.findings[f].key;
    assert Represents(db, id, primaries[i]);
    PrimaryForKey(primaries, i);
  }

  lemma ClusteredKeeps(db: Database, id: string, primaries: seq<Finding>)
    requires Clusters(db.findings) && Partition(db, id, primaries)
    ensures Clusters(Clustered(db.findings, id, primaries))
  {
    hide Partition;
    var after := Clustered(db.findings, id, primaries);
    forall f | f in after
      ensures InCluster(after, after[f])
    {
      if db.findings[f].scanId == id {
        ClusteredJoins(db, id, primaries, f);
      } else {
        assert InCluster(db.findings, db.findings[f]);
      }
    }
  }

  // ---------- Primary reselection ----------

  lemma AheadIsOrder(hides: Finding -> bool, root: string, a: Finding, b: Finding, c: Finding)
    ensures Ahead(hides, root)(a, b) ==> !Ahead(hides, root)(b, a)
    ensures a.id != b.id ==> Ahead(hides, root)(a, b) || Ahead(hides, root)(b, a)
    ensures Ahead(hides, root)(a, b) && Ahead(hides, root)(b, c) ==> Ahead(hides, root)(a, c)
  {
    LessTotal(a.id, b.id);
    LessIrreflexive(a.id);
    if Less(a.id, b.id) {
      LessAsymmetric(a.id, b.id);
      if Less(b.id, c.id) {
        LessTransitive(a.id, b.id, c.id);
      }
    }
  }

  lemma AheadOrders(findings: map<string, Finding>, p: Finding -> bool, hides: Finding -> bool, root: string)
    requires forall f :: f in findings ==> findings[f].id == f
    ensures Orders(findings, p, Ahead(hides, root))
  {
    forall a, b | a in findings && b in findings
      ensures a != b ==> Ahead(hides, root)(findings[a], findings[b]) || Ahead(hides, root)(findings[b], findings[a])
      ensures Ahead(hides, root)(findings[a], findings[b]) ==> !Ahead(hides, root)(findings[b], findings[a])
    {
      AheadIsOrder(hides, root, findings[a], findings[b], findings[a]);
    }
    forall a, b, c | a in findings && b in findings && c in findings
      ensures Ahead(hides, root)(findings[a], findings[b]) && Ahead(hides, root)(findings[b], findings[c])
        ==> Ahead(hides, root)(findings[a], findings[c])
    {
      AheadIsOrder(hides, root, findings[a], findings[b], findings[c]);
    }
  }

  /** The new primary of a cluster is one of its members, and the best of them. */
  lemma NewPrimaryLeads(findings: map<string, Finding>, scanId: string, hides: Finding -> bool, root: string)
    requires forall f :: f in findings ==> findings[f].id == f
    requires IsPrimary(findings, scanId, root)
    ensures IsFirst(findings, MemberOf(scanId, root), Ahead(hides, root), NewPrimary(findings, scanId, hides, root))
  {
    hide Ahead, IsFirst;
    AheadOrders(findings, MemberOf(scanId, root), hides, root);
    FirstSome(findings, MemberOf(scanId, root), Ahead(hides, root));
    assert MemberOf(scanId, root)(findings[root]);
  }

  lemma NewPrimaryIsMember(findings: map<string, Finding>, scanId: string, hides: Finding -> bool, root: string)
    requires forall f :: f in findings ==> findings[f].id == f
    requires IsPrimary(findings, scanId, root)
    ensures var p := NewPrimary(findings, scanId, hides, root);
      p in findings && findings[p].scanId == scanId && findings[p].clusterId == root
  {
    hide Ahead, NewPrimary;
    NewPrimaryLeads(findings, scanId, hides, root);
  }

  lemma ReselectedKeeps(findings: map<string, Finding>, scanId: string, hides: Finding -> bool)
    requires Clusters(findings) && forall f :: f in findings ==> findings[f].id == f
    ensures Clusters(Reselected(findings, scanId, hides))
  {
    hide NewPrimary;
    var after := Reselected(findings, scanId, hides);
    forall f | f in after
      ensures InCluster(after, after[f])
    {
      assert InCluster(findings, findings[f]);
      if findings[f].scanId == scanId && findings[f].clusterId != "" {
        NewPrimaryIsMember(findings, scanId, hides, findings[f].clusterId);
      }
    }
  }

  /** The two findings are members of one cluster. */
  predicate Together(findings: map<string, Finding>, f: string, g: string)
    requires f in findings && g in findings
  {
    findings[f].clusterId != "" && findings[f].clusterId == findings[g].clusterId
  }

  /** Reselection moves primaries, never members. */
  lemma ReselectionKeepsMembership(findings: map<string, Finding>, scanId: string,
      hides: Finding -> bool, f: string, g: string)
    requires Clusters(findings) && (forall f :: f in findings ==> findings[f].id == f) && f in findings && g in findings
    ensures Together(Reselected(findings, scanId, hides), f, g) <==> Together(findings, f, g)
  {
    hide NewPrimary;
    assert InCluster(findings, findings[f]) && InCluster(findings, findings[g]);
    if findings[f].scanId == scanId && findings[f].clusterId != "" {
      NewPrimaryIsMember(findings, scanId, hides, findings[f].clusterId);
    }
    if findings[g].scanId == scanId && findings[g].clusterId != "" {
      NewPrimaryIsMember(findings, scanId, hides, findings[g].clusterId);
    }
  }

  /** No member is preferred to the chosen primary, and a primary nobody is preferred to stays. */
  lemma ReselectionPicksBest(findings: map<string, Finding>, scanId: string, hides: Finding -> bool, f: string,
      m: string)
    requires Clusters(findings) && (forall f :: f in findings ==> findings[f].id == f)
    requires f in findings && m in findings && findings[f].scanId == scanId && Together(findings, f, m)
    ensures var p := Reselected(findings, scanId, hides)[f].clusterId;
      p in findings && !Prefer(hides, findings[m], findings[p])
    ensures (forall g :: g in findings && Together(findings, f, g) ==>
      !Prefer(hides, findings[g], findings[findings[f].clusterId]))
      ==> Reselected(findings, scanId, hides)[f].clusterId == findings[f].clusterId
  {
    var root := findings[f].clusterId;
    assert InCluster(findings, findings[f]) && InCluster(findings, findings[m]);
    NewPrimaryLeads(findings, scanId, hides, root);
    var p := NewPrimary(findings, scanId, hides, root);
    assert MemberOf(scanId, root)(findings[m]) && MemberOf(scanId, root)(findings[root]);
    if p != root {
      assert Ahead(hides, root)(findings[p], findings[root]);
      assert Together(findings, f, p);
    }
  }

  // ---------- Every step and run ----------

  lemma FinalizeKeepsClusters(db: Database, id: string, token: string, primaries: seq<Finding>, hides: Finding -> bool)
    requires Valid(db) && Clusters(db.findings)
    ensures Clusters(FinalizeClusters(db, id, token, primaries, hides).findings)
  {
    hide Partition, Clusters, Reselected;
    if HoldsLease(db, id, token) && Partition(db, id, primaries) {
      ClusteredKeeps(db, id, primaries);
      ReselectedKeeps(Clustered(db.findings, id, primaries), id, hides);
    }
  }

  lemma ReconcileKeepsClusters(db: Database, id: string, suppresses: Finding -> bool, hides: Finding -> bool)
    requires Valid(db) && Clusters(db.findings)
    ensures Clusters(Reconcile(db, id, suppresses, hides).findings)
  {
    hide Clusters, Reselected;
    SameMembershipKeeps(db.findings, Flagged(db.findings, id, suppresses));
    ReselectedKeeps(Flagged(db.findings, id, suppresses), id, hides);
  }

  lemma FlagsKeepMembership(db: Database, e: Event, now: int)
    requires e.Enriching? || e.Triaging? || e.Capturing? || e.Deriving? || e.Gating?
    ensures SameMembership(db.findings, After(db, e, now).findings)
  {
    hide SameMembership;
    match e
    case Enriching(f) => EnrichingKeepsMembership(db, f);
    case Triaging(id, status) => TriagingKeepsMembership(db, id, status);
    case Capturing(id, token, policy, hides) => CapturingKeepsMembership(db, id, token, policy, hides);
    case Deriving(id, token, derived, baseline) => DerivingKeepsMembership(db, id, token, derived, baseline);
    case Gating(gate) => GatingKeepsMembership(db, gate);
  }

  lemma EnrichingKeepsMembership(db: Database, f: Finding)
    ensures SameMembership(db.findings, UpdateFinding(db, f).findings)
  {
  }

  lemma TriagingKeepsMembership(db: Database, id: string, status: string)
    ensures SameMembership(db.findings, UpdateClusterStatus(db, id, status).findings)
  {
  }

  lemma CapturingKeepsMembership(db: Database, id: string, token: string, policy: string, hides: Finding -> bool)
    ensures SameMembership(db.findings, CapturePolicy(db, id, token, policy, hides).findings)
  {
  }

  lemma DerivingKeepsMembership(db: Database, id: string, token: string, derived: map<string, string>, baseline: string)
    ensures SameMembership(db.findings, PersistBaseline(db, id, token, derived, baseline).findings)
  {
  }

  lemma GatingKeepsMembership(db: Database, gate: Gate)
    ensures SameMembership(db.findings, UpsertGate(db, gate).findings)
  {
  }

  lemma ImportKeepsClusters(db: Database, rows: seq<Finding>)
    requires Valid(db) && Clusters(db.findings) && Named(rows)
    ensures Clusters(Import(db, rows).findings)
  {
    if Insertable(db, rows) {
      InsertKeepsClusters(db, rows);
    }
  }

  lemma LeaseInsertKeepsClusters(db: Database, rows: seq<Finding>, id: string, token: string)
    requires Valid(db) && Clusters(db.findings) && Named(rows)
    ensures Clusters(CreateFindingsForLease(db, rows, id, token).findings)
  {
    if Insertable(db, rows) {
      InsertKeepsClusters(db, rows);
    }
  }

  lemma LeaseDeleteKeepsClusters(db: Database, id: string, tool: string, token: string)
    requires Clusters(db.findings)
    ensures Clusters(DeleteByTool(db, id, tool, token).findings)
  {
    DeleteKeepsClusters(db.findings, id, tool);
  }

  lemma StepKeepsClusters(db: Database, e: Event, now: int)
    requires Valid(db) && Disciplined(db, e) && Clusters(db.findings)
    ensures Clusters(After(db, e, now).findings)
  {
    hide Clusters, Import, CreateFindingsForLease, DeleteByTool, FinalizeClusters, Reconcile, UpdateFinding,
        UpdateClusterStatus, CapturePolicy, PersistBaseline, UpsertGate, SameMembership, EvidenceKept;
    match e
    case Importing(rows) => ImportKeepsClusters(db, rows);
    case Inserting(rows, id, token) => LeaseInsertKeepsClusters(db, rows, id, token);
    case Deleting(id, tool, token) => LeaseDeleteKeepsClusters(db, id, tool, token);
    case Clustering(id, token, primaries, hides) => FinalizeKeepsClusters(db, id, token, primaries, hides);
    case Reconciling(id, suppresses, hides) => ReconcileKeepsClusters(db, id, suppresses, hides);
    case _ => OtherStepKeepsClusters(db, e, now);
  }

  lemma OtherStepKeepsClusters(db: Database, e: Event, now: int)
    requires Clusters(db.findings)
    requires !e.Importing? && !e.Inserting? && !e.Deleting? && !e.Clustering? && !e.Reconciling?
    ensures Clusters(After(db, e, now).findings)
  {
    hide After, Clusters, SameMembership;
    if IsEvidence(e) {
      FlagsKeepMembership(db, e, now);
      SameMembershipKeeps(db.findings, After(db, e, now).findings);
    } else {
      QueueKeepsEvidence(db, e, now);
    }
  }

  /** In every reachable state, a non-empty cluster id names a primary of the same scan. */
  lemma {:induction false} RunKeepsClusters(ws: seq<World>, es: seq<Event>, i: nat)
    requires Run(ws, es) && i < |ws|
    ensures Clusters(ws[i].db.findings)
  {
    hide After;
    if i > 0 {
      RunKeepsClusters(ws, es, i - 1);
      RunKeepsValid(ws, es, i - 1);
      assert Next(ws[i - 1], es[i - 1], ws[i]);
      StepKeepsClusters(ws[i - 1].db, es[i - 1], ws[i].clock);
    }
  }

  /** After finalization, with or without reselection, the clusters of the scan are exactly the key classes. */
  lemma FinalizationIsKeyClasses(db: Database, id: string, token: string, primaries: seq<Finding>,
      hides: Finding -> bool, f: string, g: string)
    requires Valid(db) && Clusters(db.findings) && HoldsLease(db, id, token) && Partition(db, id, primaries)
    requires f in db.findings && g in db.findings && db.findings[f].scanId == id && db.findings[g].scanId == id
    ensures var after := FinalizeClusters(db, id, token, primaries, hides).findings;
      && f in after && g in after && after[f].clusterId != ""
      && (Together(after, f, g) <==> db.findings[f].key == db.findings[g].key)
  {
    hide Reselected, Partition;
    var clustered := Clustered(db.findings, id, primaries);
    ClusteredJoins(db, id, primaries, f);
    ClusteredJoins(db, id, primaries, g);
    ClusteredKeeps(db, id, primaries);
    ReselectionKeepsMembership(clustered, id, hides, f, g);
    ReselectionKeepsMembership(clustered, id, hides, f, f);
    ReselectedKeepsHomes(clustered, id, hides);
    assert Together(clustered, f, g) <==> db.findings[f].key == db.findings[g].key by {
      SameKeySamePrimary(primaries, db.findings[f].key, db.findings[g].key);
    }
  }

  lemma SameKeySamePrimary(primaries: seq<Finding>, a: string, b: string)
    ensures a == b ==> PrimaryFor(primaries, a) == PrimaryFor(primaries, b)
  {
  }

  /** Triage through any member sets the status of the whole issue and of nothing else. */
  lemma TriageIsExact(ws: seq<World>, es: seq<Event>, i: nat, id: string, status: string, f: string)
    requires Run(ws, es) && i < |ws| && id in ws[i].db.findings && f in ws[i].db.findings
    ensures var db := ws[i].db; var after := UpdateClusterStatus(db, id, status).findings;
      && after.Keys == db.findings.Keys
      && after[f] == if db.findings[f].scanId == db.findings[id].scanId && Root(db.findings[f]) == Root(db.findings[id])
                     then db.findings[f].(status := status) else db.findings[f]
  {
    hide After, Run;
    RunKeepsClusters(ws, es, i);
    RunKeepsValid(ws, es, i);
    IssueIsRootClass(ws[i].db, id, f);
  }

  lemma IssueIsRootClass(db: Database, id: string, f: string)
    requires Valid(db) && Clusters(db.findings) && id in db.findings && f in db.findings
    ensures SameIssue(db.findings[f], db.findings[id]) <==>
            db.findings[f].scanId == db.findings[id].scanId && Root(db.findings[f]) == Root(db.findings[id])
  {
    assert InCluster(db.findings, db.findings[f]) && InCluster(db.findings, db.findings[id]);
    assert Homed(db, db.findings[f]) && Homed(db, db.findings[id]);
  }
}
