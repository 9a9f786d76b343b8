/** Baseline derivation: which scans count as history, and what each finding of a scan is classified as. */
module Baselines {
  import opened Wrappers
  import opened Text
  import opened Tables

  datatype ScanStatus = Pending | Running | Completed | Failed | Cancelled

  /**
   Tool lists are None when their text cannot be read as a list; an empty column is the empty list.
   Time 0 is the zero time.
  */
  datatype Scan = Scan(
    id: string, repoId: string, branch: string, status: ScanStatus, completedAt: Option<nat>,
    cancelRequestedAt: Option<nat>, failureCode: string, leaseToken: string,
    toolsSelected: Option<seq<string>>, toolsCompleted: Option<seq<string>>, toolsFailed: Option<seq<string>>,
    sourceType: string, remoteNodeId: Option<string>, sourcePath: string,
    baselineScanId: string, baselineResolvedAt: Option<nat>, findingsRevision: nat)

  /** builtKey is the identity computed from the whole finding when neither fingerprint is stored. */
  datatype Finding = Finding(
    id: string, scanId: string, repoId: string, clusterId: string,
    stableFingerprint: string, fingerprint: string, builtKey: string,
    baselineKey: string, state: State, introducedIn: string, resolvedIn: string,
    firstSeenAt: Option<nat>, lastSeenAt: Option<nat>)

  datatype State = Unclassified | New | Existing | Resurfaced

  /**
   autoBaselines holds the scan_baselines rows named "auto" by repository and branch; blankKey is
   the identity of an empty finding.
  */
  datatype Database = Database(
    scans: map<string, Scan>, findings: map<string, Finding>, autoBaselines: map<(string, string), string>,
    blankKey: string)

  datatype BaselineError = NoTime | NoRows | StaleLease | InvalidSaved | CrossesScope | NoPrimary

  ghost predicate Valid(db: Database)
  {
    && (forall id :: id in db.scans ==> db.scans[id].id == id && id != "")
    && (forall id :: id in db.findings ==> db.findings[id].id == id)
  }

  // ---------- Which scans qualify ----------

  predicate ValidBaselineScan(s: Scan)
  {
    && s.status.Completed? && s.completedAt.Some? && s.cancelRequestedAt.None? && s.failureCode == ""
    && s.toolsSelected.Some? && s.toolsCompleted.Some? && s.toolsFailed.Some?
    && s.toolsCompleted.value != [] && s.toolsFailed.value == []
    && forall tool :: tool in s.toolsSelected.value ==> tool in s.toolsCompleted.value
  }

  function SourceKind(s: Scan): string
  {
    Or(s.sourceType, "local")
  }

  function Node(s: Scan): string
  {
    if s.remoteNodeId.Some? then s.remoteNodeId.value else ""
  }

  predicate SourceCompatible(a: Scan, b: Scan)
  {
    && SourceKind(a) == SourceKind(b)
    && (SourceKind(a) == "ssh" ==> Node(a) == Node(b) && a.sourcePath == b.sourcePath)
  }

  predicate IsPrior(s: Scan, current: Scan, at: nat)
  {
    s.id != current.id && ValidBaselineScan(s) && s.completedAt.value < at && s.branch == current.branch
      && SourceCompatible(s, current)
  }

  function PriorOf(scans: map<string, Scan>, current: Scan, at: nat): map<string, Scan>
  {
    map id | id in scans && IsPrior(scans[id], current, at) :: scans[id]
  }

  function CompletionTime(s: Scan): nat
  {
    if s.completedAt.Some? then s.completedAt.value else 0
  }

  function Newest(): (Scan, Scan) -> bool
  {
    (a: Scan, b: Scan) => CompletionTime(a) > CompletionTime(b)
      || (CompletionTime(a) == CompletionTime(b) && Less(a.id, b.id))
  }

  function AnyScan(): Scan -> bool
  {
    (s: Scan) => true
  }

  /** The prior scan completed last, the smaller id on a tie; empty when there is none. */
  ghost function LatestOf(prior: map<string, Scan>): string
  {
    var first := First(prior, AnyScan(), Newest());
    if first.Some? then first.value else ""
  }

  lemma NewestOrders(prior: map<string, Scan>)
    requires forall id :: id in prior ==> prior[id].id == id
    ensures Orders(prior, AnyScan(), Newest())
  {
    forall a, b | a in prior && b in prior
      ensures a != b ==> Newest()(prior[a], prior[b]) || Newest()(prior[b], prior[a])
      ensures Newest()(prior[a], prior[b]) ==> !Newest()(prior[b], prior[a])
    {
      LessTotal(a, b);
      LessIrreflexive(a);
      if Less(a, b) {
        LessAsymmetric(a, b);
      }
    }
    forall a, b, c | a in prior && b in prior && c in prior
      ensures Newest()(prior[a], prior[b]) && Newest()(prior[b], prior[c]) ==> Newest()(prior[a], prior[c])
    {
      if Less(a, b) && Less(b, c) {
        LessTransitive(a, b, c);
      }
    }
  }

  /** The latest prior scan exists when any does, and no other completed after it. */
  lemma LatestIsNewest(prior: map<string, Scan>)
    requires forall id :: id in prior ==> prior[id].id == id && id != ""
    ensures LatestOf(prior) == "" <==> prior == map[]
    ensures LatestOf(prior) != "" ==> LatestOf(prior) in prior
    ensures LatestOf(prior) != "" ==> forall id :: id in prior ==>
      CompletionTime(prior[id]) <= CompletionTime(prior[LatestOf(prior)])
  {
    NewestOrders(prior);
    FirstSome(prior, AnyScan(), Newest());
    if id :| id in prior {
      assert AnyScan()(prior[id]);
    }
  }

  // ---------- Locked history ----------

  function OfRepo(db: Database, repoId: string): map<string, Scan>
  {
    map id | id in db.scans && db.scans[id].repoId == repoId :: db.scans[id]
  }

  /** The time a target scan's history is cut at: its pinned observation, else the requested time. */
  function CutAt(s: Scan, requested: nat): nat
  {
    if s.baselineResolvedAt.Some? then s.baselineResolvedAt.value else requested
  }

  /** A target of the branch has its history cut later than t. */
  predicate CutBeyond(scans: map<string, Scan>, targets: map<string, nat>, branch: string, t: nat)
  {
    exists id :: id in scans && Cuts(scans, targets, id, branch, t)
  }

  predicate Cuts(scans: map<string, Scan>, targets: map<string, nat>, id: string, branch: string, t: nat)
  {
    id in targets && id in scans && scans[id].branch == branch && t < CutAt(scans[id], targets[id])
  }

  predicate Locks(scans: map<string, Scan>, targets: map<string, nat>, s: Scan)
  {
    s.id in targets
      || (s.status.Completed? && s.completedAt.Some? && CutBeyond(scans, targets, s.branch, s.completedAt.value))
  }

  /** The targets and the completed scans before the latest cut-off of their branch. */
  function Locked(db: Database, repoId: string, targets: map<string, nat>): map<string, Scan>
  {
    var scans := OfRepo(db, repoId);
    map id | id in scans && Locks(scans, targets, scans[id]) :: scans[id]
  }

  /**
   Whatever else is locked, a target's prior scans are all there: the locked subset gives the
   history of the whole repository.
  */
  lemma LockedIsEnough(db: Database, repoId: string, targets: map<string, nat>, id: string)
    requires forall s :: s in db.scans ==> db.scans[s].id == s
    requires id in targets && id in db.scans && db.scans[id].repoId == repoId
    ensures var current := db.scans[id]; var at := CutAt(current, targets[id]);
      PriorOf(Locked(db, repoId, targets), current, at) == PriorOf(OfRepo(db, repoId), current, at)
  {
    var scans := OfRepo(db, repoId);
    var current := db.scans[id];
    var at := CutAt(current, targets[id]);
    forall s | s in scans && IsPrior(scans[s], current, at)
      ensures Locks(scans, targets, scans[s])
    {
      assert Cuts(scans, targets, id, scans[s].branch, scans[s].completedAt.value);
    }
  }

  // ---------- Identities and observations ----------

  function Key(f: Finding): string
  {
    Or(f.stableFingerprint, Or(f.fingerprint, f.builtKey))
  }

  /** History rows carry the two fingerprints only. */
  function HistoryKey(db: Database, f: Finding): string
  {
    Or(f.stableFingerprint, Or(f.fingerprint, db.blankKey))
  }

  function Root(f: Finding): string
  {
    Or(f.clusterId, f.id)
  }

  /** A representative of the scan: unclustered, or its cluster's own primary. */
  predicate IsPrimary(f: Finding, scanId: string)
  {
    f.scanId == scanId && (f.clusterId == "" || f.clusterId == f.id)
  }

  /** A stored finding of a completed scan of the repository and branch before `at`. */
  predicate InHistory(db: Database, h: Finding, current: Scan, at: nat)
  {
    && h.scanId in db.scans
    && var s := db.scans[h.scanId];
    s.repoId == current.repoId && s.branch == current.branch && s.status.Completed? && s.completedAt.Some?
      && s.completedAt.value < at
  }

  datatype Observation = Observation(at: nat, scanId: string)

  predicate Earlier(a: Observation, b: Observation)
  {
    a.at < b.at || (a.at == b.at && Less(a.scanId, b.scanId))
  }

  /**
   When a history row says its issue was first seen: its scan's completion, or an earlier
   first-seen recorded for the same identity.
  */
  function Observed(db: Database, prior: map<string, Scan>, h: Finding): Observation
    requires h.scanId in prior
  {
    var seen := CompletionTime(prior[h.scanId]);
    if h.baselineKey == HistoryKey(db, h) && h.firstSeenAt.Some? && h.firstSeenAt.value < seen then
      Observation(h.firstSeenAt.value, Or(h.introducedIn, h.scanId))
    else Observation(seen, h.scanId)
  }

  predicate Shows(db: Database, prior: map<string, Scan>, h: Finding, key: string)
  {
    h.scanId in prior && HistoryKey(db, h) == key
  }

  /** Every observation of the issue in the prior scans. */
  function Observations(db: Database, prior: map<string, Scan>, key: string): set<Observation>
  {
    ObservationsIn(db, prior, key, db.findings.Keys)
  }

  function ObservationsIn(db: Database, prior: map<string, Scan>, key: string, rows: set<string>): set<Observation>
  {
    set h | h in rows && h in db.findings
      && Shows(db, prior, db.findings[h], key) :: Observed(db, prior, db.findings[h])
  }

  predicate SeenIn(db: Database, prior: map<string, Scan>, key: string, scanId: string)
  {
    SeenAmong(db, prior, key, scanId, db.findings.Keys)
  }

  predicate SeenAmong(db: Database, prior: map<string, Scan>, key: string, scanId: string, rows: set<string>)
  {
    && scanId in prior
    && exists h ::
         h in rows && h in db.findings && db.findings[h].scanId == scanId && Shows(db, prior, db.findings[h], key)
  }

  ghost predicate IsEarliest(all: set<Observation>, o: Observation)
  {
    o in all && forall other :: other in all && other != o ==> Earlier(o, other)
  }

  lemma EarlierIsOrder(a: Observation, b: Observation, c: Observation)
    ensures Earlier(a, b) ==> !Earlier(b, a)
    ensures a != b ==> Earlier(a, b) || Earlier(b, a)
    ensures Earlier(a, b) && Earlier(b, c) ==> Earlier(a, c)
  {
    LessTotal(a.scanId, b.scanId);
    if Less(a.scanId, b.scanId) {
      LessAsymmetric(a.scanId, b.scanId);
      if Less(b.scanId, c.scanId) {
        LessTransitive(a.scanId, b.scanId, c.scanId);
      }
    }
  }

  lemma {:induction false} EarliestExists(all: set<Observation>) returns (o: Observation)
    requires all != {}
    ensures IsEarliest(all, o)
  {
    var one :| one in all;
    if all == {one} {
      o := one;
    } else {
      var best := EarliestExists(all - {one});
      EarlierIsOrder(one, best, best);
      o := if Earlier(one, best) then one else best;
      forall other | other in all && other != o
        ensures Earlier(o, other)
      {
        EarlierIsOrder(one, best, other);
      }
    }
  }

  ghost function EarliestOf(all: set<Observation>): (o: Observation)
    requires all != {}
    ensures IsEarliest(all, o)
  {
    assert exists o :: IsEarliest(all, o) by {
      var o := EarliestExists(all);
    }
    var o :| IsEarliest(all, o);
    o
  }

  // ---------- Derivation ----------

  /**
   The saved baseline once resolved; before that the automatic one, or the latest prior scan when
   none is saved or it no longer qualifies.
  */
  ghost function ChosenBaseline(db: Database, current: Scan, prior: map<string, Scan>): Result<string, BaselineError>
  {
    if current.baselineResolvedAt.Some? then
      if Qualifies(current.baselineScanId, current, prior) then Ok(current.baselineScanId) else Err(InvalidSaved)
    else
      var key := (current.repoId, current.branch);
      if key in db.autoBaselines && Qualifies(db.autoBaselines[key], current, prior) then Ok(db.autoBaselines[key])
      else Ok(LatestOf(prior))
  }

  predicate Qualifies(baselineId: string, current: Scan, prior: map<string, Scan>)
  {
    baselineId == "" || baselineId == current.id || baselineId in prior
  }

  /** What derivation knows about the scan's history. */
  datatype History = History(db: Database, current: Scan, prior: map<string, Scan>, latest: string, baselineId: string,
      at: nat)

  ghost function Introduction(h: History, key: string): Observation
  {
    var all := Observations(h.db, h.prior, key);
    if all == {} then Observation(h.at, h.current.id) else EarliestOf(all)
  }

  function Classify(h: History, key: string): State
  {
    if Observations(h.db, h.prior, key) != {} && !SeenIn(h.db, h.prior, key, h.latest) then Resurfaced
    else if SeenIn(h.db, h.prior, key, h.baselineId) || h.baselineId == h.current.id then Existing
    else New
  }

  /** First-seen recorded earlier for the primary's present identity is carried forward. */
  function Carried(primary: Finding, derived: Observation): Observation
  {
    if primary.baselineKey == Key(primary) && primary.firstSeenAt.Some? && primary.firstSeenAt.value < derived.at
      && primary.introducedIn != "" then
      Observation(primary.firstSeenAt.value, primary.introducedIn)
    else derived
  }

  ghost function Derived(h: History, primary: Finding, f: Finding): Finding
  {
    var introduction := Carried(primary, Introduction(h, Key(primary)));
    f.(baselineKey := Key(primary), state := Classify(h, Key(primary)), introducedIn := introduction.scanId,
       resolvedIn := "", firstSeenAt := Some(introduction.at), lastSeenAt := Some(h.at))
  }

  predicate Crossing(findings: map<string, Finding>, current: Scan)
  {
    exists f :: f in findings && findings[f].scanId == current.id && findings[f].repoId != current.repoId
  }

  predicate HasPrimary(findings: map<string, Finding>, scanId: string, f: Finding)
  {
    Root(f) in findings && IsPrimary(findings[Root(f)], scanId)
  }

  predicate Orphaned(findings: map<string, Finding>, scanId: string)
  {
    exists f :: f in findings && findings[f].scanId == scanId && !HasPrimary(findings, scanId, findings[f])
  }

  ghost function Rederived(h: History): map<string, Finding>
    requires !Orphaned(h.db.findings, h.current.id)
  {
    map f | f in h.db.findings ::
      if h.db.findings[f].scanId == h.current.id then
        assert HasPrimary(h.db.findings, h.current.id, h.db.findings[f]);
        Derived(h, h.db.findings[Root(h.db.findings[f])], h.db.findings[f])
      else h.db.findings[f]
  }

  datatype Outcome = Outcome(db: Database, changed: bool)

  ghost function HistoryOf(db: Database, current: Scan, scans: map<string, Scan>,
      at: nat): Result<History, BaselineError>
  {
    var prior := PriorOf(scans, current, at);
    var chosen := ChosenBaseline(db, current, prior);
    if chosen.Err? then Err(chosen.error) else Ok(History(db, current, prior, LatestOf(prior), chosen.value, at))
  }

  /** deriveFindingBaseline over a set of scans the caller has locked. */
  ghost function Derive(db: Database, current: Scan, scans: map<string, Scan>, at: nat): Result<Outcome, BaselineError>
    requires current.id in db.scans
  {
    var h := HistoryOf(db, current, scans, at);
    if h.Err? then Err(h.error)
    else if Crossing(db.findings, current) then Err(CrossesScope)
    else if Orphaned(db.findings, current.id) then Err(NoPrimary)
    else Ok(Recorded(h.value))
  }

  /** The scan row is written exactly when it was unresolved or a finding changed. */
  ghost function Recorded(h: History): Outcome
    requires h.current.id in h.db.scans && !Orphaned(h.db.findings, h.current.id)
  {
    var findings := Rederived(h);
    if h.current.baselineResolvedAt.Some? && findings == h.db.findings then Outcome(h.db, false)
    else
      Outcome(h.db.(findings := findings,
                    scans :=
                      h.db.scans[h.current.id :=
                        h.db.scans[h.current.id].(baselineScanId := h.baselineId, baselineResolvedAt := Some(h.at))]),
              true)
  }

  predicate MayPersist(s: Scan, token: string)
  {
    && s.cancelRequestedAt.None? && s.leaseToken == token && !(s.status.Completed? && s.failureCode != "")
    && (s.status.Running? || (s.status.Completed? && token == ""))
  }

  /** persistFindingBaseline: under the lease, at the pinned observation, one revision when anything changed. */
  ghost function Persist(db: Database, scanId: string, token: string, at: nat): Result<Database, BaselineError>
  {
    if at == 0 then Err(NoTime)
    else if scanId !in db.scans then Err(NoRows)
    else
      var current := db.scans[scanId];
      if !MayPersist(current, token) then Err(StaleLease)
      else if current.id !in db.scans then Err(NoRows)
      else
        var r := Derive(db, current, Locked(db, current.repoId, map[scanId := at]), CutAt(current, at));
        if r.Err? then Err(r.error)
        else if r.value.changed then Ok(Advanced(r.value.db, scanId))
        else Ok(r.value.db)
  }

  function Advanced(db: Database, scanId: string): Database
  {
    if scanId in db.scans then
      db.(scans := db.scans[scanId := db.scans[scanId].(findingsRevision := db.scans[scanId].findingsRevision + 1)])
    else db
  }

  // ---------- What a classification means ----------

  /** The issue occurs in a finding of some prior scan. */
  predicate EverSeen(h: History, key: string)
  {
    exists f :: f in h.db.findings && Shows(h.db, h.prior, h.db.findings[f], key)
  }

  lemma SeenMeansObserved(h: History, key: string)
    ensures EverSeen(h, key) <==> Observations(h.db, h.prior, key) != {}
    ensures SeenIn(h.db, h.prior, key, h.baselineId) ==> EverSeen(h, key)
    ensures SeenIn(h.db, h.prior, key, h.latest) ==> EverSeen(h, key)
  {
    if f :| f in h.db.findings && Shows(h.db, h.prior, h.db.findings[f], key) {
      assert Observed(h.db, h.prior, h.db.findings[f]) in Observations(h.db, h.prior, key);
    }
  }

  /** What a comparison with the latest compatible prior scan would say. */
  function Ideal(h: History, key: string): State
  {
    if !EverSeen(h, key) then New
    else if SeenIn(h.db, h.prior, key, h.latest) then Existing
    else Resurfaced
  }

  /** The issue is still there but missing from the baseline, or never seen while the scan is its own baseline. */
  predicate BaselineDisagrees(h: History, key: string)
  {
    || (SeenIn(h.db, h.prior, key, h.latest) && !SeenIn(h.db, h.prior, key, h.baselineId)
      && h.baselineId != h.current.id)
    || (!EverSeen(h, key) && h.baselineId == h.current.id)
  }

  /** The classification is the ideal one exactly when the baseline does not disagree about the issue. */
  lemma ClassifiesIdeally(h: History, key: string)
    ensures Classify(h, key) == Ideal(h, key) <==> !BaselineDisagrees(h, key)
  {
    SeenMeansObserved(h, key);
  }

  lemma DerivedColumns(h: History, primary: Finding, f: Finding)
    ensures var after, introduction := Derived(h, primary, f), Carried(primary, Introduction(h, Key(primary)));
      && after.baselineKey == Key(primary) && after.state == Classify(h, Key(primary))
      && after.introducedIn == introduction.scanId
      && after.resolvedIn == "" && after.firstSeenAt == Some(introduction.at) && after.lastSeenAt == Some(h.at)
      && after.id == f.id && after.scanId == f.scanId && after.clusterId == f.clusterId && Key(after) == Key(f)
  {
  }

  lemma AfterDerivation(db: Database, current: Scan, scans: map<string, Scan>, at: nat)
    requires current.id in db.scans && Derive(db, current, scans, at).Ok?
    ensures HistoryOf(db, current, scans, at).Ok? && !Orphaned(db.findings, current.id)
    ensures !Crossing(db.findings, current)
    ensures Derive(db, current, scans, at).value == Recorded(HistoryOf(db, current, scans, at).value)
    ensures Derive(db, current, scans, at).value.db.findings == Rederived(HistoryOf(db, current, scans, at).value)
  {
    hide Rederived, HistoryOf;
  }

  /** A derived row is classified ideally exactly when the baseline does not disagree about its issue. */
  lemma DerivedIdeally(db: Database, current: Scan, scans: map<string, Scan>, at: nat, f: string)
    requires current.id in db.scans && Derive(db, current, scans, at).Ok?
    requires f in db.findings && db.findings[f].scanId == current.id
    ensures HistoryOf(db, current, scans, at).Ok? && Root(db.findings[f]) in db.findings
    ensures f in Derive(db, current, scans, at).value.db.findings
    ensures var h, after :=
      HistoryOf(db, current, scans, at).value, Derive(db, current, scans, at).value.db.findings[f];
      && after.baselineKey == Key(db.findings[Root(db.findings[f])]) && after.state == Classify(h, after.baselineKey)
      && (after.state == Ideal(h, after.baselineKey) <==> !BaselineDisagrees(h, after.baselineKey))
  {
    hide Derived, Classify, Ideal, BaselineDisagrees, PriorOf, ChosenBaseline, LatestOf;
    AfterDerivation(db, current, scans, at);
    var h := HistoryOf(db, current, scans, at).value;
    assert HasPrimary(db.findings, current.id, db.findings[f]);
    DerivedColumns(h, db.findings[Root(db.findings[f])], db.findings[f]);
    ClassifiesIdeally(h, Key(db.findings[Root(db.findings[f])]));
  }

  // ---------- An example ----------

  /** Scan "p" completed last, "q" before it; "c" has "q" as its saved baseline. All but "q" have the issue "k". */
  const LATEST :=
    Scan("p", "r", "main", Completed, Some(2), None, "", "", Some([]), Some(["t"]), Some([]), "", None, "", "", None, 0)
  const OLDER := LATEST.(id := "q", completedAt := Some(1))
  const CURRENT :=
    LATEST.(id := "c", status := Running, completedAt := None, baselineScanId := "q", baselineResolvedAt := Some(3))
  const ISSUE := Finding("f", "p", "r", "", "k", "", "", "", Unclassified, "", "", None, None)
  const EXAMPLE := Database(map["p" := LATEST, "q" := OLDER, "c" := CURRENT],
                            map["f" := ISSUE, "g" := ISSUE.(id := "g", scanId := "c")], map[], "")
  const PRIOR := map["p" := LATEST, "q" := OLDER]

  lemma ExampleHistory()
    ensures HistoryOf(EXAMPLE, CURRENT, EXAMPLE.scans, 3) == Ok(History(EXAMPLE, CURRENT, PRIOR, "p", "q", 3))
  {
    hide LatestOf;
    assert PriorOf(EXAMPLE.scans, CURRENT, 3) == PRIOR;
    LatestIsNewest(PRIOR);
    assert "p" in PRIOR && PRIOR != map[];
    assert LatestOf(PRIOR) == "p" by {
      assert CompletionTime(OLDER) < CompletionTime(LATEST);
      assert CompletionTime(PRIOR["p"]) <= CompletionTime(PRIOR[LatestOf(PRIOR)]);
    }
  }

  lemma ExampleDerives()
    ensures Valid(EXAMPLE) && Derive(EXAMPLE, CURRENT, EXAMPLE.scans, 3).Ok?
  {
    hide HistoryOf, Recorded;
    ExampleHistory();
    assert !Crossing(EXAMPLE.findings, CURRENT) && !Orphaned(EXAMPLE.findings, "c");
  }

  lemma ExampleClassified()
    ensures var h := History(EXAMPLE, CURRENT, PRIOR, "p", "q", 3); Classify(h, "k") == New && Ideal(h, "k") == Existing
  {
    var h := History(EXAMPLE, CURRENT, PRIOR, "p", "q", 3);
    assert Shows(EXAMPLE, PRIOR, EXAMPLE.findings["f"], "k");
    assert SeenIn(EXAMPLE, PRIOR, "k", "p") && !SeenIn(EXAMPLE, PRIOR, "k", "q");
    ClassifiesIdeally(h, "k");
    SeenMeansObserved(h, "k");
  }

  /** An issue of the latest prior scan that the older baseline does not have is recorded as new, not as existing. */
  lemma StillThereButNew() returns (db: Database, h: History)
    ensures Valid(db) && "c" in db.scans && "g" in db.findings && db.findings["g"].scanId == "c"
    ensures Key(db.findings["g"]) == "k"
    ensures Derive(db, db.scans["c"], db.scans, 3).Ok? && HistoryOf(db, db.scans["c"], db.scans, 3) == Ok(h)
    ensures "g" in Derive(db, db.scans["c"], db.scans, 3).value.db.findings
    ensures Derive(db, db.scans["c"], db.scans, 3).value.db.findings["g"].state == New && Ideal(h, "k") == Existing
  {
    hide HistoryOf, Derive, Classify, Ideal, BaselineDisagrees;
    db, h := EXAMPLE, History(EXAMPLE, CURRENT, PRIOR, "p", "q", 3);
    ExampleHistory();
    ExampleDerives();
    ExampleClassified();
    DerivedIdeally(db, CURRENT, db.scans, 3, "g");
  }

  /** A chosen baseline that is the latest prior scan, or nothing when there is none, is no reason to disagree. */
  lemma LatestAgrees(db: Database, current: Scan, scans: map<string, Scan>, at: nat, key: string)
    requires HistoryOf(db, current, scans, at).Ok?
    requires HistoryOf(db, current, scans, at).value.baselineId == HistoryOf(db, current, scans, at).value.latest
    requires current.id != "" && forall id :: id in scans ==> scans[id].id == id && id != ""
    ensures !BaselineDisagrees(HistoryOf(db, current, scans, at).value, key)
    ensures Classify(HistoryOf(db, current, scans, at).value, key)
      == Ideal(HistoryOf(db, current, scans, at).value, key)
  {
    hide LatestOf, ChosenBaseline, EverSeen, ValidBaselineScan;
    var h := HistoryOf(db, current, scans, at).value;
    LatestIsNewest(h.prior);
    assert h.latest != current.id;
    ClassifiesIdeally(h, key);
  }

  /** With the latest prior scan as baseline, or none when there is none, every derived row is classified ideally. */
  lemma LatestBaselineIsIdeal(db: Database, current: Scan, scans: map<string, Scan>, at: nat, f: string)
    requires current.id in db.scans && Derive(db, current, scans, at).Ok?
    requires HistoryOf(db, current, scans, at).Ok?
    requires HistoryOf(db, current, scans, at).value.baselineId == HistoryOf(db, current, scans, at).value.latest
    requires current.id != "" && forall id :: id in scans ==> scans[id].id == id && id != ""
    requires f in db.findings && db.findings[f].scanId == current.id
    ensures f in Derive(db, current, scans, at).value.db.findings
    ensures var h, after :=
      HistoryOf(db, current, scans, at).value, Derive(db, current, scans, at).value.db.findings[f];
      after.state == if !EverSeen(h, after.baselineKey) then New
                     else if SeenIn(h.db, h.prior, after.baselineKey, h.latest) then Existing
                     else Resurfaced
  {
    hide Derive, HistoryOf, Classify, BaselineDisagrees, EverSeen, SeenIn;
    DerivedIdeally(db, current, scans, at, f);
    LatestAgrees(db, current, scans, at, Derive(db, current, scans, at).value.db.findings[f].baselineKey);
  }

  /** All members of a cluster get the same key, state, introduction and times. */
  lemma MembersAlike(db: Database, current: Scan, scans: map<string, Scan>, at: nat, f: string, g: string)
    requires current.id in db.scans && Derive(db, current, scans, at).Ok?
    requires f in db.findings && g in db.findings && db.findings[f].scanId == current.id
    requires db.findings[g].scanId == current.id
    requires Root(db.findings[f]) == Root(db.findings[g])
    ensures var after := Derive(db, current, scans, at).value.db.findings;
      && f in after && g in after
      && after[f].baselineKey == after[g].baselineKey && after[f].state == after[g].state
      && after[f].introducedIn == after[g].introducedIn && after[f].resolvedIn == after[g].resolvedIn
      && after[f].firstSeenAt == after[g].firstSeenAt && after[f].lastSeenAt == after[g].lastSeenAt
  {
    hide Derived, PriorOf, ChosenBaseline, LatestOf;
    var h := HistoryOf(db, current, scans, at).value;
    AfterDerivation(db, current, scans, at);
    var primary := db.findings[Root(db.findings[f])];
    DerivedColumns(h, primary, db.findings[f]);
    DerivedColumns(h, primary, db.findings[g]);
  }

  // ---------- First seen ----------

  /** First-seen is no later than the completion of any prior scan that had the issue. */
  lemma FirstSeenIsEarliest(db: Database, current: Scan, scans: map<string, Scan>, at: nat, f: string, h: string)
    requires current.id in db.scans && Derive(db, current, scans, at).Ok?
    requires f in db.findings && db.findings[f].scanId == current.id && h in db.findings
    requires Shows(db, PriorOf(scans, current, at), db.findings[h],
      Derive(db, current, scans, at).value.db.findings[f].baselineKey)
    ensures var after := Derive(db, current, scans, at).value.db.findings[f];
      after.firstSeenAt.Some?
        && after.firstSeenAt.value <= CompletionTime(PriorOf(scans, current, at)[db.findings[h].scanId])
  {
    hide Derived, PriorOf, ChosenBaseline, LatestOf;
    var hist := HistoryOf(db, current, scans, at).value;
    AfterDerivation(db, current, scans, at);
    var primary := db.findings[Root(db.findings[f])];
    DerivedColumns(hist, primary, db.findings[f]);
    assert Observed(db, hist.prior, db.findings[h]) in Observations(db, hist.prior, Key(primary));
  }

  /**
   Derivation never moves first-seen later for a primary whose identity is unchanged and whose
   introduction is recorded.
  */
  lemma FirstSeenNeverLater(db: Database, current: Scan, scans: map<string, Scan>, at: nat, f: string)
    requires current.id in db.scans && Derive(db, current, scans, at).Ok?
    requires f in db.findings && db.findings[f].scanId == current.id
    requires Root(db.findings[f]) in db.findings
    requires var primary := db.findings[Root(db.findings[f])];
      primary.baselineKey == Key(primary) && primary.introducedIn != "" && primary.firstSeenAt.Some?
    ensures var after := Derive(db, current, scans, at).value.db.findings[f];
      after.firstSeenAt.Some? && after.firstSeenAt.value <= db.findings[Root(db.findings[f])].firstSeenAt.value
  {
    hide Derived, PriorOf, ChosenBaseline, LatestOf, Introduction;
    AfterDerivation(db, current, scans, at);
    DerivedColumns(HistoryOf(db, current, scans, at).value, db.findings[Root(db.findings[f])], db.findings[f]);
  }

  // ---------- Deriving twice ----------

  /** The scan as a first derivation leaves it. */
  predicate Resolved(before: Scan, after: Scan, baselineId: string, at: nat)
  {
    after == before.(baselineScanId := baselineId, baselineResolvedAt := Some(at),
      findingsRevision := after.findingsRevision)
  }

  /** The two databases agree on all rows but the derived columns of the current scan. */
  ghost predicate SameHistory(db: Database, after: Database, scanId: string)
  {
    && after.blankKey == db.blankKey && after.findings.Keys == db.findings.Keys
    && forall f :: f in db.findings ==>
         && after.findings[f].scanId == db.findings[f].scanId
         && (db.findings[f].scanId != scanId ==> after.findings[f] == db.findings[f])
  }

  lemma SameObservations(db: Database, after: Database, prior: map<string, Scan>, scanId: string, key: string)
    requires SameHistory(db, after, scanId) && scanId !in prior
    ensures Observations(after, prior, key) == Observations(db, prior, key)
    ensures forall s :: SeenIn(after, prior, key, s) == SeenIn(db, prior, key, s)
  {
    forall f | f in db.findings
      ensures Shows(after, prior, after.findings[f], key) == Shows(db, prior, db.findings[f], key)
      ensures Shows(db, prior, db.findings[f], key) ==>
        Observed(after, prior, after.findings[f]) == Observed(db, prior, db.findings[f])
    {
    }
    forall o | o in Observations(db, prior, key)
      ensures o in Observations(after, prior, key)
    {
      var f :| f in db.findings && Shows(db, prior, db.findings[f], key) && Observed(db, prior, db.findings[f]) == o;
      assert Shows(after, prior, after.findings[f], key);
    }
    forall o | o in Observations(after, prior, key)
      ensures o in Observations(db, prior, key)
    {
      var f :| f in after.findings && Shows(after, prior, after.findings[f], key)
        && Observed(after, prior, after.findings[f]) == o;
      assert Shows(db, prior, db.findings[f], key);
    }
    forall s
      ensures SeenIn(after, prior, key, s) == SeenIn(db, prior, key, s)
    {
      if SeenIn(db, prior, key, s) {
        var f :| f in db.findings && db.findings[f].scanId == s && Shows(db, prior, db.findings[f], key);
        assert Shows(after, prior, after.findings[f], key);
      }
      if SeenIn(after, prior, key, s) {
        var f :| f in after.findings && after.findings[f].scanId == s && Shows(after, prior, after.findings[f], key);
        assert Shows(db, prior, db.findings[f], key);
      }
    }
  }

  /** A derived row derives to itself, provided history, baseline and time are the same. */
  lemma DerivedIsStable(h: History, h': History, primary: Finding, primary': Finding, f: Finding, f': Finding)
    requires h'.prior == h.prior && h'.latest == h.latest && h'.baselineId == h.baselineId && h'.at == h.at
    requires h'.current.id == h.current.id
    requires SameHistory(h.db, h'.db, h.current.id) && h.current.id !in h.prior
    requires f' == Derived(h, primary, f) && primary' == Derived(h, primary, primary)
    ensures Derived(h', primary', f') == f'
  {
    SameObservations(h.db, h'.db, h.prior, h.current.id, Key(primary));
    var introduction := Introduction(h, Key(primary));
    assert Introduction(h', Key(primary')) == introduction;
    assert Carried(primary', introduction) == Carried(primary, introduction);
  }

  /** The history a second derivation reads is the one the first read. */
  lemma SameHistoryTwice(db: Database, current: Scan, scans: map<string, Scan>, at: nat, after: Database,
      current': Scan, scans': map<string, Scan>)
    requires Valid(db) && current.id in db.scans && Derive(db, current, scans, at).Ok?
    requires after.findings == Derive(db, current, scans, at).value.db.findings && after.blankKey == db.blankKey
    requires Resolved(current, current', HistoryOf(db, current, scans, at).value.baselineId, at)
    requires PriorOf(scans', current', at) == PriorOf(scans, current, at)
    requires forall id :: id in scans ==> scans[id].id == id
    ensures HistoryOf(after, current', scans', at).Ok?
    ensures var h, h' := HistoryOf(db, current, scans, at).value, HistoryOf(after, current', scans', at).value;
      && h'.prior == h.prior && h'.latest == h.latest && h'.baselineId == h.baselineId && h'.at == h.at
      && h'.current.id == h.current.id
      && h'.db == after && h.db == db && h.current == current && h'.current == current' && current.id !in h.prior
      && SameHistory(db, after, current.id)
  {
    hide Derived;
    AfterDerivation(db, current, scans, at);
    var prior := PriorOf(scans, current, at);
    ChosenQualifies(db, current, prior);
    forall f | f in db.findings && db.findings[f].scanId == current.id
      ensures after.findings[f].scanId == db.findings[f].scanId
    {
      assert HasPrimary(db.findings, current.id, db.findings[f]);
      DerivedColumns(HistoryOf(db, current, scans, at).value, db.findings[Root(db.findings[f])], db.findings[f]);
    }
  }

  lemma ChosenQualifies(db: Database, current: Scan, prior: map<string, Scan>)
    requires ChosenBaseline(db, current, prior).Ok?
    ensures Qualifies(ChosenBaseline(db, current, prior).value, current, prior)
  {
  }

  /** Deriving again over the same history writes no finding and reports no change. */
  lemma DeriveTwice(db: Database, current: Scan, scans: map<string, Scan>, at: nat, after: Database, current': Scan,
      scans': map<string, Scan>)
    requires Valid(db) && current.id in db.scans && Derive(db, current, scans, at).Ok?
    requires after.findings == Derive(db, current, scans, at).value.db.findings && after.blankKey == db.blankKey
    requires current.id in after.scans
    requires Resolved(current, current', HistoryOf(db, current, scans, at).value.baselineId, at)
    requires PriorOf(scans', current', at) == PriorOf(scans, current, at)
    requires forall id :: id in scans ==> scans[id].id == id
    ensures Derive(after, current', scans', at) == Ok(Outcome(after, false))
  {
    hide Derived, PriorOf, HistoryOf;
    SameHistoryTwice(db, current, scans, at, after, current', scans');
    AfterDerivation(db, current, scans, at);
    var h, h' := HistoryOf(db, current, scans, at).value, HistoryOf(after, current', scans', at).value;
    DerivedKeepsShape(h);
    assert Rederived(h') == after.findings by {
      forall f | f in after.findings && after.findings[f].scanId == current.id
        ensures Rederived(h')[f] == after.findings[f]
      {
        RederivedRow(h, f);
        RederivedRow(h, Root(db.findings[f]));
        DerivedIsStable(h, h', db.findings[Root(db.findings[f])], after.findings[Root(db.findings[f])], db.findings[f],
          after.findings[f]);
      }
    }
    assert !Crossing(after.findings, current') && !Orphaned(after.findings, current'.id);
  }

  lemma RederivedRow(h: History, f: string)
    requires Valid(h.db) && !Orphaned(h.db.findings, h.current.id) && f in h.db.findings
    requires h.db.findings[f].scanId == h.current.id
    ensures var root := Root(h.db.findings[f]);
      && root in h.db.findings && IsPrimary(h.db.findings[root], h.current.id) && Root(h.db.findings[root]) == root
      && Rederived(h)[f] == Derived(h, h.db.findings[root], h.db.findings[f])
  {
    hide Derived;
    assert HasPrimary(h.db.findings, h.current.id, h.db.findings[f]);
  }

  /** Derivation touches neither membership nor scope, so the checks pass again. */
  lemma DerivedKeepsShape(h: History)
    requires Valid(h.db) && !Orphaned(h.db.findings, h.current.id)
    ensures var after := Rederived(h);
      && !Orphaned(after, h.current.id) && (Crossing(after, h.current) <==> Crossing(h.db.findings, h.current))
      && forall f :: f in after ==> SamePlace(h.db.findings[f], after[f])
  {
    hide Classify, Introduction, Carried;
    var after := Rederived(h);
    forall f | f in after
      ensures SamePlace(h.db.findings[f], after[f])
      ensures after[f].scanId == h.current.id ==> HasPrimary(after, h.current.id, after[f])
    {
      if h.db.findings[f].scanId == h.current.id {
        RederivedRow(h, f);
        RederivedRow(h, Root(h.db.findings[f]));
      }
    }
  }

  predicate SamePlace(a: Finding, b: Finding)
  {
    b.id == a.id && b.scanId == a.scanId && b.repoId == a.repoId && b.clusterId == a.clusterId
  }

  /** Persisting a second time, at whatever time, changes nothing at all, not even the revision. */
  lemma PersistTwice(db: Database, scanId: string, token: string, at: nat, later: nat)
    requires Valid(db) && Persist(db, scanId, token, at).Ok? && later > 0
    ensures Persist(Persist(db, scanId, token, at).value, scanId, token, later) == Persist(db, scanId, token, at)
  {
    hide Derive, HistoryOf, PriorOf, Locked;
    var current := db.scans[scanId];
    var cut := CutAt(current, at);
    var scans := Locked(db, current.repoId, map[scanId := at]);
    var after := Persist(db, scanId, token, at).value;
    PersistWrites(db, scanId, token, at);
    var current' := after.scans[scanId];
    SamePriorTwice(db, after, scanId, at, later);
    LockedIds(db, current.repoId, map[scanId := at]);
    DeriveTwice(db, current, scans, cut, after, current', Locked(after, current.repoId, map[scanId := later]));
  }

  lemma LockedIds(db: Database, repoId: string, targets: map<string, nat>)
    requires Valid(db)
    ensures forall id :: id in Locked(db, repoId, targets) ==> Locked(db, repoId, targets)[id].id == id
  {
  }

  /** Persisting pins the scan's observation and leaves every other scan alone. */
  lemma PersistWrites(db: Database, scanId: string, token: string, at: nat)
    requires Valid(db) && Persist(db, scanId, token, at).Ok?
    ensures scanId in db.scans && db.scans[scanId].id == scanId
    ensures var current, after := db.scans[scanId], Persist(db, scanId, token, at).value;
      var scans, cut := Locked(db, current.repoId, map[scanId := at]), CutAt(current, at);
      && Derive(db, current, scans, cut).Ok? && HistoryOf(db, current, scans, cut).Ok?
      && after.findings == Derive(db, current, scans, cut).value.db.findings && after.blankKey == db.blankKey
      && scanId in after.scans && after.scans == db.scans[scanId := after.scans[scanId]]
      && Resolved(current, after.scans[scanId], HistoryOf(db, current, scans, cut).value.baselineId, cut)
  {
    hide Locked, PriorOf, LatestOf, Rederived;
    var current := db.scans[scanId];
    AfterDerivation(db, current, Locked(db, current.repoId, map[scanId := at]), CutAt(current, at));
  }

  lemma SamePriorTwice(db: Database, after: Database, scanId: string, at: nat, later: nat)
    requires Valid(db) && scanId in db.scans && scanId in after.scans
    requires after.scans == db.scans[scanId := after.scans[scanId]]
    requires exists baselineId ::
      Resolved(db.scans[scanId], after.scans[scanId], baselineId, CutAt(db.scans[scanId], at))
    ensures var current, current' := db.scans[scanId], after.scans[scanId];
      PriorOf(Locked(after, current.repoId, map[scanId := later]), current', CutAt(current, at))
      == PriorOf(Locked(db, current.repoId, map[scanId := at]), current, CutAt(current, at))
  {
    hide Locked, PriorOf;
    var current := db.scans[scanId];
    LockedIsEnough(db, current.repoId, map[scanId := at], scanId);
    LockedIsEnough(after, current.repoId, map[scanId := later], scanId);
    PriorUnchanged(db, after, scanId, CutAt(current, at));
  }

  lemma PriorUnchanged(db: Database, after: Database, scanId: string, at: nat)
    requires Valid(db) && scanId in db.scans && scanId in after.scans
    requires after.scans == db.scans[scanId := after.scans[scanId]]
    requires exists baselineId :: Resolved(db.scans[scanId], after.scans[scanId], baselineId, at)
    ensures PriorOf(OfRepo(after, db.scans[scanId].repoId), after.scans[scanId], at)
         == PriorOf(OfRepo(db, db.scans[scanId].repoId), db.scans[scanId], at)
  {
    hide ValidBaselineScan;
    var current, current' := db.scans[scanId], after.scans[scanId];
    forall s: Scan
      ensures IsPrior(s, current', at) == IsPrior(s, current, at)
    {
    }
    assert !IsPrior(current', current', at) && !IsPrior(current, current, at);
  }
}
