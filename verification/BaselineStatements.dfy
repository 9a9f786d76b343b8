/** Baseline derivation in columns: what counts as history, and what each row of the scan becomes. */
module BaselineStatements {
  import opened Wrappers
  import opened Text
  import opened Tables
  import opened Baselines

  // ---------- One identity for an issue ----------

  function KeyOf(f: Finding, otherwise: string): string
  {
    if f.stableFingerprint != "" then f.stableFingerprint
    else if f.fingerprint != "" then f.fingerprint
    else otherwise
  }

  /** History rows and present rows are compared by the same identity, as soon as a fingerprint is stored. */
  lemma OneKey(db: Database, f: Finding)
    ensures Key(f) == KeyOf(f, f.builtKey) && HistoryKey(db, f) == KeyOf(f, db.blankKey)
    ensures f.stableFingerprint != "" || f.fingerprint != "" ==> HistoryKey(db, f) == Key(f)
  {
  }

  // ---------- Which scans are history ----------

  /** Completed without failure or cancellation, every selected tool run and none failed. */
  predicate CleanlyDone(s: Scan)
  {
    && s.status == Completed && s.completedAt != None && s.cancelRequestedAt == None && s.failureCode == ""
    && s.toolsFailed == Some([]) && s.toolsCompleted != None && s.toolsCompleted != Some([]) && s.toolsSelected != None
    && forall t :: t in s.toolsSelected.value ==> t in s.toolsCompleted.value
  }

  /** The same kind of source, and for a remote one the same place. */
  predicate SameSource(a: Scan, b: Scan)
  {
    && (if a.sourceType == "" then "local" else a.sourceType) == (if b.sourceType == "" then "local" else b.sourceType)
    && (a.sourceType == "ssh" ==>
          a.sourcePath == b.sourcePath
          && (a.remoteNodeId == b.remoteNodeId
              || (a.remoteNodeId in {None, Some("")} && b.remoteNodeId in {None, Some("")})))
  }

  /** Cleanly done on the branch from the same source, before the time given. */
  predicate Precedes(s: Scan, current: Scan, at: nat)
  {
    && s.id != current.id && s.branch == current.branch && CleanlyDone(s) && s.completedAt.value < at
    && SameSource(s, current)
  }

  lemma CleanlyDoneIs(s: Scan)
    ensures ValidBaselineScan(s) <==> CleanlyDone(s)
  {
  }

  lemma PrecedesIs(s: Scan, current: Scan, at: nat)
    ensures IsPrior(s, current, at) <==> Precedes(s, current, at)
  {
    hide ValidBaselineScan, CleanlyDone;
    CleanlyDoneIs(s);
  }

  /** The observation time pinned before, else the one given. */
  function Cut(s: Scan, at: nat): nat
  {
    match s.baselineResolvedAt
    case Some(pinned) => pinned
    case None => at
  }

  /** The history persisting reads is every scan of the repository that precedes, whatever subset was locked. */
  lemma HistoryExactly(db: Database, scanId: string, at: nat)
    requires Valid(db) && scanId in db.scans
    ensures var current := db.scans[scanId];
      PriorOf(Locked(db, current.repoId, map[scanId := at]), current, CutAt(current, at))
      == map id | id in db.scans && db.scans[id].repoId == current.repoId
                  && Precedes(db.scans[id], current, Cut(current, at)) :: db.scans[id]
  {
    hide Precedes, IsPrior, Locked;
    var current := db.scans[scanId];
    LockedIsEnough(db, current.repoId, map[scanId := at], scanId);
    forall id | id in db.scans
      ensures IsPrior(db.scans[id], current, Cut(current, at)) <==> Precedes(db.scans[id], current, Cut(current, at))
    {
      PrecedesIs(db.scans[id], current, Cut(current, at));
    }
  }

  /** The scans locked are the target and the completed ones of its branch before the cut. */
  lemma LockedExactly(db: Database, scanId: string, at: nat)
    requires Valid(db) && scanId in db.scans
    ensures var current := db.scans[scanId];
      Locked(db, current.repoId, map[scanId := at])
      == map id | id in db.scans && db.scans[id].repoId == current.repoId
                  && (id == scanId || (db.scans[id].status == Completed && db.scans[id].branch == current.branch
                                       && db.scans[id].completedAt != None
                                       && db.scans[id].completedAt.value < Cut(current, at))) :: db.scans[id]
  {
    var current := db.scans[scanId];
    var scans, targets := OfRepo(db, current.repoId), map[scanId := at];
    forall id | id in scans && scans[id].completedAt.Some?
      ensures CutBeyond(scans, targets, scans[id].branch, scans[id].completedAt.value) <==>
        scans[id].branch == current.branch && scans[id].completedAt.value < Cut(current, at)
    {
      assert Cuts(scans, targets, scanId, scans[id].branch, scans[id].completedAt.value) <==>
        scans[id].branch == current.branch && scans[id].completedAt.value < Cut(current, at);
    }
  }

  /** The first completed after the second, or has the smaller id on a tie. */
  predicate Later(a: Scan, b: Scan)
  {
    match (a.completedAt, b.completedAt)
    case (Some(x), Some(y)) => y < x || (y == x && Less(a.id, b.id))
    case _ => false
  }

  /** Completed last, the smaller id on a tie. */
  ghost predicate Last(prior: map<string, Scan>, id: string)
  {
    && id in prior && prior[id].completedAt != None
    && forall other :: other in prior && other != id && prior[other].completedAt != None ==>
         || prior[other].completedAt.value < prior[id].completedAt.value
         || (prior[other].completedAt.value == prior[id].completedAt.value && Less(prior[id].id, prior[other].id))
  }

  lemma LatestExactly(prior: map<string, Scan>)
    requires forall id :: id in prior ==> prior[id].id == id && id != "" && prior[id].completedAt != None
    ensures if prior == map[] then LatestOf(prior) == "" else Last(prior, LatestOf(prior))
  {
    hide Less;
    forall s: Scan
      ensures AnyScan()(s)
    {
    }
    forall a: Scan, b: Scan | a.completedAt.Some? && b.completedAt.Some?
      ensures Newest()(a, b) <==> Later(a, b)
    {
    }
    hide AnyScan, Newest;
    NewestOrders(prior);
    FirstSome(prior, AnyScan(), Newest());
    if id :| id in prior {
      assert AnyScan()(prior[id]);
    }
  }

  /** Which baseline is used: the resolved one, the automatic one while it qualifies, else the latest. */
  lemma BaselineExactly(db: Database, current: Scan, prior: map<string, Scan>)
    ensures ChosenBaseline(db, current, prior)
      == match current.baselineResolvedAt
         case Some(_) =>
           if current.baselineScanId in {"", current.id} || current.baselineScanId in prior then
             Ok(current.baselineScanId)
           else Err(InvalidSaved)
         case None =>
           var named := (current.repoId, current.branch);
           if named in db.autoBaselines
              && (db.autoBaselines[named] == "" || db.autoBaselines[named] == current.id
                  || db.autoBaselines[named] in prior) then Ok(db.autoBaselines[named])
           else Ok(LatestOf(prior))
  {
    hide LatestOf;
  }

  // ---------- What a row becomes ----------

  /** A row of a prior scan with the identity. */
  predicate Bears(db: Database, prior: map<string, Scan>, f: string, key: string)
  {
    f in db.findings && db.findings[f].scanId in prior && KeyOf(db.findings[f], db.blankKey) == key
  }

  predicate Seen(db: Database, prior: map<string, Scan>, key: string)
  {
    exists f :: f in db.findings && Bears(db, prior, f, key)
  }

  predicate SeenBy(db: Database, prior: map<string, Scan>, key: string, scanId: string)
  {
    exists f :: f in db.findings && Bears(db, prior, f, key) && db.findings[f].scanId == scanId
  }

  lemma BearsIs(db: Database, prior: map<string, Scan>, f: string, key: string)
    ensures f in db.findings && Shows(db, prior, db.findings[f], key) <==> Bears(db, prior, f, key)
  {
  }

  lemma SeenIs(db: Database, prior: map<string, Scan>, key: string, scanId: string)
    ensures Seen(db, prior, key) <==> Observations(db, prior, key) != {}
    ensures SeenBy(db, prior, key, scanId) <==> SeenIn(db, prior, key, scanId)
  {
    hide Shows, Observed, Bears;
    forall f | f in db.findings
      ensures Shows(db, prior, db.findings[f], key) <==> Bears(db, prior, f, key)
      ensures Bears(db, prior, f, key) ==> db.findings[f].scanId in prior
    {
      BearsIs(db, prior, f, key);
      if Bears(db, prior, f, key) {
        BearsPrior(db, prior, f, key);
      }
    }
    if f :| f in db.findings && Bears(db, prior, f, key) {
      assert Observed(db, prior, db.findings[f]) in Observations(db, prior, key);
    }
  }

  lemma BearsPrior(db: Database, prior: map<string, Scan>, f: string, key: string)
    requires Bears(db, prior, f, key)
    ensures f in db.findings && db.findings[f].scanId in prior
  {
  }

  /** Resurfaced when seen before but not last, existing when in the baseline, else new. */
  lemma StateExactly(h: History, key: string)
    ensures Classify(h, key)
      == if Seen(h.db, h.prior, key) && !SeenBy(h.db, h.prior, key, h.latest) then Resurfaced
         else if h.baselineId == h.current.id || SeenBy(h.db, h.prior, key, h.baselineId) then Existing
         else New
  {
    hide Observations, SeenIn, Seen, SeenBy;
    SeenIs(h.db, h.prior, key, h.latest);
    SeenIs(h.db, h.prior, key, h.baselineId);
  }

  /** When and where the row saw its issue: in its scan, or earlier if the row recorded so for the same identity. */
  function Sighting(db: Database, prior: map<string, Scan>, f: Finding): Observation
    requires f.scanId in prior && prior[f.scanId].completedAt.Some?
  {
    var done := prior[f.scanId].completedAt.value;
    match f.firstSeenAt
    case Some(first) =>
      if first < done && f.baselineKey == KeyOf(f, db.blankKey) then
        Observation(first, if f.introducedIn != "" then f.introducedIn else f.scanId)
      else Observation(done, f.scanId)
    case None => Observation(done, f.scanId)
  }

  predicate NoLater(a: Observation, b: Observation)
  {
    a.at < b.at || (a.at == b.at && (a.scanId == b.scanId || Less(a.scanId, b.scanId)))
  }

  lemma SightingIs(db: Database, prior: map<string, Scan>, f: Finding)
    requires f.scanId in prior && prior[f.scanId].completedAt.Some?
    ensures Observed(db, prior, f) == Sighting(db, prior, f)
  {
  }

  /** The introduction of an issue is its earliest sighting, and the scan itself when there is none. */
  lemma IntroductionExactly(h: History, key: string)
    requires forall id :: id in h.prior ==> h.prior[id].completedAt.Some?
    ensures var first := Introduction(h, key);
      && (!Seen(h.db, h.prior, key) ==> first == Observation(h.at, h.current.id))
      && (Seen(h.db, h.prior, key) ==>
            exists f :: Bears(h.db, h.prior, f, key) && first == Sighting(h.db, h.prior, h.db.findings[f]))
      && forall f :: Bears(h.db, h.prior, f, key) ==> NoLater(first, Sighting(h.db, h.prior, h.db.findings[f]))
  {
    hide Bears, Observed, Sighting, Less, Seen;
    SeenIs(h.db, h.prior, key, h.latest);
    var all := Observations(h.db, h.prior, key);
    forall f | Bears(h.db, h.prior, f, key)
      ensures f in h.db.findings && h.db.findings[f].scanId in h.prior
      ensures Sighting(h.db, h.prior, h.db.findings[f]) in all
    {
      BearsIs(h.db, h.prior, f, key);
      BearsPrior(h.db, h.prior, f, key);
      SightingIs(h.db, h.prior, h.db.findings[f]);
      assert Observed(h.db, h.prior, h.db.findings[f]) in all;
    }
    if all != {} {
      var first := Introduction(h, key);
      assert IsEarliest(all, first);
      var f :| f in h.db.findings && h.db.findings[f].scanId in h.prior && Shows(h.db, h.prior, h.db.findings[f], key)
        && Observed(h.db, h.prior, h.db.findings[f]) == first;
      BearsIs(h.db, h.prior, f, key);
      BearsPrior(h.db, h.prior, f, key);
      SightingIs(h.db, h.prior, h.db.findings[f]);
    } else if f :| Bears(h.db, h.prior, f, key) {
      assert false;
    }
  }

  /** The columns a row gets from its primary. */
  lemma DerivedExactly(h: History, primary: Finding, f: Finding)
    ensures var key, first := KeyOf(primary, primary.builtKey), Introduction(h, KeyOf(primary, primary.builtKey));
      var kept := primary.baselineKey == key && primary.introducedIn != ""
        && (match primary.firstSeenAt case Some(t) => t < first.at case None => false);
      Derived(h, primary, f)
      == Finding(f.id, f.scanId, f.repoId, f.clusterId, f.stableFingerprint, f.fingerprint, f.builtKey, key,
                 Classify(h, key), if kept then primary.introducedIn else first.scanId, "",
                 if kept then primary.firstSeenAt else Some(first.at), Some(h.at))
  {
    hide Introduction, Classify;
  }

  /** The row that speaks for a row: its cluster's, or its own. */
  function SpeakerOf(f: Finding): string
  {
    if f.clusterId != "" then f.clusterId else f.id
  }

  predicate Speaks(findings: map<string, Finding>, scanId: string, f: Finding)
  {
    && SpeakerOf(f) in findings && findings[SpeakerOf(f)].scanId == scanId
    && findings[SpeakerOf(f)].clusterId in {"", findings[SpeakerOf(f)].id}
  }

  /** How a derivation is answered, its checks in order. */
  lemma DeriveAnswers(db: Database, current: Scan, scans: map<string, Scan>, at: nat)
    requires current.id in db.scans
    ensures var answer := Derive(db, current, scans, at);
      var chosen := ChosenBaseline(db, current, PriorOf(scans, current, at));
      if chosen.Err? then answer == Err(chosen.error)
      else if exists f :: f in db.findings && db.findings[f].scanId == current.id
                          && db.findings[f].repoId != current.repoId then
        answer == Err(CrossesScope)
      else if exists f :: f in db.findings && db.findings[f].scanId == current.id
                          && !Speaks(db.findings, current.id, db.findings[f]) then answer == Err(NoPrimary)
      else answer.Ok?
  {
    hide ChosenBaseline, PriorOf, LatestOf, Recorded;
  }

  /** What a derivation writes: the rows of the scan from the rows that speak for them, and the baseline it used. */
  lemma DeriveWrites(db: Database, current: Scan, scans: map<string, Scan>, at: nat)
    requires current.id in db.scans && Derive(db, current, scans, at).Ok?
    ensures HistoryOf(db, current, scans, at).Ok?
    ensures var h, after := HistoryOf(db, current, scans, at).value, Derive(db, current, scans, at).value.db;
      && after.findings.Keys == db.findings.Keys
      && after.autoBaselines == db.autoBaselines && after.blankKey == db.blankKey
      && (forall f :: f in db.findings && db.findings[f].scanId == current.id ==>
            SpeakerOf(db.findings[f]) in db.findings)
      && (forall f :: f in db.findings ==>
            after.findings[f] == if db.findings[f].scanId == current.id then
                                   Derived(h, db.findings[SpeakerOf(db.findings[f])], db.findings[f])
                                 else db.findings[f])
      && (Derive(db, current, scans, at).value.changed <==>
            current.baselineResolvedAt == None || after.findings != db.findings)
      && after.scans == if Derive(db, current, scans, at).value.changed then
           db.scans[current.id :=
             db.scans[current.id].(baselineScanId := h.baselineId, baselineResolvedAt := Some(at))]
         else db.scans
  {
    hide Derived, PriorOf, ChosenBaseline, LatestOf;
    AfterDerivation(db, current, scans, at);
    forall f | f in db.findings && db.findings[f].scanId == current.id
      ensures SpeakerOf(db.findings[f]) in db.findings && Root(db.findings[f]) == SpeakerOf(db.findings[f])
    {
      assert HasPrimary(db.findings, current.id, db.findings[f]);
    }
  }

  /** An issue the latest scan holds under the same stable fingerprint exists, and was seen no later than there. */
  lemma StillThere(db: Database, current: Scan, scans: map<string, Scan>, at: nat, f: string, g: string)
    requires current.id in db.scans && Derive(db, current, scans, at).Ok?
    requires forall id :: id in scans ==> scans[id].id == id
    requires HistoryOf(db, current, scans, at).Ok?
    requires var h := HistoryOf(db, current, scans, at).value; h.baselineId == h.latest
    requires f in db.findings && db.findings[f].scanId == current.id && SpeakerOf(db.findings[f]) in db.findings
    requires g in db.findings && db.findings[g].scanId == HistoryOf(db, current, scans, at).value.latest
    requires db.findings[g].scanId in PriorOf(scans, current, at)
    requires db.findings[g].stableFingerprint == db.findings[SpeakerOf(db.findings[f])].stableFingerprint != ""
    ensures f in Derive(db, current, scans, at).value.db.findings
    ensures var after, last := Derive(db, current, scans, at).value.db.findings[f], scans[db.findings[g].scanId];
      && after.state == Existing && last.completedAt != None && after.firstSeenAt != None
      && after.firstSeenAt.value <= last.completedAt.value
  {
    hide Derived, Derive, Introduction, Classify, Seen, SeenBy, Bears, LatestOf, ChosenBaseline, Less;
    DeriveWrites(db, current, scans, at);
    var h := HistoryOf(db, current, scans, at).value;
    var primary := db.findings[SpeakerOf(db.findings[f])];
    var key := primary.stableFingerprint;
    assert Bears(db, h.prior, g, key) by {
      SameFingerprintBears(db, h.prior, g, key);
    }
    assert Seen(db, h.prior, key) && SeenBy(db, h.prior, key, h.latest) by {
      BearingIsSeen(db, h.prior, g, key);
    }
    StateExactly(h, key);
    IntroductionExactly(h, key);
    DerivedExactly(h, primary, db.findings[f]);
    SightedInTime(db, h.prior, db.findings[g]);
  }

  lemma SameFingerprintBears(db: Database, prior: map<string, Scan>, g: string, key: string)
    requires g in db.findings && db.findings[g].scanId in prior && db.findings[g].stableFingerprint == key != ""
    ensures Bears(db, prior, g, key)
  {
  }

  lemma BearingIsSeen(db: Database, prior: map<string, Scan>, g: string, key: string)
    requires Bears(db, prior, g, key)
    ensures g in db.findings && Seen(db, prior, key) && SeenBy(db, prior, key, db.findings[g].scanId)
  {
  }

  lemma SightedInTime(db: Database, prior: map<string, Scan>, g: Finding)
    requires g.scanId in prior && prior[g.scanId].completedAt.Some?
    ensures Sighting(db, prior, g).at <= prior[g.scanId].completedAt.value
  {
  }

  // ---------- Persisting ----------

  /** The scan runs under the token, or completed cleanly and no token is given. */
  predicate MayWrite(s: Scan, token: string)
  {
    && s.cancelRequestedAt == None && s.leaseToken == token
    && (s.status == Running || (s.status == Completed && s.failureCode == "" && token == ""))
  }

  /** How persisting is answered, its checks in order, and that a change moves the revision once. */
  lemma PersistAnswers(db: Database, scanId: string, token: string, at: nat)
    requires Valid(db)
    ensures var answer := Persist(db, scanId, token, at);
      if at == 0 then answer == Err(NoTime)
      else if scanId !in db.scans then answer == Err(NoRows)
      else if !MayWrite(db.scans[scanId], token) then answer == Err(StaleLease)
      else
        var current := db.scans[scanId];
        var derived := Derive(db, current, Locked(db, current.repoId, map[scanId := at]), Cut(current, at));
        if derived.Err? then answer == Err(derived.error)
        else answer == Ok(if !derived.value.changed then derived.value.db
                          else derived.value.db.(scans := derived.value.db.scans[scanId :=
                            derived.value.db.scans[scanId].(findingsRevision := current.findingsRevision + 1)]))
  {
    hide Locked, Derived, PriorOf, LatestOf, Rederived;
    if scanId in db.scans {
      var current := db.scans[scanId];
      if Derive(db, current, Locked(db, current.repoId, map[scanId := at]), Cut(current, at)).Ok? {
        DeriveWrites(db, current, Locked(db, current.repoId, map[scanId := at]), Cut(current, at));
      }
    }
  }
}
