/** The baseline transaction, statement by statement; rows and maps are visited in no particular order. */
module BaselineStore {
  import opened Wrappers
  import opened Text
  import opened Tables
  import opened Baselines

  class PostgresStore {
    var db: Database

    method PersistFindingBaseline(scanId: string, token: string, at: nat) returns (error: Option<BaselineError>)
      requires Valid(db)
      modifies this
      ensures var spec := Persist(old(db), scanId, token, at);
        && db == (if spec.Ok? then spec.value else old(db))
        && error == (if spec.Ok? then None else Some(spec.error))
    {
      if at == 0 {
        return Some(NoTime);
      }
      if scanId !in db.scans {
        return Some(NoRows);
      }
      var current := db.scans[scanId];
      var scans := LockBaselineScans(db, current.repoId, map[scanId := at]);
      assert scans.Ok? by {
        assert scanId in OfRepo(db, current.repoId);
      }
      if current.cancelRequestedAt.Some? || current.leaseToken != token
        || (current.status.Completed? && current.failureCode != "")
         || (!current.status.Running? && !(current.status.Completed? && token == "")) {
        return Some(StaleLease);
      }
      var observed := at;
      if current.baselineResolvedAt.Some? {
        observed := current.baselineResolvedAt.value;
      }
      LockedIds(db, current.repoId, map[scanId := at]);
      var tx := DeriveFindingBaseline(db, current, scans.value, observed);
      if tx.Err? {
        return Some(tx.error);
      }
      if tx.value.changed {
        db := Advanced(tx.value.db, scanId);
      } else {
        db := tx.value.db;
      }
      error := None;
    }

    /** The targets and the history before them, in one locked set; refused when a target is missing. */
    static method LockBaselineScans(db: Database, repoId: string, targets: map<string, nat>)
      returns (r: Result<map<string, Scan>, BaselineError>)
      requires Valid(db)
      ensures r.Ok? <==> targets.Keys <= OfRepo(db, repoId).Keys
      ensures r.Ok? ==> r.value == Locked(db, repoId, targets)
    {
      var scans := OfRepo(db, repoId);
      var cutoffs := BranchCutoffs(scans, targets);
      if !(targets.Keys <= scans.Keys) {
        return Err(NoRows);
      }
      var todo := scans.Keys;
      var held: map<string, Scan> := map[];
      while todo != {}
        invariant todo <= scans.Keys
        invariant forall id :: id in held <==> id in scans && id !in todo && Locks(scans, targets, scans[id])
        invariant forall id :: id in held ==> held[id] == scans[id]
        decreases todo
      {
        var id :| id in todo;
        var s := scans[id];
        if id in targets
          || (s.status.Completed? && s.completedAt.Some? && Below(cutoffs, s.branch, s.completedAt.value)) {
          held := held[id := s];
        }
        todo := todo - {id};
      }
      r := Ok(held);
    }

    /** Each branch's latest cut-off among the target scans. */
    static method BranchCutoffs(scans: map<string, Scan>, targets: map<string, nat>) returns (cutoffs: map<string, nat>)
      ensures forall branch, t: nat :: Below(cutoffs, branch, t) <==> CutBeyond(scans, targets, branch, t)
    {
      var todo := scans.Keys;
      cutoffs := map[];
      while todo != {}
        invariant todo <= scans.Keys
        invariant forall branch, t: nat :: Below(cutoffs, branch, t) ==>
          CutAmong(scans, targets, scans.Keys - todo, branch, t)
        invariant forall id, branch, t: nat :: id in scans && id !in todo && Cuts(scans, targets, id, branch, t) ==>
          Below(cutoffs, branch, t)
        decreases todo
      {
        var id :| id in todo;
        var s := scans[id];
        ghost var seen, was := scans.Keys - todo, cutoffs;
        if id in targets {
          var at := targets[id];
          if s.baselineResolvedAt.Some? {
            at := s.baselineResolvedAt.value;
          }
          if at > (if s.branch in cutoffs then cutoffs[s.branch] else 0) {
            cutoffs := cutoffs[s.branch := at];
          }
        }
        todo := todo - {id};
        forall branch, t: nat | Below(cutoffs, branch, t)
          ensures CutAmong(scans, targets, scans.Keys - todo, branch, t)
        {
          if Below(was, branch, t) {
            var earlier :| earlier in seen && Cuts(scans, targets, earlier, branch, t);
            assert earlier in scans.Keys - todo;
          } else {
            assert Cuts(scans, targets, id, branch, t);
          }
        }
      }
    }

    static method DeriveFindingBaseline(db: Database, current: Scan, scans: map<string, Scan>, at: nat)
      returns (tx: Result<Outcome, BaselineError>)
      requires Valid(db) && current.id in db.scans && db.scans[current.id] == current
      requires forall id :: id in scans ==>
        id in db.scans && scans[id] == db.scans[id] && scans[id].repoId == current.repoId
      ensures tx == Derive(db, current, scans, at)
    {
      hide PriorOf, ChosenBaseline, LatestOf, Rederived, Crossing, Orphaned;
      var prior := SelectPrior(scans, current, at);
      PriorRows(db, current, scans, at);
      var latest := SelectLatest(prior);
      var baselineId := PickBaseline(db, current, prior, latest);
      if baselineId.Err? {
        return Err(baselineId.error);
      }
      ghost var h := History(db, current, prior, latest, baselineId.value, at);
      var primaries := CollectPrimaries(db, current);
      if primaries.Err? {
        return Err(primaries.error);
      }
      var keys := set f | f in primaries.value :: Key(primaries.value[f]);
      var first, inBaseline, inLatest := FoldHistory(db, current, prior, at, latest, baselineId.value, keys);
      var findings := Reclassify(h, db.findings, current.id, at, baselineId.value, primaries.value, first, inBaseline,
          inLatest);
      if findings.Err? {
        return Err(findings.error);
      }
      if current.baselineResolvedAt.Some? && findings.value == db.findings {
        return Ok(Outcome(db, false));
      }
      tx := Ok(Outcome(db.(findings := findings.value,
                           scans :=
                             db.scans[current.id :=
                               current.(baselineScanId := baselineId.value, baselineResolvedAt := Some(at))]), true));
    }

    static method SelectPrior(scans: map<string, Scan>, current: Scan, at: nat) returns (prior: map<string, Scan>)
      ensures prior == PriorOf(scans, current, at)
    {
      var todo := scans.Keys;
      prior := map[];
      while todo != {}
        invariant todo <= scans.Keys
        invariant forall id :: id in prior <==> id in scans && id !in todo && IsPrior(scans[id], current, at)
        invariant forall id :: id in prior ==> prior[id] == scans[id]
        decreases todo
      {
        var id :| id in todo;
        var s := scans[id];
        if s.id != current.id {
          var valid := CheckBaselineScan(s);
          if valid && s.completedAt.value < at && s.branch == current.branch && SourceCompatible(s, current) {
            prior := prior[id := s];
          }
        }
        todo := todo - {id};
      }
    }

    /** validBaselineScan: every selected tool completed and none failed. */
    static method CheckBaselineScan(s: Scan) returns (valid: bool)
      ensures valid <==> ValidBaselineScan(s)
    {
      if !s.status.Completed? || s.completedAt.None? || s.cancelRequestedAt.Some? || s.failureCode != "" {
        return false;
      }
      if s.toolsSelected.None? || s.toolsCompleted.None? || s.toolsFailed.None? {
        return false;
      }
      if |s.toolsCompleted.value| == 0 || |s.toolsFailed.value| > 0 {
        return false;
      }
      var selected := s.toolsSelected.value;
      for i := 0 to |selected|
        invariant forall k :: 0 <= k < i ==> selected[k] in s.toolsCompleted.value
      {
        if selected[i] !in s.toolsCompleted.value {
          return false;
        }
      }
      valid := true;
    }

    static method SelectLatest(prior: map<string, Scan>) returns (latest: string)
      requires forall id :: id in prior ==> prior[id].id == id
      ensures latest == LatestOf(prior)
    {
      NewestOrders(prior);
      var first := SelectFirst(prior, AnyScan(), Newest());
      latest := if first.Some? then first.value else "";
    }

    static method PickBaseline(db: Database, current: Scan, prior: map<string, Scan>, latest: string)
      returns (r: Result<string, BaselineError>)
      requires latest == LatestOf(prior)
      requires latest != "" ==> latest in prior
      ensures r == ChosenBaseline(db, current, prior)
    {
      var baselineId, savedAuto := current.baselineScanId, false;
      if current.baselineResolvedAt.None? {
        savedAuto := (current.repoId, current.branch) in db.autoBaselines;
        baselineId := if savedAuto then db.autoBaselines[(current.repoId, current.branch)] else latest;
      }
      if baselineId != "" && baselineId != current.id && baselineId !in prior {
        if !savedAuto {
          return Err(InvalidSaved);
        }
        baselineId := latest;
      }
      r := Ok(baselineId);
    }

    static method CollectPrimaries(db: Database, current: Scan) returns (r: Result<map<string, Finding>, BaselineError>)
      ensures r == if Crossing(db.findings, current) then Err(CrossesScope)
        else Ok(PrimariesOf(db.findings, current.id))
    {
      var todo := SelectWhere(db.findings, (f: Finding) => f.scanId == current.id);
      ghost var evidence := todo;
      var primaries: map<string, Finding> := map[];
      while todo != {}
        invariant todo <= evidence
        invariant forall f :: f in evidence && f !in todo ==> db.findings[f].repoId == current.repoId
        invariant forall f :: f in primaries <==> f in evidence && f !in todo && IsPrimary(db.findings[f], current.id)
        invariant forall f :: f in primaries ==> primaries[f] == db.findings[f]
        decreases todo
      {
        var f :| f in todo;
        var row := db.findings[f];
        if row.repoId != current.repoId {
          return Err(CrossesScope);
        }
        if row.clusterId == "" || row.clusterId == row.id {
          primaries := primaries[f := row];
        }
        todo := todo - {f};
      }
      assert forall f :: f in db.findings && db.findings[f].scanId == current.id ==> f in evidence;
      assert primaries == PrimariesOf(db.findings, current.id);
      r := Ok(primaries);
    }

    /** The observations of the wanted identities, folded row by row in whatever order they arrive. */
    static method FoldHistory(db: Database, current: Scan, prior: map<string, Scan>, at: nat, latest: string,
        baselineId: string, keys: set<string>)
      returns (first: map<string, Observation>, inBaseline: set<string>, inLatest: set<string>)
      requires PriorInHistory(db, current, prior, at)
      ensures forall key :: key in keys ==>
        Folded(db, prior, key, latest, baselineId, db.findings.Keys, first, inBaseline, inLatest)
    {
      hide Observed;
      var todo := db.findings.Keys;
      first, inBaseline, inLatest := map[], {}, {};
      while todo != {}
        invariant todo <= db.findings.Keys
        invariant forall key :: key in keys ==>
          Folded(db, prior, key, latest, baselineId, db.findings.Keys - todo, first, inBaseline, inLatest)
        decreases todo
      {
        var row :| row in todo;
        var h := db.findings[row];
        var key := HistoryKey(db, h);
        ghost var before, was, wasBaseline, wasLatest := db.findings.Keys - todo, first, inBaseline, inLatest;
        if InHistory(db, h, current, at) && h.scanId in prior && key in keys {
          if h.scanId == baselineId {
            inBaseline := inBaseline + {key};
          }
          if latest != "" && h.scanId == latest {
            inLatest := inLatest + {key};
          }
          var seen := Observed(db, prior, h);
          if key !in first || Earlier(seen, first[key]) {
            first := first[key := seen];
          }
        }
        todo := todo - {row};
        assert db.findings.Keys - todo == before + {row};
        forall k | k in keys
          ensures Folded(db, prior, k, latest, baselineId, before + {row}, first, inBaseline, inLatest)
        {
          FoldOne(db, prior, k, latest, baselineId, before, row, was, wasBaseline, wasLatest, first, inBaseline,
            inLatest);
        }
      }
    }

    /** Every row of the scan takes its primary's verdict; refused when a primary is missing. */
    static method Reclassify(ghost h: History, findings: map<string, Finding>, scanId: string, at: nat,
        baselineId: string, primaries: map<string, Finding>, first: map<string, Observation>, inBaseline: set<string>,
        inLatest: set<string>)
      returns (r: Result<map<string, Finding>, BaselineError>)
      requires h.db.findings == findings && "" !in h.prior && h.current.id == scanId && h.at == at
      requires h.baselineId == baselineId
      requires primaries == PrimariesOf(findings, scanId)
      requires forall f :: f in primaries ==>
        Folded(h.db, h.prior, Key(primaries[f]), h.latest, baselineId, findings.Keys, first, inBaseline, inLatest)
      ensures r.Ok? <==> !Orphaned(findings, scanId)
      ensures r.Ok? ==> r.value == Rederived(h)
      ensures r.Err? ==> r.error == NoPrimary
    {
      hide Settled, Folded, Orphaned, HasPrimary, Rederived;
      var todo := SelectWhere(findings, (f: Finding) => f.scanId == scanId);
      ghost var evidence := todo;
      var out := findings;
      while todo != {}
        invariant todo <= evidence && out.Keys == findings.Keys
        invariant forall f :: f in evidence && f !in todo ==> HasPrimary(findings, scanId, findings[f])
        invariant forall f :: f in findings ==>
          out[f] == if f in evidence && f !in todo then Settled(h, f) else findings[f]
        decreases todo
      {
        var f :| f in todo;
        var derived := ReclassifyRow(h, f, findings[f], scanId, at, baselineId, primaries, first, inBaseline, inLatest);
        if derived.None? {
          SomeOrphan(findings, scanId, f);
          return Err(NoPrimary);
        }
        if derived.value != findings[f] {
          out := out[f := derived.value];
        }
        todo := todo - {f};
      }
      assert forall f :: f in findings ==> (f in evidence <==> findings[f].scanId == scanId);
      NoOrphan(findings, scanId);
      SettledIsRederived(h, out);
      r := Ok(out);
    }

    static method ReclassifyRow(ghost h: History, f: string, row: Finding, scanId: string, at: nat, baselineId: string,
        primaries: map<string, Finding>, first: map<string, Observation>, inBaseline: set<string>,
        inLatest: set<string>)
      returns (derived: Option<Finding>)
      requires f in h.db.findings && h.db.findings[f] == row && row.scanId == scanId
      requires "" !in h.prior && h.current.id == scanId && h.at == at && h.baselineId == baselineId
      requires primaries == PrimariesOf(h.db.findings, scanId)
      requires forall p :: p in primaries ==>
        Folded(h.db, h.prior, Key(primaries[p]), h.latest, baselineId, h.db.findings.Keys, first, inBaseline, inLatest)
      ensures derived.Some? <==> HasPrimary(h.db.findings, scanId, row)
      ensures derived.Some? ==> derived.value == Settled(h, f)
    {
      hide Derived, Folded;
      var primaryId := row.clusterId;
      if primaryId == "" {
        primaryId := row.id;
      }
      if primaryId !in primaries {
        return None;
      }
      var verdict := Verdict(h, primaries[primaryId], row, scanId, at, baselineId, first, inBaseline, inLatest);
      derived := Some(verdict);
    }

    static method Verdict(ghost h: History, primary: Finding, f: Finding, scanId: string, at: nat, baselineId: string,
        first: map<string, Observation>, inBaseline: set<string>, inLatest: set<string>)
                            returns (derived: Finding)
      requires h.current.id == scanId && h.at == at && h.baselineId == baselineId && "" !in h.prior
      requires Folded(h.db, h.prior, Key(primary), h.latest, baselineId, h.db.findings.Keys, first, inBaseline,
        inLatest)
      ensures derived == Derived(h, primary, f)
    {
      var key, state := Key(primary), New;
      var introduction := Observation(at, scanId);
      if key in first && key !in inLatest {
        state := Resurfaced;
      } else if key in inBaseline || baselineId == scanId {
        state := Existing;
      }
      if key in first {
        introduction := first[key];
        OneEarliest(Observations(h.db, h.prior, key), introduction);
      }
      if primary.baselineKey == key && primary.firstSeenAt.Some? && primary.firstSeenAt.value < introduction.at
        && primary.introducedIn != "" {
        introduction := Observation(primary.firstSeenAt.value, primary.introducedIn);
      }
      derived := f.(baselineKey := key, state := state, introducedIn := introduction.scanId, resolvedIn := "",
                    firstSeenAt := Some(introduction.at), lastSeenAt := Some(at));
    }
  }

  // ---------- The fold over history ----------

  /** The time lies before the branch's cut-off; a branch without one has the zero time. */
  predicate Below(cutoffs: map<string, nat>, branch: string, t: nat)
  {
    branch in cutoffs && t < cutoffs[branch]
  }

  predicate CutAmong(scans: map<string, Scan>, targets: map<string, nat>, ids: set<string>, branch: string, t: nat)
  {
    exists id :: id in ids && Cuts(scans, targets, id, branch, t)
  }

  lemma SomeOrphan(findings: map<string, Finding>, scanId: string, f: string)
    requires f in findings && findings[f].scanId == scanId && !HasPrimary(findings, scanId, findings[f])
    ensures Orphaned(findings, scanId)
  {
  }

  ghost function Settled(h: History, f: string): Finding
    requires f in h.db.findings
  {
    var row := h.db.findings[f];
    if row.scanId == h.current.id && HasPrimary(h.db.findings, h.current.id, row) then
      Derived(h, h.db.findings[Root(row)], row) else row
  }

  lemma SettledIsRederived(h: History, out: map<string, Finding>)
    requires !Orphaned(h.db.findings, h.current.id) && out.Keys == h.db.findings.Keys
    requires forall f :: f in out ==>
      out[f] == if h.db.findings[f].scanId == h.current.id then Settled(h, f) else h.db.findings[f]
    ensures out == Rederived(h)
  {
    hide Derived;
  }

  lemma NoOrphan(findings: map<string, Finding>, scanId: string)
    requires forall f :: f in findings && findings[f].scanId == scanId ==> HasPrimary(findings, scanId, findings[f])
    ensures !Orphaned(findings, scanId)
  {
  }

  function PrimariesOf(findings: map<string, Finding>, scanId: string): map<string, Finding>
  {
    map f | f in findings && IsPrimary(findings[f], scanId) :: findings[f]
  }

  /** Prior scans are rows of the history query. */
  ghost predicate PriorInHistory(db: Database, current: Scan, prior: map<string, Scan>, at: nat)
  {
    forall f :: f in db.findings && db.findings[f].scanId in prior ==> InHistory(db, db.findings[f], current, at)
  }

  lemma PriorRows(db: Database, current: Scan, scans: map<string, Scan>, at: nat)
    requires Valid(db)
    requires forall id :: id in scans ==>
      id in db.scans && scans[id] == db.scans[id] && scans[id].repoId == current.repoId
    ensures PriorInHistory(db, current, PriorOf(scans, current, at), at)
    ensures forall id :: id in PriorOf(scans, current, at) ==> PriorOf(scans, current, at)[id].id == id && id != ""
    ensures LatestOf(PriorOf(scans, current, at)) != "" ==>
      LatestOf(PriorOf(scans, current, at)) in PriorOf(scans, current, at)
  {
    LatestIsNewest(PriorOf(scans, current, at));
  }

  /** What the fold knows about a key after some of the rows. */
  ghost predicate Folded(db: Database, prior: map<string, Scan>, key: string, latest: string, baselineId: string,
      rows: set<string>, first: map<string, Observation>, inBaseline: set<string>, inLatest: set<string>)
  {
    && (key in inBaseline <==> SeenAmong(db, prior, key, baselineId, rows))
    && (key in inLatest <==> SeenAmong(db, prior, key, latest, rows) && latest != "")
    && (key in first <==> ObservationsIn(db, prior, key, rows) != {})
    && (key in first ==> IsEarliest(ObservationsIn(db, prior, key, rows), first[key]))
  }

  lemma ObservationsGrow(db: Database, prior: map<string, Scan>, key: string, rows: set<string>, row: string)
    requires row in db.findings
    ensures ObservationsIn(db, prior, key, rows + {row}) == ObservationsIn(db, prior, key, rows)
                                                           + (if Shows(db, prior, db.findings[row], key) then
                                                             {Observed(db, prior, db.findings[row])} else {})
    ensures forall s :: SeenAmong(db, prior, key, s, rows + {row}) <==>
              SeenAmong(db, prior, key, s, rows)
                || (db.findings[row].scanId == s && Shows(db, prior, db.findings[row], key))
  {
    hide Observed;
    forall s | SeenAmong(db, prior, key, s, rows + {row}) && !SeenAmong(db, prior, key, s, rows)
      ensures db.findings[row].scanId == s && Shows(db, prior, db.findings[row], key)
    {
      var h :| h in rows + {row} && h in db.findings && db.findings[h].scanId == s
        && Shows(db, prior, db.findings[h], key);
      assert h == row;
    }
  }

  lemma FoldOne(db: Database, prior: map<string, Scan>, key: string, latest: string, baselineId: string,
      rows: set<string>, row: string, was: map<string, Observation>, wasBaseline: set<string>, wasLatest: set<string>,
      first: map<string, Observation>, inBaseline: set<string>, inLatest: set<string>)
    requires row in db.findings && Folded(db, prior, key, latest, baselineId, rows, was, wasBaseline, wasLatest)
    requires var h := db.findings[row];
      if Shows(db, prior, h, key) then
        && (key in inBaseline <==> key in wasBaseline || h.scanId == baselineId)
        && (key in inLatest <==> key in wasLatest || (latest != "" && h.scanId == latest))
        && key in first
        && first[key] == if key !in was || Earlier(Observed(db, prior, h), was[key]) then Observed(db, prior, h)
          else was[key]
      else
        (key in inBaseline <==> key in wasBaseline) && (key in inLatest <==> key in wasLatest)
        && (key in first <==> key in was) && (key in was ==> first[key] == was[key])
    ensures Folded(db, prior, key, latest, baselineId, rows + {row}, first, inBaseline, inLatest)
  {
    hide Observed, ObservationsIn, SeenAmong;
    ObservationsGrow(db, prior, key, rows, row);
    if Shows(db, prior, db.findings[row], key) && key in was {
      var seen := Observed(db, prior, db.findings[row]);
      var all := ObservationsIn(db, prior, key, rows);
      forall other | other in all + {seen} && other != first[key]
        ensures Earlier(first[key], other)
      {
        EarlierIsOrder(seen, was[key], other);
      }
    }
  }

  lemma OneEarliest(all: set<Observation>, o: Observation)
    requires all != {} && IsEarliest(all, o)
    ensures o == EarliestOf(all)
  {
    EarlierIsOrder(o, EarliestOf(all), o);
  }
}
