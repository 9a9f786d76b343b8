/**
 Baseline derivation, proved on its own columns, is the derivation step of the scan protocol: for any
 encoding that tells different columns apart, persisting a derived baseline takes both views of the tables
 through the same step, and both refuse the same scans and lease tokens.
*/
module ScanBaselines {
  import opened Wrappers
  import Derivation = Baselines
  import Protocol = ScanModel

  /** How the columns of a finding and a resolved baseline are written as text. */
  datatype Codec = Codec(details: Derivation.Finding -> string, baseline: (string, nat) -> string)

  /** The two rows agree on everything but where they belong. */
  predicate SameColumns(a: Derivation.Finding, b: Derivation.Finding)
  {
    a == b.(id := a.id, scanId := a.scanId, repoId := a.repoId, clusterId := a.clusterId)
  }

  /** Different columns have different texts. */
  ghost predicate Faithful(c: Codec)
  {
    forall a, b :: c.details(a) == c.details(b) ==> SameColumns(a, b)
  }

  function StatusOf(s: Derivation.ScanStatus): Protocol.ScanStatus
  {
    match s
    case Pending => Protocol.Pending
    case Running => Protocol.Running
    case Completed => Protocol.Completed
    case Failed => Protocol.Failed
    case Cancelled => Protocol.Cancelled
  }

  function BaselineText(c: Codec, s: Derivation.Scan): Option<string>
  {
    if s.baselineResolvedAt.Some? then Some(c.baseline(s.baselineScanId, s.baselineResolvedAt.value)) else None
  }

  /** The same scan row, seen by derivation and by the protocol. */
  predicate SameScan(c: Codec, s: Derivation.Scan, t: Protocol.Scan)
  {
    && t.id == s.id && t.repoId == s.repoId && t.branch == s.branch && t.status == StatusOf(s.status)
    && (t.cancelRequestedAt.Some? <==> s.cancelRequestedAt.Some?) && t.failureCode == s.failureCode
    && t.leaseToken == s.leaseToken && t.findingsRevision == s.findingsRevision && t.baseline == BaselineText(c, s)
  }

  predicate SameFinding(c: Codec, f: Derivation.Finding, g: Protocol.Finding)
  {
    && g.id == f.id && g.scanId == f.scanId && g.repoId == f.repoId && g.clusterId == f.clusterId
    && g.details == c.details(f)
  }

  /** The same tables, seen by derivation and by the protocol. */
  ghost predicate SameTables(c: Codec, db: Derivation.Database, tables: Protocol.Database)
  {
    && tables.scans.Keys == db.scans.Keys
    && (forall id :: id in db.scans ==> SameScan(c, db.scans[id], tables.scans[id]))
    && tables.findings.Keys == db.findings.Keys
    && forall f :: f in db.findings ==> SameFinding(c, db.findings[f], tables.findings[f])
  }

  /** The texts of the scan's rows. */
  function Texts(c: Codec, findings: map<string, Derivation.Finding>, scanId: string): map<string, string>
  {
    map f | f in findings && findings[f].scanId == scanId :: c.details(findings[f])
  }

  // ---------- What persisting writes ----------

  /** Rows of the scan changed in place, the others not at all. */
  ghost predicate OnlyDerived(db: Derivation.Database, after: Derivation.Database, scanId: string)
  {
    && after.findings.Keys == db.findings.Keys
    && forall f :: f in db.findings ==>
         && Derivation.SamePlace(db.findings[f], after.findings[f])
         && (db.findings[f].scanId != scanId ==> after.findings[f] == db.findings[f])
  }

  /** Derivation leaves every row in its place, and rows of other scans as they are. */
  lemma PersistKeepsPlaces(db: Derivation.Database, scanId: string, token: string, at: nat)
    requires Derivation.Valid(db) && Derivation.Persist(db, scanId, token, at).Ok?
    ensures OnlyDerived(db, Derivation.Persist(db, scanId, token, at).value, scanId)
  {
    hide Derivation.Persist, Derivation.Derived, Derivation.HistoryOf, Derivation.Locked;
    Derivation.PersistWrites(db, scanId, token, at);
    var current := db.scans[scanId];
    var scans, cut := Derivation.Locked(db, current.repoId, map[scanId := at]), Derivation.CutAt(current, at);
    Derivation.AfterDerivation(db, current, scans, cut);
    HistoryIsOf(db, current, scans, cut);
    Derivation.DerivedKeepsShape(Derivation.HistoryOf(db, current, scans, cut).value);
  }

  lemma HistoryIsOf(db: Derivation.Database, current: Derivation.Scan, scans: map<string, Derivation.Scan>, at: nat)
    requires Derivation.HistoryOf(db, current, scans, at).Ok?
    ensures Derivation.HistoryOf(db, current, scans, at).value.db == db
    ensures Derivation.HistoryOf(db, current, scans, at).value.current == current
  {
  }

  /** The revision moves when a row changed or the baseline was not resolved; else nothing is written. */
  lemma PersistMovesRevision(db: Derivation.Database, scanId: string, token: string, at: nat)
    requires Derivation.Valid(db) && Derivation.Persist(db, scanId, token, at).Ok?
    ensures scanId in db.scans
    ensures var current, after := db.scans[scanId], Derivation.Persist(db, scanId, token, at).value;
      && scanId in after.scans && after.scans[scanId].baselineResolvedAt.Some?
      && (current.baselineResolvedAt.Some? && after.findings == db.findings ==> after == db)
      && (current.baselineResolvedAt.None? || after.findings != db.findings ==>
            after.scans[scanId].findingsRevision == current.findingsRevision + 1)
  {
    hide Derivation.Locked, Derivation.HistoryOf, Derivation.Rederived;
    var current := db.scans[scanId];
    var scans, cut := Derivation.Locked(db, current.repoId, map[scanId := at]), Derivation.CutAt(current, at);
    Derivation.AfterDerivation(db, current, scans, cut);
    HistoryIsOf(db, current, scans, cut);
  }

  // ---------- The refinement ----------

  /** Both sides refuse the same tokens. */
  lemma SameRefusals(c: Codec, db: Derivation.Database, tables: Protocol.Database, scanId: string, token: string,
      at: nat)
    requires Derivation.Valid(db) && SameTables(c, db, tables) && at > 0
    ensures Derivation.Persist(db, scanId, token, at).Err?
      && Derivation.Persist(db, scanId, token, at).error in {Derivation.NoRows, Derivation.StaleLease}
      <==> !Protocol.MayDerive(tables, scanId, token)
  {
    hide Derivation.Locked, Derivation.PriorOf, Derivation.LatestOf, Derivation.Recorded;
    if scanId in db.scans {
      assert SameScan(c, db.scans[scanId], tables.scans[scanId]);
      var s := db.scans[scanId].status;
      match s
      case Pending =>
      case Running =>
      case Completed =>
      case Failed =>
      case Cancelled =>
    }
  }

  /** The texts derivation writes turn the protocol's rows into the derived ones. */
  lemma RowsAgree(c: Codec, db: Derivation.Database, tables: Protocol.Database, after: Derivation.Database,
      scanId: string)
    requires SameTables(c, db, tables) && OnlyDerived(db, after, scanId)
    ensures var rows := Protocol.Rederived(tables.findings, scanId, Texts(c, after.findings, scanId));
      && rows.Keys == after.findings.Keys
      && forall f :: f in after.findings ==> SameFinding(c, after.findings[f], rows[f])
  {
    hide SameScan;
    forall f | f in after.findings
      ensures SameFinding(c, after.findings[f],
                          Protocol.Rederived(tables.findings, scanId, Texts(c, after.findings, scanId))[f])
    {
      assert SameFinding(c, db.findings[f], tables.findings[f]);
    }
  }

  /** The protocol sees no change exactly when no column changed. */
  lemma ChangesAgree(c: Codec, db: Derivation.Database, tables: Protocol.Database, after: Derivation.Database,
      scanId: string)
    requires SameTables(c, db, tables) && OnlyDerived(db, after, scanId) && Faithful(c)
    ensures Protocol.Rederived(tables.findings, scanId, Texts(c, after.findings, scanId)) == tables.findings
      <==> after.findings == db.findings
  {
    hide Protocol.Rederived, Texts;
    RowsAgree(c, db, tables, after, scanId);
    var rows := Protocol.Rederived(tables.findings, scanId, Texts(c, after.findings, scanId));
    if rows == tables.findings {
      forall f | f in db.findings
        ensures after.findings[f] == db.findings[f]
      {
        assert SameFinding(c, db.findings[f], tables.findings[f]) && SameFinding(c, after.findings[f], rows[f]);
        assert SameColumns(after.findings[f], db.findings[f]);
      }
    } else {
      RederivedTexts(c, db, tables, scanId);
    }
  }

  /** Writing the texts that are there changes nothing. */
  lemma RederivedTexts(c: Codec, db: Derivation.Database, tables: Protocol.Database, scanId: string)
    requires SameTables(c, db, tables)
    ensures Protocol.Rederived(tables.findings, scanId, Texts(c, db.findings, scanId)) == tables.findings
  {
    hide SameScan;
    forall f | f in db.findings
      ensures Protocol.Rederived(tables.findings, scanId, Texts(c, db.findings, scanId))[f] == tables.findings[f]
    {
      assert SameFinding(c, db.findings[f], tables.findings[f]);
    }
  }

  /** Persisting a derived baseline is the protocol's derivation step with the texts it wrote. */
  lemma DerivationIsStep(c: Codec, db: Derivation.Database, tables: Protocol.Database, scanId: string, token: string,
      at: nat)
    requires Derivation.Valid(db) && SameTables(c, db, tables) && Faithful(c)
    requires Derivation.Persist(db, scanId, token, at).Ok?
    ensures var after := Derivation.Persist(db, scanId, token, at).value;
      && scanId in after.scans && BaselineText(c, after.scans[scanId]).Some?
      && SameTables(c, after, Protocol.PersistBaseline(tables, scanId, token, Texts(c, after.findings, scanId),
                                                      BaselineText(c, after.scans[scanId]).value))
  {
    hide Derivation.Persist, Protocol.Rederived, Derivation.HistoryOf, Derivation.Derive, Derivation.Locked,
        Derivation.Valid, OnlyDerived, Faithful, SameFinding, Texts, BaselineText;
    var after := Derivation.Persist(db, scanId, token, at).value;
    PersistKeepsPlaces(db, scanId, token, at);
    PersistMovesRevision(db, scanId, token, at);
    Derivation.PersistWrites(db, scanId, token, at);
    RowsAgree(c, db, tables, after, scanId);
    ChangesAgree(c, db, tables, after, scanId);
    TimeIsGiven(db, scanId, token, at);
    SameRefusals(c, db, tables, scanId, token, at);
    assert SameScan(c, db.scans[scanId], tables.scans[scanId]);
    TextsAgree(c, db.scans[scanId], tables.scans[scanId], after.scans[scanId]);
  }

  lemma TextsAgree(c: Codec, s: Derivation.Scan, t: Protocol.Scan, after: Derivation.Scan)
    requires SameScan(c, s, t)
    ensures t.baseline.Some? <==> s.baselineResolvedAt.Some?
    ensures BaselineText(c, after).Some? <==> after.baselineResolvedAt.Some?
  {
  }

  lemma TimeIsGiven(db: Derivation.Database, scanId: string, token: string, at: nat)
    requires Derivation.Persist(db, scanId, token, at).Ok?
    ensures at > 0
  {
    hide Derivation.Derive, Derivation.Locked;
  }
}
