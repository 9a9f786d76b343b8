/** The weekly change report: which issues are new, came back, were resolved or were hidden on comparable branches. */
module FleetChanges {
  import opened Wrappers
  import opened Text
  import opened Tables
  import opened FleetModel
  import opened FleetChains
  import opened FleetHistory
  import FleetTrends

  /** A coverage row: the latest attempt of a branch, and whether it counts as fresh. */
  datatype Coverage = Coverage(scanId: string, upToDate: bool)

  datatype Reason = Comparable | NotFresh | NoBaseline | BaselineTooOld | ReleaseUnknown | ScopeChanged

  datatype Window = Window(scans: seq<Scan>, source: map<string, seq<Finding>>, now: int, coverage: seq<Coverage>) {
    function Cutoff(): int
    {
      now - 7 * DAY
    }
  }

  const ZERO_SCAN := Scan("", "", "", 0, None, false, "", "", "")

  // ---------- Which branches compare ----------

  /** The last complete scan of the branch, in creation order, observed at or before the cut-off. */
  function Baseline(scans: seq<Scan>, cutoff: int, key: string): Option<Scan>
  {
    if scans == [] then None
    else
      var s := scans[|scans| - 1];
      if s.complete && Observed(s, cutoff, key) then Some(s) else Baseline(scans[..|scans| - 1], cutoff, key)
  }

  function ScanById(scans: seq<Scan>, id: string): Scan
  {
    if scans == [] then ZERO_SCAN
    else if scans[|scans| - 1].id == id then scans[|scans| - 1]
    else ScanById(scans[..|scans| - 1], id)
  }

  function ReasonFor(cov: Coverage, cur: Scan, base: Option<Scan>, cutoff: int): Reason
  {
    if !cov.upToDate then NotFresh
    else if base.None? then NoBaseline
    else if ObservedAt(base.value) < cutoff - 30 * DAY then BaselineTooOld
    else if cur.manifestDigest == "" && cur.releaseId == "" then ReleaseUnknown
    else if cur.scope == "" || cur.scope != base.value.scope then ScopeChanged
    else Comparable
  }

  function Current(w: Window, cov: Coverage): Scan
  {
    ScanById(w.scans, cov.scanId)
  }

  function BaselineOf(w: Window, cov: Coverage): Option<Scan>
  {
    Baseline(w.scans, w.Cutoff(), BranchKey(Current(w, cov)))
  }

  function BaselineId(w: Window, cov: Coverage): string
  {
    if BaselineOf(w, cov).Some? then BaselineOf(w, cov).value.id else ""
  }

  predicate Compared(w: Window, cov: Coverage)
  {
    ReasonFor(cov, Current(w, cov), BaselineOf(w, cov), w.Cutoff()).Comparable?
  }

  predicate ComparableBranch(w: Window, key: string)
  {
    exists cov :: cov in w.coverage && Compared(w, cov) && BranchKey(Current(w, cov)) == key
  }

  // ---------- Issues of one scan ----------

  /** Open evidence is preferred, then the higher severity; ties keep the earlier row. */
  predicate Preferred(f: Finding, previous: Finding)
  {
    || (OpenEvidence(f) && !OpenEvidence(previous))
    || (OpenEvidence(f) == OpenEvidence(previous) && SeverityRank(f.severity) > SeverityRank(previous.severity))
  }

  /** One finding for each progress key. */
  function Distinct(rows: seq<Finding>): (byKey: map<string, Finding>)
    ensures forall key :: key in byKey ==> byKey[key] in rows && ProgressKey(byKey[key]) == key
    ensures forall f :: f in rows ==> ProgressKey(f) in byKey
  {
    hide ProgressKey, Preferred;
    if rows == [] then map[]
    else
      var rest, f := Distinct(rows[..|rows| - 1]), rows[|rows| - 1];
      if ProgressKey(f) !in rest || Preferred(f, rest[ProgressKey(f)]) then rest[ProgressKey(f) := f] else rest
  }

  function BeforeOf(w: Window, cov: Coverage): set<Finding>
  {
    if BaselineOf(w, cov).Some? then Distinct(Rows(w.source, BaselineOf(w, cov).value.id)).Values else {}
  }

  function AfterOf(w: Window, cov: Coverage): set<Finding>
  {
    Distinct(Rows(w.source, cov.scanId)).Values
  }

  predicate HasDiffKey(findings: set<Finding>, key: string)
  {
    key != "" && exists f :: f in findings && DiffKey(f) == key
  }

  // ---------- What happened to an issue ----------

  /** Keys of the open evidence at the cut-off. */
  ghost function BaselineOpen(w: Window): set<string>
  {
    set f | f in AllRows(w.scans, w.source) && FleetChains.Current(w.source, w.scans, w.Cutoff(), f)
      && OpenEvidence(f) :: ProgressKey(f)
  }

  ghost function CurrentKeys(w: Window): set<string>
  {
    set f | f in AllRows(w.scans, w.source) && FleetChains.Current(w.source, w.scans, w.now, f) :: ProgressKey(f)
  }

  /** Keys whose evidence at the cut-off lies on a branch that could not be compared. */
  ghost function Unverified(w: Window): set<string>
  {
    set f | f in AllRows(w.scans, w.source) && FleetChains.Current(w.source, w.scans, w.Cutoff(), f)
              && !ComparableBranch(w, BranchKey(ScanById(w.scans, f.scanId))) :: ProgressKey(f)
  }

  /** Keys some scan observed at or before the cut-off. */
  function SeenEarly(w: Window): set<string>
  {
    set s, f | s in w.scans && ObservedAt(s) <= w.Cutoff() && f in Rows(w.source, s.id) :: ProgressKey(f)
  }

  ghost predicate Wanted(w: Window, f: Finding)
  {
    OpenEvidence(f) && f.security && ProgressKey(f) !in BaselineOpen(w)
  }

  /** Absent from its baseline though open and not in the backlog at the cut-off. */
  ghost predicate Candidate(w: Window, cov: Coverage, f: Finding)
  {
    f in AfterOf(w, cov) && Wanted(w, f) && !HasDiffKey(BeforeOf(w, cov), DiffKey(f))
  }

  ghost function RowNew(w: Window, cov: Coverage): set<string>
  {
    set f | f in AfterOf(w, cov) && Candidate(w, cov, f) && ProgressKey(f) !in SeenEarly(w) :: ProgressKey(f)
  }

  ghost function RowResurfaced(w: Window, cov: Coverage): set<string>
  {
    set f | f in AfterOf(w, cov) && Wanted(w, f)
      && (Candidate(w, cov, f) ==> ProgressKey(f) in SeenEarly(w)) :: ProgressKey(f)
  }

  ghost predicate Gone(w: Window, cov: Coverage, f: Finding)
  {
    && DiffKey(f) != "" && !HasDiffKey(AfterOf(w, cov), DiffKey(f)) && OpenEvidence(f) && f.security
    && ProgressKey(f) !in CurrentKeys(w) && ProgressKey(f) !in Unverified(w)
  }

  ghost function RowResolved(w: Window, cov: Coverage): set<string>
  {
    set f | f in BeforeOf(w, cov) && Gone(w, cov, f) :: ProgressKey(f)
  }

  predicate OpenBefore(w: Window, cov: Coverage, key: string)
  {
    exists g :: g in BeforeOf(w, cov) && OpenEvidence(g) && g.security && ProgressKey(g) == key
  }

  function RowSuppressed(w: Window, cov: Coverage): set<string>
  {
    set f | f in AfterOf(w, cov) && f.security && !OpenEvidence(f)
      && OpenBefore(w, cov, ProgressKey(f)) :: ProgressKey(f)
  }

  datatype Keys = Keys(added: set<string>, resurfaced: set<string>, resolved: set<string>, suppressed: set<string>)

  ghost function RowKeys(w: Window, cov: Coverage): Keys
  {
    Keys(RowNew(w, cov), RowResurfaced(w, cov), RowResolved(w, cov), RowSuppressed(w, cov))
  }

  function Joined(a: Keys, b: Keys): Keys
  {
    Keys(a.added + b.added, a.resurfaced + b.resurfaced, a.resolved + b.resolved, a.suppressed + b.suppressed)
  }

  /** The report over all compared branches. */
  ghost function ReportKeys(w: Window, rows: seq<Coverage>): Keys
  {
    if rows == [] then Keys({}, {}, {}, {})
    else
      var rest, cov := ReportKeys(w, rows[..|rows| - 1]), rows[|rows| - 1];
      if Compared(w, cov) then Joined(rest, RowKeys(w, cov)) else rest
  }

  // ---------- No issue is counted twice ----------

  /** Repository ids hold no NUL, coverage names known scans, and inside a repository the two identities agree. */
  ghost predicate Consistent(w: Window)
  {
    && WellFormed(w.scans, w.source)
    && (forall s :: s in w.scans ==> NulFree(s.repoId))
    && (forall cov :: cov in w.coverage && cov.upToDate ==> exists s :: s in w.scans && s.id == cov.scanId)
    && (forall f, g :: f in AllRows(w.scans, w.source) && g in AllRows(w.scans, w.source) ==> IdentitiesAgree(f, g))
  }

  predicate IdentitiesAgree(f: Finding, g: Finding)
  {
    f.repoId == g.repoId && DiffKey(f) == DiffKey(g) ==> ProgressKey(f) == ProgressKey(g)
  }

  lemma {:induction false} BaselineIsEarly(scans: seq<Scan>, cutoff: int, key: string)
    ensures var base := Baseline(scans, cutoff, key);
      base.Some? ==>
        base.value in scans && base.value.complete && ObservedAt(base.value) <= cutoff && BranchKey(base.value) == key
  {
    if scans != [] {
      BaselineIsEarly(scans[..|scans| - 1], cutoff, key);
    }
  }

  lemma {:induction false} ScanFound(scans: seq<Scan>, id: string)
    requires exists s :: s in scans && s.id == id
    ensures ScanById(scans, id) in scans && ScanById(scans, id).id == id
  {
    if scans[|scans| - 1].id != id {
      assert exists s :: s in scans[..|scans| - 1] && s.id == id by {
        var s :| s in scans && s.id == id;
        var i :| 0 <= i < |scans| && scans[i] == s;
        assert scans[..|scans| - 1][i] == s;
      }
      ScanFound(scans[..|scans| - 1], id);
    }
  }

  lemma RowsAreIn(w: Window, s: Scan, f: Finding)
    requires WellFormed(w.scans, w.source) && s in w.scans && f in Rows(w.source, s.id)
    ensures f in AllRows(w.scans, w.source) && f.scanId == s.id && f.repoId == s.repoId
  {
    var i :| 0 <= i < |w.scans| && w.scans[i] == s;
  }

  /** What a comparison base holds was seen at or before the cut-off. */
  lemma BeforeIsEarly(w: Window, cov: Coverage, g: Finding)
    requires WellFormed(w.scans, w.source) && g in BeforeOf(w, cov)
    ensures ProgressKey(g) in SeenEarly(w) && g in AllRows(w.scans, w.source)
    ensures BaselineOf(w, cov).Some? && BaselineOf(w, cov).value in w.scans
    ensures g.repoId == BaselineOf(w, cov).value.repoId
    ensures BranchKey(BaselineOf(w, cov).value) == BranchKey(Current(w, cov))
  {
    hide ProgressKey;
    BaselineIsEarly(w.scans, w.Cutoff(), BranchKey(Current(w, cov)));
    var base := BaselineOf(w, cov).value;
    RowsAreIn(w, base, g);
  }

  /** A finding the baseline knows was seen at or before the cut-off, under its own key. */
  lemma KnownIsEarly(w: Window, cov: Coverage, f: Finding)
    requires Consistent(w) && cov in w.coverage && Compared(w, cov) && f in AfterOf(w, cov)
    requires HasDiffKey(BeforeOf(w, cov), DiffKey(f))
    ensures ProgressKey(f) in SeenEarly(w)
  {
    hide ProgressKey, DiffKey, SeenEarly, BeforeOf;
    var g :| g in BeforeOf(w, cov) && DiffKey(g) == DiffKey(f);
    BeforeIsEarly(w, cov, g);
    ScanFound(w.scans, cov.scanId);
    var cur, base := Current(w, cov), BaselineOf(w, cov).value;
    RowsAreIn(w, cur, f);
    KeySplits(base.repoId, base.branch, cur.repoId, cur.branch);
    assert IdentitiesAgree(g, f);
  }

  /** Everything counted as resurfaced or resolved was seen at or before the cut-off; nothing counted as new was. */
  lemma RowsSplitByCutoff(w: Window, cov: Coverage, key: string)
    requires Consistent(w) && cov in w.coverage && Compared(w, cov)
    ensures key in RowNew(w, cov) ==> key !in SeenEarly(w)
    ensures key in RowResurfaced(w, cov) || key in RowResolved(w, cov) ==> key in SeenEarly(w)
  {
    hide ProgressKey, DiffKey, SeenEarly, BeforeOf, AfterOf, CurrentKeys, Unverified, BaselineOpen, HasDiffKey;
    if key in RowResurfaced(w, cov) {
      var f :| f in AfterOf(w, cov) && Wanted(w, f) && (Candidate(w, cov, f) ==> ProgressKey(f) in SeenEarly(w))
        && key == ProgressKey(f);
      if !Candidate(w, cov, f) {
        KnownIsEarly(w, cov, f);
      }
    }
    if key in RowResolved(w, cov) {
      var f :| f in BeforeOf(w, cov) && Gone(w, cov, f) && key == ProgressKey(f);
      BeforeIsEarly(w, cov, f);
    }
  }

  /** Across all branches, no issue is counted both new and resurfaced, nor both new and resolved. */
  lemma {:induction false} NewIsNothingElse(w: Window, rows: seq<Coverage>)
    requires Consistent(w) && forall cov :: cov in rows ==> cov in w.coverage
    ensures ReportKeys(w, rows).added !! ReportKeys(w, rows).resurfaced
    ensures ReportKeys(w, rows).added !! ReportKeys(w, rows).resolved
  {
    hide Consistent, Compared, RowKeys;
    forall key
      ensures key in ReportKeys(w, rows).added ==> key !in SeenEarly(w)
      ensures key in ReportKeys(w, rows).resurfaced || key in ReportKeys(w, rows).resolved ==> key in SeenEarly(w)
    {
      ReportSplitsByCutoff(w, rows, key);
    }
  }

  lemma {:induction false} ReportSplitsByCutoff(w: Window, rows: seq<Coverage>, key: string)
    requires Consistent(w) && forall cov :: cov in rows ==> cov in w.coverage
    ensures key in ReportKeys(w, rows).added ==> key !in SeenEarly(w)
    ensures key in ReportKeys(w, rows).resurfaced || key in ReportKeys(w, rows).resolved ==> key in SeenEarly(w)
  {
    hide Consistent, Compared, RowNew, RowResurfaced, RowResolved, RowSuppressed, SeenEarly;
    if rows != [] {
      ReportSplitsByCutoff(w, rows[..|rows| - 1], key);
      if Compared(w, rows[|rows| - 1]) {
        RowsSplitByCutoff(w, rows[|rows| - 1], key);
      }
    }
  }

  /** Every candidate of a compared branch is reported, as new or as resurfaced. */
  lemma {:induction false} CandidatesReported(w: Window, rows: seq<Coverage>, cov: Coverage, f: Finding)
    requires cov in rows && Compared(w, cov) && Candidate(w, cov, f)
    ensures ProgressKey(f) in ReportKeys(w, rows).added + ReportKeys(w, rows).resurfaced
  {
    hide Compared, Wanted, HasDiffKey, AfterOf, ProgressKey, SeenEarly, BeforeOf;
    if cov == rows[|rows| - 1] {
      assert ProgressKey(f) in RowNew(w, cov) + RowResurfaced(w, cov);
    } else {
      CandidatesReported(w, rows[..|rows| - 1], cov, f);
    }
  }

  // ---------- Evidence and keys ----------

  /** The progress keys of the findings that satisfy p. */
  ghost function KeysWhere(findings: seq<Finding>, p: Finding -> bool): set<string>
  {
    set f | f in findings && p(f) :: ProgressKey(f)
  }

  lemma KeysGrow(findings: seq<Finding>, f: Finding, p: Finding -> bool)
    ensures KeysWhere(findings + [f], p) == KeysWhere(findings, p) + if p(f) then {ProgressKey(f)} else {}
  {
    hide ProgressKey;
  }

  /** Distinct findings have distinct progress keys. */
  ghost predicate OnePerKey(findings: seq<Finding>)
  {
    forall i, j :: 0 <= i < j < |findings| ==> ProgressKey(findings[i]) != ProgressKey(findings[j])
  }

  lemma NextKeyIsNew(findings: seq<Finding>, i: nat, p: Finding -> bool)
    requires i < |findings| && OnePerKey(findings)
    ensures ProgressKey(findings[i]) !in KeysWhere(findings[..i], p)
  {
    hide ProgressKey;
    forall f | f in findings[..i]
      ensures ProgressKey(f) != ProgressKey(findings[i])
    {
      var k :| 0 <= k < i && findings[k] == f;
    }
  }

  ghost function OpenOnly(): Finding -> bool
  {
    (f: Finding) => OpenEvidence(f)
  }

  ghost function Any(): Finding -> bool
  {
    (f: Finding) => true
  }

  ghost function OffBranch(w: Window): Finding -> bool
  {
    (f: Finding) => !ComparableBranch(w, BranchKey(ScanById(w.scans, f.scanId)))
  }

  lemma EvidenceKeys(w: Window, at: int, found: seq<Finding>)
    requires forall f :: f in found <==> FleetChains.Current(w.source, w.scans, at, f)
    ensures at == w.Cutoff() ==>
      KeysWhere(found, OpenOnly()) == BaselineOpen(w) && KeysWhere(found, OffBranch(w)) == Unverified(w)
    ensures at == w.now ==> KeysWhere(found, Any()) == CurrentKeys(w)
  {
    hide ProgressKey, ComparableBranch, FleetChains.Current, AllRows;
    forall f | f in found
      ensures f in AllRows(w.scans, w.source)
    {
      CurrentIsRow(w.source, w.scans, at, f);
    }
  }

  ghost function NewIn(w: Window, cov: Coverage): Finding -> bool
  {
    (f: Finding) => Candidate(w, cov, f) && ProgressKey(f) !in SeenEarly(w)
  }

  ghost function BackIn(w: Window, cov: Coverage): Finding -> bool
  {
    (f: Finding) => Wanted(w, f) && (Candidate(w, cov, f) ==> ProgressKey(f) in SeenEarly(w))
  }

  ghost function GoneIn(w: Window, cov: Coverage): Finding -> bool
  {
    (f: Finding) => Gone(w, cov, f)
  }

  ghost function HiddenIn(w: Window, cov: Coverage): Finding -> bool
  {
    (f: Finding) => f.security && !OpenEvidence(f) && OpenBefore(w, cov, ProgressKey(f))
  }

  lemma RowKeysAre(w: Window, cov: Coverage, before: seq<Finding>, after: seq<Finding>)
    requires BeforeOf(w, cov) == (set f | f in before) && AfterOf(w, cov) == set f | f in after
    ensures RowKeys(w, cov)
      == Keys(KeysWhere(after, NewIn(w, cov)), KeysWhere(after, BackIn(w, cov)), KeysWhere(before, GoneIn(w, cov)),
        KeysWhere(after, HiddenIn(w, cov)))
  {
    hide ProgressKey, Candidate, Wanted, Gone, OpenBefore, SeenEarly, BeforeOf, AfterOf;
    assert forall f :: f in after <==> f in AfterOf(w, cov);
    assert forall f :: f in before <==> f in BeforeOf(w, cov);
    assert RowNew(w, cov) == KeysWhere(after, NewIn(w, cov));
    assert RowResurfaced(w, cov) == KeysWhere(after, BackIn(w, cov));
    assert RowResolved(w, cov) == KeysWhere(before, GoneIn(w, cov));
    assert RowSuppressed(w, cov) == KeysWhere(after, HiddenIn(w, cov));
  }

  // ---------- One scan's issues ----------

  method DistinctProgress(rows: seq<Finding>) returns (out: seq<Finding>)
    ensures (set f | f in out) == Distinct(rows).Values && OnePerKey(out)
  {
    hide ProgressKey;
    var byKey: map<string, Finding> := map[];
    for i := 0 to |rows|
      invariant byKey == Distinct(rows[..i])
    {
      assert rows[..i + 1][..i] == rows[..i];
      var f := rows[i];
      if ProgressKey(f) !in byKey || Preferred(f, byKey[ProgressKey(f)]) {
        byKey := byKey[ProgressKey(f) := f];
      }
    }
    assert rows[..|rows|] == rows;
    out := ListByKey(byKey);
  }

  method ListByKey(byKey: map<string, Finding>) returns (out: seq<Finding>)
    requires forall key :: key in byKey ==> ProgressKey(byKey[key]) == key
    ensures (set f | f in out) == byKey.Values && OnePerKey(out)
  {
    hide ProgressKey;
    var todo := byKey.Keys;
    out := [];
    while todo != {}
      invariant todo <= byKey.Keys && OnePerKey(out)
      invariant forall f :: f in out ==>
        ProgressKey(f) in byKey && ProgressKey(f) !in todo && byKey[ProgressKey(f)] == f
      invariant forall key :: key in byKey && key !in todo ==> byKey[key] in out
      decreases todo
    {
      var key :| key in todo;
      assert forall i :: 0 <= i < |out| ==> out[i] in out;
      out := out + [byKey[key]];
      todo := todo - {key};
    }
    assert forall f :: f in out <==> f in byKey.Values;
  }

  /** The first listed finding for each comparison key. */
  method IndexByDiffKey(before: seq<Finding>) returns (baseById: map<string, Finding>)
    ensures IsIndex(baseById, before)
  {
    hide DiffKey;
    baseById := map[];
    for i := 0 to |before|
      invariant forall id :: id in baseById ==> id != "" && baseById[id] in before && DiffKey(baseById[id]) == id
      invariant forall k :: 0 <= k < i && DiffKey(before[k]) != "" ==> DiffKey(before[k]) in baseById
    {
      var id := DiffKey(before[i]);
      if id != "" && id !in baseById {
        baseById := baseById[id := before[i]];
      }
    }
  }

  ghost predicate IsIndex(baseById: map<string, Finding>, before: seq<Finding>)
  {
    && (forall id :: id in baseById ==> id != "" && baseById[id] in before && DiffKey(baseById[id]) == id)
    && (forall f :: f in before && DiffKey(f) != "" ==> DiffKey(f) in baseById)
  }

  lemma IndexTells(baseById: map<string, Finding>, before: seq<Finding>, id: string)
    requires IsIndex(baseById, before)
    ensures id in baseById <==> HasDiffKey((set f | f in before), id)
  {
    hide DiffKey;
  }

  // ---------- One compared row ----------

  /** The history answers, for every candidate, whether its issue was seen at or before the cut-off. */
  ghost predicate Answers(w: Window, first: map<string, int>, key: string)
  {
    (key in first && first[key] <= w.Cutoff()) <==> key in SeenEarly(w)
  }

  /** What is new and what came back among the current scan's issues; the counters count the keys. */
  method CompareAfter(ghost w: Window, ghost cov: Coverage, ghost before: seq<Finding>, after: seq<Finding>,
      baseById: map<string, Finding>, baselineOpen: set<string>, first: map<string, int>, cutoff: int)
    returns (added: set<string>, resurfaced: set<string>, nAdded: nat, nResurfaced: nat)
    requires cutoff == w.Cutoff() && baselineOpen == BaselineOpen(w) && OnePerKey(after) && IsIndex(baseById, before)
    requires BeforeOf(w, cov) == (set f | f in before) && AfterOf(w, cov) == set f | f in after
    requires forall f :: Candidate(w, cov, f) ==> Answers(w, first, ProgressKey(f))
    ensures added == KeysWhere(after, NewIn(w, cov)) && resurfaced == KeysWhere(after, BackIn(w, cov))
    ensures nAdded == |added| && nResurfaced == |resurfaced|
  {
    hide ProgressKey, DiffKey, BaselineOpen, SeenEarly, BeforeOf, AfterOf, IsIndex, HasDiffKey, KeysWhere, OnePerKey;
    added, resurfaced, nAdded, nResurfaced := {}, {}, 0, 0;
    NoKeys();
    for i := 0 to |after|
      invariant added == KeysWhere(after[..i], NewIn(w, cov)) && resurfaced == KeysWhere(after[..i], BackIn(w, cov))
      invariant nAdded == |added| && nResurfaced == |resurfaced|
    {
      var f := after[i];
      assert after[..i + 1] == after[..i] + [f] && f in AfterOf(w, cov);
      KeysGrow(after[..i], f, NewIn(w, cov));
      KeysGrow(after[..i], f, BackIn(w, cov));
      NextKeyIsNew(after, i, NewIn(w, cov));
      NextKeyIsNew(after, i, BackIn(w, cov));
      IndexTells(baseById, before, DiffKey(f));
      var key := ProgressKey(f);
      if DiffKey(f) in baseById {
        if OpenEvidence(f) && f.security && key !in baselineOpen {
          resurfaced, nResurfaced := resurfaced + {key}, nResurfaced + 1;
        }
        continue;
      }
      if !OpenEvidence(f) || !f.security || key in baselineOpen {
        continue;
      }
      assert Candidate(w, cov, f);
      if key in first && first[key] <= cutoff {
        resurfaced, nResurfaced := resurfaced + {key}, nResurfaced + 1;
      } else {
        added, nAdded := added + {key}, nAdded + 1;
      }
    }
    assert after[..|after|] == after;
  }

  lemma NoKeys()
    ensures forall p :: KeysWhere([], p) == {}
  {
  }

  /** What the baseline had and neither the current scan nor any current evidence still shows. */
  method CompareBefore(ghost w: Window, ghost cov: Coverage, before: seq<Finding>, after: seq<Finding>,
      baseById: map<string, Finding>, currentKeys: set<string>, unverified: set<string>)
      returns (resolved: set<string>, n: nat)
    requires currentKeys == CurrentKeys(w) && unverified == Unverified(w) && OnePerKey(before)
    requires IsIndex(baseById, before)
    requires BeforeOf(w, cov) == (set f | f in before) && AfterOf(w, cov) == set f | f in after
    requires forall f, g :: f in before && g in before && DiffKey(f) == DiffKey(g) ==> ProgressKey(f) == ProgressKey(g)
    ensures resolved == KeysWhere(before, GoneIn(w, cov)) && n == |resolved|
  {
    hide ProgressKey, DiffKey, CurrentKeys, Unverified, BeforeOf, AfterOf, Gone, GonePicks, IsIndex, OnePerKey,
        KeysWhere;
    var seen := set f | f in after :: DiffKey(f);
    var todo := baseById.Keys;
    resolved, n := {}, 0;
    NoPicks(w, cov, baseById);
    while todo != {}
      invariant todo <= baseById.Keys && n == |resolved|
      invariant resolved == KeysOfSet(GonePicks(w, cov, baseById, baseById.Keys - todo))
      decreases todo
    {
      var id :| id in todo;
      var f := baseById[id];
      IndexedKey(baseById, before, id);
      var gone := IsGone(w, cov, f, after, seen, currentKeys, unverified);
      PickOne(w, cov, before, baseById, baseById.Keys - todo, id);
      assert baseById.Keys - (todo - {id}) == (baseById.Keys - todo) + {id};
      todo := todo - {id};
      if gone {
        resolved, n := resolved + {ProgressKey(f)}, n + 1;
      }
    }
    assert baseById.Keys - {} == baseById.Keys;
    AllPicked(w, cov, before, baseById);
  }

  method IsGone(ghost w: Window, ghost cov: Coverage, f: Finding, after: seq<Finding>, seen: set<string>,
      currentKeys: set<string>, unverified: set<string>)
    returns (gone: bool)
    requires currentKeys == CurrentKeys(w) && unverified == Unverified(w) && DiffKey(f) != ""
    requires AfterOf(w, cov) == (set f | f in after) && seen == set f | f in after :: DiffKey(f)
    ensures gone <==> Gone(w, cov, f)
  {
    hide ProgressKey, DiffKey, CurrentKeys, Unverified, AfterOf;
    assert DiffKey(f) in seen <==> HasDiffKey(AfterOf(w, cov), DiffKey(f));
    gone := DiffKey(f) !in seen && OpenEvidence(f) && f.security && ProgressKey(f) !in currentKeys
      && ProgressKey(f) !in unverified;
  }

  ghost function KeysOfSet(findings: set<Finding>): set<string>
  {
    set f | f in findings :: ProgressKey(f)
  }

  /** The indexed findings under the given comparison keys that are gone. */
  ghost function GonePicks(w: Window, cov: Coverage, baseById: map<string, Finding>, ids: set<string>): set<Finding>
  {
    set id | id in ids && id in baseById && Gone(w, cov, baseById[id]) :: baseById[id]
  }

  lemma NoPicks(w: Window, cov: Coverage, baseById: map<string, Finding>)
    ensures KeysOfSet(GonePicks(w, cov, baseById, baseById.Keys - baseById.Keys)) == {}
  {
    hide Gone, ProgressKey;
  }

  lemma IndexedKey(baseById: map<string, Finding>, before: seq<Finding>, id: string)
    requires IsIndex(baseById, before) && id in baseById
    ensures id != "" && DiffKey(baseById[id]) == id
  {
    hide DiffKey;
  }

  /** One more comparison key brings at most one progress key, and that one is new. */
  lemma PickOne(w: Window, cov: Coverage, before: seq<Finding>, baseById: map<string, Finding>, ids: set<string>,
      id: string)
    requires IsIndex(baseById, before) && OnePerKey(before) && id in baseById && id !in ids
    ensures KeysOfSet(GonePicks(w, cov, baseById, ids + {id}))
         == KeysOfSet(GonePicks(w, cov, baseById, ids))
           + if Gone(w, cov, baseById[id]) then {ProgressKey(baseById[id])} else {}
    ensures ProgressKey(baseById[id]) !in KeysOfSet(GonePicks(w, cov, baseById, ids))
  {
    hide Gone, ProgressKey, IsIndex, OnePerKey;
    var picked := GonePicks(w, cov, baseById, ids);
    assert GonePicks(w, cov, baseById, ids + {id}) == picked
      + if Gone(w, cov, baseById[id]) then {baseById[id]} else {};
    OtherKeysDiffer(before, baseById, picked, baseById[id], id);
  }

  lemma AllPicked(w: Window, cov: Coverage, before: seq<Finding>, baseById: map<string, Finding>)
    requires IsIndex(baseById, before) && OnePerKey(before)
    requires forall f, g :: f in before && g in before && DiffKey(f) == DiffKey(g) ==> ProgressKey(f) == ProgressKey(g)
    ensures KeysOfSet(GonePicks(w, cov, baseById, baseById.Keys)) == KeysWhere(before, GoneIn(w, cov))
  {
    hide ProgressKey, DiffKey, OnePerKey, CurrentKeys, Unverified, HasDiffKey;
    IndexHasAll(before, baseById, GoneIn(w, cov));
    forall f | f in before && Gone(w, cov, f)
      ensures f in GonePicks(w, cov, baseById, baseById.Keys)
    {
      assert DiffKey(f) in baseById;
    }
    forall f | f in GonePicks(w, cov, baseById, baseById.Keys)
      ensures f in before && Gone(w, cov, f)
    {
    }
  }

  lemma OtherKeysDiffer(before: seq<Finding>, baseById: map<string, Finding>, picked: set<Finding>, f: Finding,
      id: string)
    requires IsIndex(baseById, before) && OnePerKey(before) && id in baseById && baseById[id] == f
    requires forall g :: g in picked ==> exists other :: other in baseById && other != id && baseById[other] == g
    ensures ProgressKey(f) !in set g | g in picked :: ProgressKey(g)
  {
    hide ProgressKey, DiffKey;
    forall g | g in picked
      ensures ProgressKey(g) != ProgressKey(f)
    {
      var i :| 0 <= i < |before| && before[i] == f;
      var j :| 0 <= j < |before| && before[j] == g;
      assert DiffKey(f) == id && DiffKey(g) != id;
      assert i != j;
    }
  }

  /** When equal comparison keys mean equal progress keys, the index holds every finding that has a comparison key. */
  lemma IndexHasAll(before: seq<Finding>, baseById: map<string, Finding>, p: Finding -> bool)
    requires IsIndex(baseById, before) && OnePerKey(before)
    requires forall f, g :: f in before && g in before && DiffKey(f) == DiffKey(g) ==> ProgressKey(f) == ProgressKey(g)
    ensures forall f :: f in before && DiffKey(f) != "" ==> baseById[DiffKey(f)] == f
  {
    hide ProgressKey, DiffKey;
    forall f | f in before && DiffKey(f) != ""
      ensures baseById[DiffKey(f)] == f
    {
      var g := baseById[DiffKey(f)];
      var i :| 0 <= i < |before| && before[i] == f;
      var j :| 0 <= j < |before| && before[j] == g;
      assert ProgressKey(before[i]) == ProgressKey(before[j]);
    }
  }

  /** What was open in the baseline and is hidden now. */
  method CompareHidden(ghost w: Window, ghost cov: Coverage, before: seq<Finding>, after: seq<Finding>)
    returns (suppressed: set<string>, n: nat)
    requires OnePerKey(after) && BeforeOf(w, cov) == (set f | f in before)
    ensures suppressed == KeysWhere(after, HiddenIn(w, cov)) && n == |suppressed|
  {
    hide ProgressKey, BeforeOf, OnePerKey, KeysWhere;
    var beforeOpen := set f | f in before && OpenEvidence(f) && f.security :: ProgressKey(f);
    suppressed, n := {}, 0;
    NoKeys();
    for i := 0 to |after|
      invariant suppressed == KeysWhere(after[..i], HiddenIn(w, cov)) && n == |suppressed|
    {
      var f := after[i];
      assert after[..i + 1] == after[..i] + [f];
      KeysGrow(after[..i], f, HiddenIn(w, cov));
      NextKeyIsNew(after, i, HiddenIn(w, cov));
      assert ProgressKey(f) in beforeOpen <==> OpenBefore(w, cov, ProgressKey(f));
      if ProgressKey(f) in beforeOpen && !OpenEvidence(f) && f.security {
        suppressed, n := suppressed + {ProgressKey(f)}, n + 1;
      }
    }
    assert after[..|after|] == after;
  }

  // ---------- The report ----------

  datatype Row = Row(scanId: string, baselineId: string, reason: Reason, added: nat, resurfaced: nat, resolved: nat,
      suppressed: nat)

  datatype Report = Report(rows: seq<Row>, compared: nat, excluded: nat, added: nat, resurfaced: nat, resolved: nat,
      suppressed: nat)

  ghost predicate IsRow(w: Window, cov: Coverage, row: Row)
  {
    && row.scanId == cov.scanId
    && row.baselineId == BaselineId(w, cov)
    && row.reason == ReasonFor(cov, Current(w, cov), BaselineOf(w, cov), w.Cutoff())
  }

  ghost predicate HasCounts(row: Row, keys: Keys)
  {
    row.added == |keys.added| && row.resurfaced == |keys.resurfaced| && row.resolved == |keys.resolved|
      && row.suppressed == |keys.suppressed|
  }

  const NO_KEYS := Keys({}, {}, {}, {})

  /** The last complete scan of each branch observed at or before the cut-off. */
  method SelectBaselines(scans: seq<Scan>, cutoff: int) returns (bases: map<string, Scan>)
    ensures forall key :: key in bases <==> Baseline(scans, cutoff, key).Some?
    ensures forall key :: key in bases ==> bases[key] == Baseline(scans, cutoff, key).value
  {
    bases := map[];
    for i := 0 to |scans|
      invariant forall key :: key in bases <==> Baseline(scans[..i], cutoff, key).Some?
      invariant forall key :: key in bases ==> bases[key] == Baseline(scans[..i], cutoff, key).value
    {
      assert scans[..i + 1][..i] == scans[..i];
      if ObservedAt(scans[i]) <= cutoff && scans[i].complete {
        bases := bases[BranchKey(scans[i]) := scans[i]];
      }
    }
    assert scans[..|scans|] == scans;
  }

  method FindScan(scans: seq<Scan>, id: string) returns (s: Scan)
    ensures s == ScanById(scans, id)
  {
    s := ZERO_SCAN;
    for i := 0 to |scans|
      invariant s == ScanById(scans[..i], id)
    {
      assert scans[..i + 1][..i] == scans[..i];
      if scans[i].id == id {
        s := scans[i];
      }
    }
    assert scans[..|scans|] == scans;
  }

  /** The first n coverage rows that compare. */
  function ComparedRows(w: Window, n: nat): set<nat>
    requires n <= |w.coverage|
  {
    set i | 0 <= i < n && Compared(w, w.coverage[i])
  }

  lemma NoRows(w: Window)
    ensures ComparedRows(w, 0) == {}
  {
  }

  lemma NextRow(w: Window, n: nat)
    requires n < |w.coverage|
    ensures |ComparedRows(w, n + 1)| == |ComparedRows(w, n)| + if Compared(w, w.coverage[n]) then 1 else 0
  {
    hide Compared;
    assert ComparedRows(w, n + 1) == ComparedRows(w, n) + if Compared(w, w.coverage[n]) then {n} else {};
  }

  lemma NoRowCompared(w: Window)
    ensures |ComparedRows(w, |w.coverage|)| == 0 <==> forall cov :: cov in w.coverage ==> !Compared(w, cov)
  {
    hide Compared;
    if cov :| cov in w.coverage && Compared(w, cov) {
      var i :| 0 <= i < |w.coverage| && w.coverage[i] == cov;
      assert i in ComparedRows(w, |w.coverage|);
    } else {
      assert ComparedRows(w, |w.coverage|) == {};
    }
  }

  /** Each coverage row's baseline and the reason it is left out, if any; the branches that compare. */
  method ExplainRows(w: Window) returns (rows: seq<Row>, comparable: set<string>, compared: nat)
    ensures |rows| == |w.coverage| && forall i :: 0 <= i < |rows| ==>
      IsRow(w, w.coverage[i], rows[i]) && HasCounts(rows[i], NO_KEYS)
    ensures forall key :: key in comparable <==> ComparableBranch(w, key)
    ensures compared == |ComparedRows(w, |w.coverage|)| <= |rows|
    ensures compared == 0 <==> forall cov :: cov in w.coverage ==> !Compared(w, cov)
  {
    hide BranchKey, ComparedRows;
    var cutoff := w.Cutoff();
    var bases := SelectBaselines(w.scans, cutoff);
    rows, comparable, compared := [], {}, 0;
    NoRows(w);
    for i := 0 to |w.coverage|
      invariant |rows| == i && compared == |ComparedRows(w, i)| <= i
      invariant forall k :: 0 <= k < i ==> IsRow(w, w.coverage[k], rows[k]) && HasCounts(rows[k], NO_KEYS)
      invariant forall key :: key in comparable <==>
        exists k :: 0 <= k < i && Compared(w, w.coverage[k]) && BranchKey(Current(w, w.coverage[k])) == key
    {
      var cov := w.coverage[i];
      var cur := FindScan(w.scans, cov.scanId);
      var base := if BranchKey(cur) in bases then Some(bases[BranchKey(cur)]) else None;
      var reason := ReasonFor(cov, cur, base, cutoff);
      assert base == BaselineOf(w, cov);
      NextRow(w, i);
      if reason.Comparable? {
        comparable, compared := comparable + {BranchKey(cur)}, compared + 1;
      }
      rows := rows + [Row(cov.scanId, if base.Some? then base.value.id else "", reason, 0, 0, 0, 0)];
    }
    assert forall k :: 0 <= k < |w.coverage| ==> w.coverage[k] in w.coverage;
    NoRowCompared(w);
  }

  method KeysOf(findings: seq<Finding>) returns (keys: set<string>)
    ensures keys == KeysWhere(findings, Any())
  {
    keys := set f | f in findings :: ProgressKey(f);
    assert keys == KeysWhere(findings, Any());
  }

  /** Keys open at the cut-off, and keys with evidence there on a branch that was not compared. */
  method KeysAtCutoff(w: Window, findings: seq<Finding>, comparable: set<string>)
    returns (baselineOpen: set<string>, unverified: set<string>)
    requires forall key :: key in comparable <==> ComparableBranch(w, key)
    ensures baselineOpen == KeysWhere(findings, OpenOnly()) && unverified == KeysWhere(findings, OffBranch(w))
  {
    hide ProgressKey, ComparableBranch, KeysWhere;
    baselineOpen, unverified := {}, {};
    NoKeys();
    for i := 0 to |findings|
      invariant baselineOpen == KeysWhere(findings[..i], OpenOnly())
      invariant unverified == KeysWhere(findings[..i], OffBranch(w))
    {
      var f := findings[i];
      assert findings[..i + 1] == findings[..i] + [f];
      KeysGrow(findings[..i], f, OpenOnly());
      KeysGrow(findings[..i], f, OffBranch(w));
      if OpenEvidence(f) {
        baselineOpen := baselineOpen + {ProgressKey(f)};
      }
      var s := FindScan(w.scans, f.scanId);
      if BranchKey(s) !in comparable {
        unverified := unverified + {ProgressKey(f)};
      }
    }
    assert findings[..|findings|] == findings;
  }

  datatype Comparison = Comparison(before: seq<Finding>, after: seq<Finding>, baseById: map<string, Finding>)

  /** The two scans of a compared row, one finding for each issue. */
  ghost predicate IsComparison(w: Window, cov: Coverage, c: Comparison)
  {
    && BeforeOf(w, cov) == (set f | f in c.before) && AfterOf(w, cov) == (set f | f in c.after)
    && OnePerKey(c.before) && OnePerKey(c.after) && IsIndex(c.baseById, c.before)
  }

  method LoadComparison(w: Window, e: FleetEvidence, ghost cov: Coverage, row: Row) returns (c: Comparison)
    requires e.Valid() && e.scans == w.scans && e.source == w.source && IsRow(w, cov, row) && row.reason.Comparable?
    modifies e
    ensures e.Valid() && IsComparison(w, cov, c)
  {
    hide IsIndex, OnePerKey, Distinct;
    var baseRows := e.Of(row.baselineId);
    var before := DistinctProgress(baseRows);
    var curRows := e.Of(row.scanId);
    var after := DistinctProgress(curRows);
    var baseById := IndexByDiffKey(before);
    c := Comparison(before, after, baseById);
  }

  method SelectCandidates(ghost w: Window, ghost cov: Coverage, c: Comparison, baselineOpen: set<string>)
    returns (out: seq<Finding>)
    requires IsComparison(w, cov, c) && baselineOpen == BaselineOpen(w)
    ensures forall f :: f in out <==> Candidate(w, cov, f)
  {
    hide ProgressKey, DiffKey, BaselineOpen, BeforeOf, AfterOf, OnePerKey, IsIndex, HasDiffKey;
    out := [];
    for i := 0 to |c.after|
      invariant forall f :: f in out <==> f in c.after[..i] && Candidate(w, cov, f)
    {
      var f := c.after[i];
      assert c.after[..i + 1] == c.after[..i] + [f] && f in AfterOf(w, cov);
      IndexTells(c.baseById, c.before, DiffKey(f));
      if DiffKey(f) !in c.baseById && OpenEvidence(f) && f.security && ProgressKey(f) !in baselineOpen {
        out := out + [f];
      }
    }
    assert c.after[..|c.after|] == c.after;
    assert forall f :: f in c.after <==> f in AfterOf(w, cov);
  }

  method LoadComparisons(w: Window, e: FleetEvidence, rows: seq<Row>, baselineOpen: set<string>)
    returns (compared: seq<Comparison>, candidates: seq<Finding>)
    requires e.Valid() && e.scans == w.scans && e.source == w.source && baselineOpen == BaselineOpen(w)
    requires |rows| == |w.coverage| && forall i :: 0 <= i < |rows| ==> IsRow(w, w.coverage[i], rows[i])
    modifies e
    ensures e.Valid() && |compared| == |rows|
    ensures forall i :: 0 <= i < |rows| && rows[i].reason.Comparable? ==> IsComparison(w, w.coverage[i], compared[i])
    ensures forall i, f :: 0 <= i < |rows| && rows[i].reason.Comparable? && Candidate(w, w.coverage[i], f) ==>
      f in candidates
    ensures forall f :: f in candidates ==> f in AllCandidates(w)
  {
    hide IsComparison, Candidate, BaselineOpen;
    compared, candidates := [], [];
    for i := 0 to |rows|
      invariant e.Valid() && |compared| == i
      invariant forall k :: 0 <= k < i && rows[k].reason.Comparable? ==> IsComparison(w, w.coverage[k], compared[k])
      invariant forall k, f :: 0 <= k < i && rows[k].reason.Comparable? && Candidate(w, w.coverage[k], f) ==>
        f in candidates
      invariant forall f :: f in candidates ==> f in AllCandidates(w)
    {
      var c := Comparison([], [], map[]);
      if rows[i].reason.Comparable? {
        c := LoadComparison(w, e, w.coverage[i], rows[i]);
        var found := SelectCandidates(w, w.coverage[i], c, baselineOpen);
        CandidatesAreListed(w, w.coverage[i], found);
        candidates := candidates + found;
      }
      compared := compared + [c];
    }
  }

  /** Every finding the candidates can come from. */
  function AllCandidates(w: Window): set<Finding>
  {
    set cov, f | cov in w.coverage && f in AfterOf(w, cov) :: f
  }

  lemma CandidatesAreListed(w: Window, cov: Coverage, found: seq<Finding>)
    requires cov in w.coverage && forall f :: f in found ==> Candidate(w, cov, f)
    ensures forall f :: f in found ==> f in AllCandidates(w)
  {
    hide Wanted, HasDiffKey, AfterOf;
  }

  method CompareRow(w: Window, ghost cov: Coverage, c: Comparison, baselineOpen: set<string>, currentKeys: set<string>,
      unverified: set<string>, first: map<string, int>, row: Row) returns (keys: Keys, out: Row)
    requires Consistent(w) && cov in w.coverage && Compared(w, cov) && IsComparison(w, cov, c) && IsRow(w, cov, row)
    requires baselineOpen == BaselineOpen(w) && currentKeys == CurrentKeys(w) && unverified == Unverified(w)
    requires forall f :: Candidate(w, cov, f) ==> Answers(w, first, ProgressKey(f))
    ensures keys == RowKeys(w, cov) && HasCounts(out, keys) && IsRow(w, cov, out)
  {
    hide ProgressKey, DiffKey, Consistent, BaselineOpen, CurrentKeys, Unverified, BeforeOf, AfterOf, OnePerKey,
        IsIndex, KeysWhere, RowKeys, Answers, Candidate, Compared;
    var added, resurfaced, nAdded, nResurfaced := CompareAfter(w, cov, c.before, c.after, c.baseById, baselineOpen,
        first, w.Cutoff());
    SameIssueSameKey(w, cov, c.before);
    var resolved, nResolved := CompareBefore(w, cov, c.before, c.after, c.baseById, currentKeys, unverified);
    var suppressed, nSuppressed := CompareHidden(w, cov, c.before, c.after);
    RowKeysAre(w, cov, c.before, c.after);
    keys := Keys(added, resurfaced, resolved, suppressed);
    out := row.(added := nAdded, resurfaced := nResurfaced, resolved := nResolved, suppressed := nSuppressed);
  }

  lemma SameIssueSameKey(w: Window, cov: Coverage, before: seq<Finding>)
    requires Consistent(w) && BeforeOf(w, cov) == set f | f in before
    ensures forall f, g :: f in before && g in before && DiffKey(f) == DiffKey(g) ==> ProgressKey(f) == ProgressKey(g)
  {
    hide ProgressKey, DiffKey, BeforeOf;
    forall f, g | f in before && g in before && DiffKey(f) == DiffKey(g)
      ensures ProgressKey(f) == ProgressKey(g)
    {
      assert f in BeforeOf(w, cov) && g in BeforeOf(w, cov);
      BeforeIsEarly(w, cov, f);
      BeforeIsEarly(w, cov, g);
      assert IdentitiesAgree(f, g);
    }
  }

  // ---------- Open locations week over week ----------

  /** The open rows of the baselines of the compared branches. */
  function LocationsBefore(w: Window): set<Finding>
  {
    set cov, f | cov in w.coverage && f in Rows(w.source, BaselineId(w, cov)) && IsBefore(w, cov, f) :: f
  }

  function LocationsAfter(w: Window): set<Finding>
  {
    set cov, f | cov in w.coverage && f in Rows(w.source, cov.scanId) && IsAfter(w, cov, f) :: f
  }

  predicate IsBefore(w: Window, cov: Coverage, f: Finding)
  {
    Compared(w, cov) && OpenEvidence(f) && BaselineOf(w, cov).Some? && f in Rows(w.source, BaselineId(w, cov))
  }

  predicate IsAfter(w: Window, cov: Coverage, f: Finding)
  {
    Compared(w, cov) && OpenEvidence(f) && f in Rows(w.source, cov.scanId)
  }

  lemma BeforeIsRow(w: Window, cov: Coverage, f: Finding)
    requires WellFormed(w.scans, w.source) && IsBefore(w, cov, f)
    ensures f in AllRows(w.scans, w.source)
  {
    hide Compared, OpenEvidence, BranchKey, Baseline;
    BaselineIsEarly(w.scans, w.Cutoff(), BranchKey(Current(w, cov)));
    RowsAreIn(w, BaselineOf(w, cov).value, f);
  }

  lemma AfterIsRow(w: Window, cov: Coverage, f: Finding)
    requires Consistent(w) && cov in w.coverage && IsAfter(w, cov, f)
    ensures f in AllRows(w.scans, w.source)
  {
    hide OpenEvidence, AllRows, BaselineOf;
    var s :| s in w.scans && s.id == cov.scanId;
    RowsAreIn(w, s, f);
  }

  lemma LocationsAreRows(w: Window)
    requires Consistent(w) && FleetTrends.DistinctIds(AllRows(w.scans, w.source))
    ensures FleetTrends.DistinctIds(LocationsBefore(w)) && FleetTrends.DistinctIds(LocationsAfter(w))
  {
    hide AllRows, IsBefore, IsAfter, Consistent;
    forall f | f in LocationsBefore(w)
      ensures f in AllRows(w.scans, w.source)
    {
      var cov :| cov in w.coverage && IsBefore(w, cov, f);
      WellFormedPart(w);
      BeforeIsRow(w, cov, f);
    }
    forall f | f in LocationsAfter(w)
      ensures f in AllRows(w.scans, w.source)
    {
      var cov :| cov in w.coverage && IsAfter(w, cov, f);
      AfterIsRow(w, cov, f);
    }
  }

  ghost predicate IsDelta(w: Window, delta: map<string, int>)
  {
    && delta.Keys == FleetTrends.SEVERITIES
    && forall s :: s in delta ==> delta[s] == FleetTrends.CountOf(FleetTrends.Deduplicated(LocationsAfter(w)), s)
                                            - FleetTrends.CountOf(FleetTrends.Deduplicated(LocationsBefore(w)), s)
  }

  /** Open issues of each severity on the compared branches now, less those in their baselines. */
  method LocationDelta(w: Window, e: FleetEvidence, rows: seq<Row>) returns (delta: map<string, int>)
    requires Consistent(w) && FleetTrends.DistinctIds(AllRows(w.scans, w.source))
    requires e.Valid() && e.scans == w.scans && e.source == w.source && Explained(w, rows)
    modifies e
    ensures e.Valid() && IsDelta(w, delta)
  {
    hide Consistent, AllRows, FleetTrends.DistinctIds, FleetTrends.Deduplicated, FleetTrends.CountOf, LocationsAfter,
        LocationsBefore;
    var before, after := Locations(w, e, rows);
    LocationsAreRows(w);
    var now := FleetTrends.DedupCurrentFindings(after);
    var previous := FleetTrends.DedupCurrentFindings(before);
    var counts := FleetTrends.CountBySeverity(now);
    var earlier := FleetTrends.CountBySeverity(previous);
    delta := Subtracted(counts, earlier);
  }

  method Subtracted(counts: map<string, int>, previous: map<string, int>) returns (delta: map<string, int>)
    requires previous.Keys == counts.Keys
    ensures delta.Keys == counts.Keys && forall s :: s in counts ==> delta[s] == counts[s] - previous[s]
  {
    delta := counts;
    var todo := previous.Keys;
    while todo != {}
      invariant todo <= previous.Keys && delta.Keys == counts.Keys
      invariant forall s :: s in counts ==> delta[s] == if s in todo then counts[s] else counts[s] - previous[s]
      decreases todo
    {
      var s :| s in todo;
      delta := delta[s := delta[s] - previous[s]];
      todo := todo - {s};
    }
  }

  method Locations(w: Window, e: FleetEvidence, rows: seq<Row>) returns (before: seq<Finding>, after: seq<Finding>)
    requires e.Valid() && e.scans == w.scans && e.source == w.source && Explained(w, rows)
    modifies e
    ensures e.Valid() && FleetTrends.SetOf(before) == LocationsBefore(w)
    ensures FleetTrends.SetOf(after) == LocationsAfter(w)
  {
    before, after := [], [];
    for i := 0 to |rows|
      invariant e.Valid() && e.scans == w.scans && e.source == w.source
      invariant forall f :: f in before <==> exists k :: 0 <= k < i && IsBefore(w, w.coverage[k], f)
      invariant forall f :: f in after <==> exists k :: 0 <= k < i && IsAfter(w, w.coverage[k], f)
    {
      if rows[i].reason.Comparable? {
        var base := OpenRows(e, rows[i].baselineId);
        var current := OpenRows(e, rows[i].scanId);
        before, after := before + base, after + current;
      }
    }
    assert forall k :: 0 <= k < |w.coverage| ==> w.coverage[k] in w.coverage;
  }

  method OpenRows(e: FleetEvidence, scanId: string) returns (out: seq<Finding>)
    requires e.Valid()
    modifies e
    ensures e.Valid() && forall f :: f in out <==> f in Rows(e.source, scanId) && OpenEvidence(f)
  {
    var rows := e.Of(scanId);
    out := [];
    for i := 0 to |rows|
      invariant forall f :: f in out <==> f in rows[..i] && OpenEvidence(f)
    {
      assert rows[..i + 1] == rows[..i] + [rows[i]];
      if OpenEvidence(rows[i]) {
        out := out + [rows[i]];
      }
    }
    assert rows[..|rows|] == rows;
  }

  lemma NoLocations(w: Window)
    requires forall cov :: cov in w.coverage ==> !Compared(w, cov)
    ensures IsDelta(w, map["critical" := 0, "high" := 0, "medium" := 0, "low" := 0, "info" := 0])
  {
    hide Compared;
    assert LocationsBefore(w) == {} && LocationsAfter(w) == {};
  }

  /** The report counts exactly the keys of the specification, row by row and overall. */
  method Changes(w: Window, e: FleetEvidence, h: History) returns (out: Report, delta: map<string, int>)
    requires Consistent(w) && e.Valid() && e.scans == w.scans && e.source == w.source && h.scans == w.scans
    requires h.source == w.source
    requires Separated(AllRows(w.scans, w.source) + AllCandidates(w))
    requires FleetTrends.DistinctIds(AllRows(w.scans, w.source))
    modifies e
    ensures e.Valid() && Explained(w, out.rows) && Counted(w, out.rows, |out.rows|)
    ensures var keys := ReportKeys(w, w.coverage);
      && out.added == |keys.added| && out.resurfaced == |keys.resurfaced| && out.resolved == |keys.resolved|
      && out.suppressed == |keys.suppressed|
    ensures IsDelta(w, delta)
    ensures out.compared == |ComparedRows(w, |w.coverage|)| && out.excluded == |w.coverage| - out.compared
  {
    hide Consistent, Separated, ProgressKey, BaselineOpen, CurrentKeys, Unverified, RowKeys, IsComparison, Candidate,
        ComparedRows, Compared, IsDelta, FleetTrends.DistinctIds, AllRows, AllCandidates, FleetChains.Current, Answers,
        WellFormed, Times, KeysWhere;
    var rows, comparable, compared := ExplainRows(w);
    if compared == 0 {
      NothingCompared(w, w.coverage);
      NoLocations(w);
      return Report(rows, 0, |rows|, 0, 0, 0, 0),
      map["critical" := 0, "high" := 0, "medium" := 0, "low" := 0, "info" := 0];
    }
    var now := e.CurrentEvidence(w.now);
    var currentKeys := KeysOf(now);
    EvidenceKeys(w, w.now, now);
    var before := e.CurrentEvidence(w.Cutoff());
    var baselineOpen, unverified := KeysAtCutoff(w, before, comparable);
    EvidenceKeys(w, w.Cutoff(), before);
    var loaded, candidates := LoadComparisons(w, e, rows, baselineOpen);
    SeparatedPart(w, candidates);
    WellFormedPart(w);
    var tally, observed := h.Read(candidates);
    HistoryAnswers(w, candidates, tally, observed);
    assert forall i :: 0 <= i < |rows| && rows[i].reason.Comparable? ==> AllAnswered(w, w.coverage[i], tally.first);
    var counted, total := CountRows(w, rows, loaded, baselineOpen, currentKeys, unverified, tally.first);
    delta := LocationDelta(w, e, rows);
    out := Report(counted, compared, |counted| - compared, |total.added|, |total.resurfaced|, |total.resolved|,
      |total.suppressed|);
  }

  ghost predicate Explained(w: Window, rows: seq<Row>)
  {
    |rows| == |w.coverage| && forall i :: 0 <= i < |rows| ==> IsRow(w, w.coverage[i], rows[i])
  }

  /** The counts of the first n rows. */
  ghost predicate Counted(w: Window, rows: seq<Row>, n: nat)
    requires n <= |rows| == |w.coverage|
  {
    forall i :: 0 <= i < n ==>
      HasCounts(rows[i], if Compared(w, w.coverage[i]) then RowKeys(w, w.coverage[i]) else NO_KEYS)
  }

  ghost predicate AllAnswered(w: Window, cov: Coverage, first: map<string, int>)
  {
    forall f :: Candidate(w, cov, f) ==> Answers(w, first, ProgressKey(f))
  }

  method CountRows(w: Window, start: seq<Row>, loaded: seq<Comparison>, baselineOpen: set<string>,
      currentKeys: set<string>, unverified: set<string>, first: map<string, int>) returns (rows: seq<Row>, total: Keys)
    requires Consistent(w) && Explained(w, start) && |loaded| == |start|
    requires forall i :: 0 <= i < |start| ==> HasCounts(start[i], NO_KEYS)
    requires forall i :: 0 <= i < |start| && start[i].reason.Comparable? ==> IsComparison(w, w.coverage[i], loaded[i])
    requires forall i :: 0 <= i < |start| && start[i].reason.Comparable? ==> AllAnswered(w, w.coverage[i], first)
    requires baselineOpen == BaselineOpen(w) && currentKeys == CurrentKeys(w) && unverified == Unverified(w)
    ensures Explained(w, rows) && Counted(w, rows, |rows|) && total == ReportKeys(w, w.coverage)
  {
    hide Consistent, ProgressKey, BaselineOpen, CurrentKeys, Unverified, RowKeys, IsComparison, Candidate, Answers,
        HasCounts, ReasonFor, BaselineOf, Current;
    rows, total := start, NO_KEYS;
    for i := 0 to |start|
      invariant Explained(w, rows) && Counted(w, rows, i) && total == ReportKeys(w, w.coverage[..i])
      invariant forall k :: i <= k < |rows| ==> rows[k] == start[k]
    {
      assert w.coverage[..i + 1][..i] == w.coverage[..i];
      if rows[i].reason.Comparable? {
        var keys, row := CompareRow(w, w.coverage[i], loaded[i], baselineOpen, currentKeys, unverified, first, rows[i]);
        rows := rows[i := row];
        total := Joined(total, keys);
      }
    }
    assert w.coverage[..|rows|] == w.coverage;
  }

  lemma WellFormedPart(w: Window)
    requires Consistent(w)
    ensures WellFormed(w.scans, w.source)
  {
  }

  lemma SeparatedPart(w: Window, candidates: seq<Finding>)
    requires Separated(AllRows(w.scans, w.source) + AllCandidates(w)) && forall f :: f in candidates ==>
      f in AllCandidates(w)
    ensures Separated(AllRows(w.scans, w.source) + set f | f in candidates)
  {
    hide ProgressPart, Print, NulFree, AllRows, AllCandidates;
  }

  lemma {:induction false} NothingCompared(w: Window, rows: seq<Coverage>)
    requires forall cov :: cov in rows ==> !Compared(w, cov)
    ensures ReportKeys(w, rows) == NO_KEYS
  {
    hide Compared;
    if rows != [] {
      NothingCompared(w, rows[..|rows| - 1]);
    }
  }

  /** The earliest observation tells whether the issue was seen at or before the cut-off. */
  lemma HistoryAnswers(w: Window, candidates: seq<Finding>, t: Tally, observed: map<string, int>)
    requires WellFormed(w.scans, w.source) && Times(observed, w.scans)
    requires forall f :: f in candidates ==> ReportsWhole(t, observed, w.scans, w.source, ProgressKey(f))
    ensures forall f :: f in candidates ==> Answers(w, t.first, ProgressKey(f))
  {
    hide ProgressKey;
    forall f | f in candidates
      ensures Answers(w, t.first, ProgressKey(f))
    {
      KeyAnswers(w, ProgressKey(f), t, observed);
    }
  }

  lemma KeyAnswers(w: Window, key: string, t: Tally, observed: map<string, int>)
    requires WellFormed(w.scans, w.source) && Times(observed, w.scans)
    requires ReportsWhole(t, observed, w.scans, w.source, key)
    ensures Answers(w, t.first, key)
  {
    hide ProgressKey;
    var notes := NotesOf(AllRows(w.scans, w.source));
    if key in SeenEarly(w) {
      var s, f :| s in w.scans && ObservedAt(s) <= w.Cutoff() && f in Rows(w.source, s.id) && ProgressKey(f) == key;
      RowsAreIn(w, s, f);
      assert NoteOf(f) in notes;
      assert s.id in SeenIn(notes, key);
    }
    if key in t.first {
      var id :| id in SeenIn(notes, key) && id in observed && observed[id] == t.first[key];
      var n :| n in notes && n.key == key && n.scanId == id;
      var f :| f in AllRows(w.scans, w.source) && NoteOf(f) == n;
      var s :| s in w.scans && f in Rows(w.source, s.id);
      RowsAreIn(w, s, f);
      assert observed[s.id] == ObservedAt(s);
    }
  }
}
