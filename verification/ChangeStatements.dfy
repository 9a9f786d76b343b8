/** The weekly change report in columns, over scan rows and surviving evidence. */
module ChangeStatements {
  import opened Wrappers
  import opened Text
  import opened FleetModel
  import opened FleetHistory
  import opened FleetChanges
  import opened FleetStatements
  import FleetChains
  import FleetTrends

  /** A week before the report. */
  function Then(w: Window): int
  {
    w.now - Days(7)
  }

  // ---------- Which branches compare ----------

  /** Position i holds the scan, and no later one holds its id. */
  predicate LastWithId(scans: seq<Scan>, id: string, s: Scan, i: nat)
  {
    i < |scans| && scans[i] == s && s.id == id && forall k :: i < k < |scans| ==> scans[k].id != id
  }

  /** The scan listed last under the id; the zero scan when none is. */
  ghost predicate IsScan(scans: seq<Scan>, id: string, s: Scan)
  {
    || (exists i :: LastWithId(scans, id, s, i))
    || (s == Scan("", "", "", 0, None, false, "", "", "") && forall i :: 0 <= i < |scans| ==> scans[i].id != id)
  }

  lemma {:induction false} ScanExactly(scans: seq<Scan>, id: string, s: Scan)
    ensures ScanById(scans, id) == s <==> IsScan(scans, id, s)
  {
    if scans != [] {
      var front, last := scans[..|scans| - 1], scans[|scans| - 1];
      ScanExactly(front, id, s);
      assert scans == front + [last];
      ScanAfter(front, last, id, s);
      hide IsScan;
    }
  }

  lemma ScanAfter(front: seq<Scan>, last: Scan, id: string, s: Scan)
    ensures IsScan(front + [last], id, s) <==> if last.id == id then s == last else IsScan(front, id, s)
  {
    var scans := front + [last];
    assert scans[|front|] == last && forall i :: 0 <= i < |front| ==> front[i] == scans[i];
    if last.id == id {
      assert LastWithId(scans, id, last, |front|);
    } else {
      forall i: nat
        ensures LastWithId(scans, id, s, i) <==> LastWithId(front, id, s, i)
      {
      }
      assert (forall i :: 0 <= i < |scans| ==> scans[i].id != id) <==>
             forall i :: 0 <= i < |front| ==> front[i].id != id;
    }
  }

  /** Position i holds the scan, a complete one of the branch seen by the time, and no later such one comes. */
  predicate BaseAt(scans: seq<Scan>, at: int, key: string, s: Scan, i: nat)
  {
    && i < |scans| && scans[i] == s && s.complete && Seen(s, at, key)
    && forall k :: i < k < |scans| && Seen(scans[k], at, key) ==> !scans[k].complete
  }

  /** The branch's last complete scan seen by the time. */
  ghost predicate IsBase(scans: seq<Scan>, at: int, key: string, s: Scan)
  {
    exists i :: BaseAt(scans, at, key, s, i)
  }

  lemma {:induction false} BaselineExactly(scans: seq<Scan>, at: int, key: string, s: Scan)
    ensures Baseline(scans, at, key) == Some(s) <==> IsBase(scans, at, key, s)
  {
    hide Time, BranchOf;
    if scans != [] {
      var front, last := scans[..|scans| - 1], scans[|scans| - 1];
      BaselineExactly(front, at, key, s);
      ScansExactly(last);
      assert scans == front + [last];
      BaseAfter(front, last, at, key, s);
      hide IsBase;
    }
  }

  lemma BaseAfter(front: seq<Scan>, last: Scan, at: int, key: string, s: Scan)
    ensures IsBase(front + [last], at, key, s) <==>
      if last.complete && Seen(last, at, key) then s == last else IsBase(front, at, key, s)
  {
    hide Seen;
    var scans := front + [last];
    assert scans[|front|] == last && forall i :: 0 <= i < |front| ==> front[i] == scans[i];
    if last.complete && Seen(last, at, key) {
      assert BaseAt(scans, at, key, last, |front|);
    } else {
      forall i: nat
        ensures BaseAt(scans, at, key, s, i) <==> BaseAt(front, at, key, s, i)
      {
      }
    }
  }

  /** Why a row is left out, checked in order. */
  lemma ReasonExactly(cov: Coverage, cur: Scan, base: Option<Scan>, cutoff: int)
    ensures ReasonFor(cov, cur, base, cutoff)
      == match (cov.upToDate, base)
         case (false, _) => NotFresh
         case (true, None) => NoBaseline
         case (true, Some(b)) =>
           if Time(b) + Days(30) < cutoff then BaselineTooOld
           else if cur.releaseId == "" && cur.manifestDigest == "" then ReleaseUnknown
           else if cur.scope != "" && cur.scope == b.scope then Comparable
           else ScopeChanged
  {
  }

  /** A row whose present scan can be compared with the base of its branch. */
  ghost predicate Compares(w: Window, cov: Coverage, cur: Scan, base: Scan)
  {
    && cov.upToDate && IsScan(w.scans, cov.scanId, cur) && IsBase(w.scans, Then(w), BranchOf(cur), base)
    && Time(base) >= Then(w) - Days(30)
    && (cur.manifestDigest != "" || cur.releaseId != "")
    && cur.scope != "" && cur.scope == base.scope
  }

  lemma ComparedExactly(w: Window, cov: Coverage)
    ensures Compared(w, cov) <==> exists cur, base :: Compares(w, cov, cur, base)
    ensures forall cur, base :: Compares(w, cov, cur, base) ==>
      cur == Current(w, cov) && BaselineOf(w, cov) == Some(base)
    ensures Compared(w, cov) ==>
      BaselineOf(w, cov).Some? && Compares(w, cov, Current(w, cov), BaselineOf(w, cov).value)
  {
    hide IsScan, IsBase, Baseline, ScanById, BranchOf, Time;
    var cur := Current(w, cov);
    ScanExactly(w.scans, cov.scanId, cur);
    ScansExactly(cur);
    forall s
      ensures IsScan(w.scans, cov.scanId, s) <==> s == cur
    {
      ScanExactly(w.scans, cov.scanId, s);
    }
    forall s
      ensures IsBase(w.scans, Then(w), BranchOf(cur), s) <==> BaselineOf(w, cov) == Some(s)
    {
      BaselineExactly(w.scans, Then(w), BranchOf(cur), s);
    }
    if BaselineOf(w, cov).Some? {
      ScansExactly(BaselineOf(w, cov).value);
      assert Compared(w, cov) <==> Compares(w, cov, cur, BaselineOf(w, cov).value);
    }
  }

  // ---------- The rows of one scan ----------

  /** Open rows weigh more than all others, then the severer ones. */
  function Weight(f: Finding): int
  {
    SeverityRank(f.severity) + if IsOpen(f) then 10 else 0
  }

  /** Row i is the finding; it outweighs every earlier row of its issue, and no later one outweighs it. */
  predicate Represents(rows: seq<Finding>, f: Finding, i: int)
  {
    && 0 <= i < |rows| && rows[i] == f
    && (forall k :: 0 <= k < i && Issue(rows[k]) == Issue(f) ==> Weight(rows[k]) < Weight(f))
    && (forall k :: i < k < |rows| && Issue(rows[k]) == Issue(f) ==> Weight(rows[k]) <= Weight(f))
  }

  ghost predicate Representative(rows: seq<Finding>, f: Finding)
  {
    exists i :: Represents(rows, f, i)
  }

  /** Of each issue the report keeps the row that represents it. */
  lemma {:induction false} DistinctExactly(rows: seq<Finding>, f: Finding)
    ensures Issue(f) in Distinct(rows) && Distinct(rows)[Issue(f)] == f <==> Representative(rows, f)
  {
    hide Issue, ProgressKey, Preferred, Representative;
    IdentitiesExactly(f);
    if rows != [] {
      var front, last := rows[..|rows| - 1], rows[|rows| - 1];
      assert rows == front + [last];
      IdentitiesExactly(last);
      DistinctExactly(front, f);
      var rest := Distinct(front);
      if Issue(last) in rest {
        var leader := rest[Issue(last)];
        IdentitiesExactly(leader);
        DistinctExactly(front, leader);
        PreferredExactly(last, leader);
        RepresentsAfter(front, last, leader, f);
      } else {
        forall k | 0 <= k < |front|
          ensures Issue(front[k]) != Issue(last)
        {
          IdentitiesExactly(front[k]);
        }
        RepresentsFirst(front, last, f);
      }
    } else {
      NothingRepresents(f);
    }
  }

  lemma NothingRepresents(f: Finding)
    ensures !Representative([], f)
  {
  }

  lemma PreferredExactly(f: Finding, previous: Finding)
    ensures Preferred(f, previous) <==> Weight(f) > Weight(previous)
  {
    hide SeverityRank;
    RankExactly(f.severity);
    RankExactly(previous.severity);
    IdentitiesExactly(f);
    IdentitiesExactly(previous);
  }

  /** The first row of an issue represents it, */
  lemma RepresentsFirst(front: seq<Finding>, last: Finding, f: Finding)
    requires forall k :: 0 <= k < |front| ==> Issue(front[k]) != Issue(last)
    ensures Representative(front + [last], f) <==>
      if Issue(f) == Issue(last) then f == last else Representative(front, f)
  {
    hide Issue, Weight;
    var rows := front + [last];
    assert rows[|front|] == last && forall k :: 0 <= k < |front| ==> rows[k] == front[k];
    if Issue(f) != Issue(last) {
      assert forall i :: Represents(rows, f, i) <==> Represents(front, f, i);
    } else if f == last {
      assert Represents(rows, f, |front|);
    }
  }

  /** a further one only when it outweighs the row that did so far. */
  lemma RepresentsAfter(front: seq<Finding>, last: Finding, leader: Finding, f: Finding)
    requires Representative(front, leader) && Issue(leader) == Issue(last)
    ensures Representative(front + [last], f) <==>
      if Issue(f) == Issue(last) then f == if Weight(last) > Weight(leader) then last else leader
      else Representative(front, f)
  {
    hide Issue, Weight;
    var rows := front + [last];
    assert rows[|front|] == last && forall k :: 0 <= k < |front| ==> rows[k] == front[k];
    if Issue(f) != Issue(last) {
      assert forall i :: Represents(rows, f, i) <==> Represents(front, f, i);
    } else {
      var i :| Represents(front, leader, i);
      var best, b := if Weight(last) > Weight(leader) then last else leader,
        if Weight(last) > Weight(leader) then |front| else i;
      assert Represents(rows, best, b);
      if j :| Represents(rows, f, j) {
        assert b == j;
      }
    }
  }

  /** The row's base is the scan: the base of the branch of the row's present scan. */
  ghost predicate HasBase(w: Window, cov: Coverage, base: Scan)
  {
    exists cur :: IsScan(w.scans, cov.scanId, cur) && IsBase(w.scans, Then(w), BranchOf(cur), base)
  }

  /** The finding represents its issue in the row's base. */
  ghost predicate InBase(w: Window, cov: Coverage, f: Finding)
  {
    exists base :: HasBase(w, cov, base) && Representative(RowsOf(w.source, base.id), f)
  }

  /** The finding represents its issue in the row's present scan. */
  ghost predicate InPresent(w: Window, cov: Coverage, f: Finding)
  {
    Representative(RowsOf(w.source, cov.scanId), f)
  }

  lemma KeptExactly(rows: seq<Finding>, f: Finding)
    ensures f in Distinct(rows).Values <==> Representative(rows, f)
  {
    hide Representative, ProgressKey, Issue, Distinct;
    DistinctExactly(rows, f);
    if f in Distinct(rows).Values {
      var key :| key in Distinct(rows) && Distinct(rows)[key] == f;
      IdentitiesExactly(f);
    }
  }

  lemma BaseExactly(w: Window, cov: Coverage, base: Scan)
    ensures BaselineOf(w, cov) == Some(base) <==> HasBase(w, cov, base)
  {
    hide IsScan, IsBase, Baseline, ScanById, BranchOf, BranchKey;
    var cur := Current(w, cov);
    ScanExactly(w.scans, cov.scanId, cur);
    ScansExactly(cur);
    forall s
      ensures IsScan(w.scans, cov.scanId, s) <==> s == cur
    {
      ScanExactly(w.scans, cov.scanId, s);
    }
    BaselineExactly(w.scans, Then(w), BranchOf(cur), base);
  }

  lemma IssuesExactly(w: Window, cov: Coverage, f: Finding)
    ensures f in BeforeOf(w, cov) <==> InBase(w, cov, f)
    ensures f in AfterOf(w, cov) <==> InPresent(w, cov, f)
  {
    hide HasBase, Representative, Distinct, BaselineOf;
    KeptExactly(Rows(w.source, cov.scanId), f);
    forall base
      ensures BaselineOf(w, cov) == Some(base) <==> HasBase(w, cov, base)
    {
      BaseExactly(w, cov, base);
    }
    if BaselineOf(w, cov).Some? {
      var base := BaselineOf(w, cov).value;
      assert HasBase(w, cov, base);
      KeptExactly(Rows(w.source, base.id), f);
    }
  }

  // ---------- What is known of an issue ----------

  /** Some scan of a week ago or earlier shows the issue. */
  ghost predicate ShownThen(w: Window, key: string)
  {
    exists s, f :: Shown(w.scans, w.source, key, s, f) && Time(s) <= Then(w)
  }

  /** The evidence of a week ago holds an open row of the issue. */
  ghost predicate OpenThen(w: Window, key: string)
  {
    exists f :: IsEvidence(w.source, w.scans, Then(w), f) && IsOpen(f) && Issue(f) == key
  }

  /** The present evidence holds a row of the issue. */
  ghost predicate EvidentNow(w: Window, key: string)
  {
    exists f :: IsEvidence(w.source, w.scans, w.now, f) && Issue(f) == key
  }

  /** The row's branch is one that some coverage row compares. */
  ghost predicate OnComparedBranch(w: Window, f: Finding)
  {
    exists cov, cur, base, s ::
      cov in w.coverage && Compares(w, cov, cur, base) && IsScan(w.scans, f.scanId, s) && BranchOf(cur) == BranchOf(s)
  }

  /** The evidence of a week ago holds a row of the issue on a branch that no coverage row compares. */
  ghost predicate Unchecked(w: Window, key: string)
  {
    exists f :: IsEvidence(w.source, w.scans, Then(w), f) && Issue(f) == key && !OnComparedBranch(w, f)
  }

  lemma ShownThenExactly(w: Window, key: string)
    ensures key in SeenEarly(w) <==> ShownThen(w, key)
  {
    hide Time, Issue, ObservedAt, ProgressKey;
    forall s, f
      ensures ObservedAt(s) == Time(s) && ProgressKey(f) == Issue(f)
    {
      ScansExactly(s);
      IdentitiesExactly(f);
    }
    if key in SeenEarly(w) {
      var s, f :| s in w.scans && ObservedAt(s) <= w.Cutoff() && f in Rows(w.source, s.id) && ProgressKey(f) == key;
      assert Shown(w.scans, w.source, key, s, f);
    }
    if ShownThen(w, key) {
      var s, f :| Shown(w.scans, w.source, key, s, f) && Time(s) <= Then(w);
      assert f in Rows(w.source, s.id) && ProgressKey(f) == key;
    }
  }

  /** Evidence at a time is stored rows, told by their columns. */
  lemma EvidenceIs(w: Window, at: int, f: Finding)
    ensures FleetChains.Current(w.source, w.scans, at, f) <==> IsEvidence(w.source, w.scans, at, f)
    ensures IsEvidence(w.source, w.scans, at, f) ==> f in AllRows(w.scans, w.source)
    ensures ProgressKey(f) == Issue(f) && OpenEvidence(f) == IsOpen(f)
  {
    hide FleetChains.Current, IsEvidence, AllRows, Issue, ProgressKey;
    EvidenceExactly(w.source, w.scans, at, f);
    IdentitiesExactly(f);
    if IsEvidence(w.source, w.scans, at, f) {
      CurrentIsRow(w.source, w.scans, at, f);
    }
  }

  lemma BranchExactly(w: Window, f: Finding)
    ensures ComparableBranch(w, BranchKey(ScanById(w.scans, f.scanId))) <==> OnComparedBranch(w, f)
  {
    hide IsScan, Compares, Compared, BranchKey, BranchOf, ScanById;
    var s := ScanById(w.scans, f.scanId);
    ScansExactly(s);
    forall t
      ensures IsScan(w.scans, f.scanId, t) <==> t == s
    {
      ScanExactly(w.scans, f.scanId, t);
    }
    forall cov
      ensures Compared(w, cov) <==> exists cur, base :: Compares(w, cov, cur, base)
      ensures forall cur, base :: Compares(w, cov, cur, base) ==>
        cur == Current(w, cov) && BranchKey(cur) == BranchOf(cur)
    {
      ComparedExactly(w, cov);
      ScansExactly(Current(w, cov));
    }
    hide Current;
    if ComparableBranch(w, BranchKey(s)) {
      var cov :| cov in w.coverage && Compared(w, cov) && BranchKey(Current(w, cov)) == BranchKey(s);
      var cur, base :| Compares(w, cov, cur, base);
    }
    if OnComparedBranch(w, f) {
      var cov, cur, base, t :| cov in w.coverage && Compares(w, cov, cur, base) && IsScan(w.scans, f.scanId, t)
        && BranchOf(cur) == BranchOf(t);
      assert Compared(w, cov);
    }
  }

  /** What the report knows of an issue is what the scans, and the evidence then and now, show. */
  lemma KnownExactly(w: Window, key: string)
    ensures key in BaselineOpen(w) <==> OpenThen(w, key)
    ensures key in CurrentKeys(w) <==> EvidentNow(w, key)
    ensures key in Unverified(w) <==> Unchecked(w, key)
  {
    hide FleetChains.Current, IsEvidence, AllRows, Issue, ProgressKey, OpenEvidence, IsOpen, OnComparedBranch,
        ComparableBranch;
    forall f
      ensures FleetChains.Current(w.source, w.scans, w.now, f) <==> IsEvidence(w.source, w.scans, w.now, f)
      ensures FleetChains.Current(w.source, w.scans, Then(w), f) <==> IsEvidence(w.source, w.scans, Then(w), f)
      ensures IsEvidence(w.source, w.scans, Then(w), f) || IsEvidence(w.source, w.scans, w.now, f) ==>
        f in AllRows(w.scans, w.source)
      ensures ProgressKey(f) == Issue(f) && OpenEvidence(f) == IsOpen(f)
      ensures ComparableBranch(w, BranchKey(ScanById(w.scans, f.scanId))) <==> OnComparedBranch(w, f)
    {
      EvidenceIs(w, w.now, f);
      EvidenceIs(w, Then(w), f);
      BranchExactly(w, f);
    }
  }

  // ---------- The four kinds of change ----------

  ghost predicate MatchedInBase(w: Window, cov: Coverage, f: Finding)
  {
    Match(f) != "" && exists g :: InBase(w, cov, g) && Match(g) == Match(f)
  }

  ghost predicate MatchedInPresent(w: Window, cov: Coverage, f: Finding)
  {
    Match(f) != "" && exists g :: InPresent(w, cov, g) && Match(g) == Match(f)
  }

  /** Open now and not in the backlog of a week ago, without a match in the base, never shown until then. */
  ghost predicate IsNew(w: Window, cov: Coverage, key: string)
  {
    exists f ::
      && InPresent(w, cov, f) && Issue(f) == key && IsOpen(f) && f.security
      && !OpenThen(w, key) && !MatchedInBase(w, cov, f) && !ShownThen(w, key)
  }

  /** Open now and not in the backlog of a week ago, matched in the base or shown some time until then. */
  ghost predicate IsBack(w: Window, cov: Coverage, key: string)
  {
    exists f ::
      && InPresent(w, cov, f) && Issue(f) == key && IsOpen(f) && f.security
      && !OpenThen(w, key) && (MatchedInBase(w, cov, f) || ShownThen(w, key))
  }

  /**
   Open in the base, without a match in the present scan or any present evidence, and without evidence a
   week ago on a branch that was not compared.
  */
  ghost predicate IsFixed(w: Window, cov: Coverage, key: string)
  {
    exists f ::
      && InBase(w, cov, f) && Issue(f) == key && IsOpen(f) && f.security && Match(f) != ""
      && !MatchedInPresent(w, cov, f) && !EvidentNow(w, key) && !Unchecked(w, key)
  }

  /** Open in the base, and present but not open now. */
  ghost predicate IsHidden(w: Window, cov: Coverage, key: string)
  {
    exists f, g ::
      && InPresent(w, cov, f) && Issue(f) == key && f.security && !IsOpen(f)
      && InBase(w, cov, g) && Issue(g) == key && g.security && IsOpen(g)
  }

  lemma MatchedExactly(w: Window, cov: Coverage, f: Finding)
    ensures HasDiffKey(BeforeOf(w, cov), DiffKey(f)) <==> MatchedInBase(w, cov, f)
    ensures HasDiffKey(AfterOf(w, cov), DiffKey(f)) <==> MatchedInPresent(w, cov, f)
  {
    hide InBase, InPresent, BeforeOf, AfterOf, DiffKey, Match;
    forall g
      ensures DiffKey(g) == Match(g)
      ensures g in BeforeOf(w, cov) <==> InBase(w, cov, g)
      ensures g in AfterOf(w, cov) <==> InPresent(w, cov, g)
    {
      IdentitiesExactly(g);
      IssuesExactly(w, cov, g);
    }
  }

  lemma NewExactly(w: Window, cov: Coverage, key: string)
    ensures key in RowNew(w, cov) <==> IsNew(w, cov, key)
    ensures key in RowResurfaced(w, cov) <==> IsBack(w, cov, key)
  {
    hide InPresent, AfterOf, BeforeOf, HasDiffKey, DiffKey, Match, ProgressKey, Issue, OpenEvidence, IsOpen,
        BaselineOpen, SeenEarly, OpenThen, ShownThen, MatchedInBase;
    KnownExactly(w, key);
    ShownThenExactly(w, key);
    forall f
      ensures ProgressKey(f) == Issue(f) && OpenEvidence(f) == IsOpen(f)
      ensures f in AfterOf(w, cov) <==> InPresent(w, cov, f)
      ensures HasDiffKey(BeforeOf(w, cov), DiffKey(f)) <==> MatchedInBase(w, cov, f)
    {
      IdentitiesExactly(f);
      IssuesExactly(w, cov, f);
      MatchedExactly(w, cov, f);
    }
  }

  lemma FixedExactly(w: Window, cov: Coverage, key: string)
    ensures key in RowResolved(w, cov) <==> IsFixed(w, cov, key)
  {
    hide InBase, AfterOf, BeforeOf, HasDiffKey, DiffKey, Match, ProgressKey, Issue, OpenEvidence, IsOpen,
        CurrentKeys, Unverified, EvidentNow, Unchecked, MatchedInPresent;
    KnownExactly(w, key);
    forall f
      ensures ProgressKey(f) == Issue(f) && OpenEvidence(f) == IsOpen(f) && DiffKey(f) == Match(f)
      ensures f in BeforeOf(w, cov) <==> InBase(w, cov, f)
      ensures HasDiffKey(AfterOf(w, cov), DiffKey(f)) <==> MatchedInPresent(w, cov, f)
    {
      IdentitiesExactly(f);
      IssuesExactly(w, cov, f);
      MatchedExactly(w, cov, f);
    }
  }

  lemma HiddenExactly(w: Window, cov: Coverage, key: string)
    ensures key in RowSuppressed(w, cov) <==> IsHidden(w, cov, key)
  {
    hide InBase, InPresent, AfterOf, BeforeOf, ProgressKey, Issue, OpenEvidence, IsOpen;
    forall f
      ensures ProgressKey(f) == Issue(f) && OpenEvidence(f) == IsOpen(f)
      ensures f in BeforeOf(w, cov) <==> InBase(w, cov, f)
      ensures f in AfterOf(w, cov) <==> InPresent(w, cov, f)
    {
      IdentitiesExactly(f);
      IssuesExactly(w, cov, f);
    }
  }

  /** A key is reported exactly when some compared row brings it. */
  lemma {:induction false} ReportExactly(w: Window, rows: seq<Coverage>, key: string)
    ensures key in ReportKeys(w, rows).added <==>
      exists cov, cur, base :: cov in rows && Compares(w, cov, cur, base) && IsNew(w, cov, key)
    ensures key in ReportKeys(w, rows).resurfaced <==>
      exists cov, cur, base :: cov in rows && Compares(w, cov, cur, base) && IsBack(w, cov, key)
    ensures key in ReportKeys(w, rows).resolved <==>
      exists cov, cur, base :: cov in rows && Compares(w, cov, cur, base) && IsFixed(w, cov, key)
    ensures key in ReportKeys(w, rows).suppressed <==>
      exists cov, cur, base :: cov in rows && Compares(w, cov, cur, base) && IsHidden(w, cov, key)
  {
    hide Compared, Compares, RowNew, RowResurfaced, RowResolved, RowSuppressed, IsNew, IsBack, IsFixed, IsHidden;
    if rows != [] {
      var front, last := rows[..|rows| - 1], rows[|rows| - 1];
      ReportExactly(w, front, key);
      assert forall cov :: cov in rows <==> cov in front || cov == last;
      ComparedExactly(w, last);
      NewExactly(w, last, key);
      FixedExactly(w, last, key);
      HiddenExactly(w, last, key);
    }
  }

  /** The row's base is the one its report names; it names none exactly when there is none. */
  ghost predicate NamesBase(w: Window, cov: Coverage, id: string)
  {
    || (exists base :: HasBase(w, cov, base) && base.id == id)
    || (id == "" && forall base :: !HasBase(w, cov, base))
  }

  /** What each row of the report says: its scans, whether it compares, and how many keys it brings. */
  lemma RowExactly(w: Window, rows: seq<Row>, i: nat)
    requires Explained(w, rows) && i < |rows| && Counted(w, rows, |rows|)
    ensures var cov, row := w.coverage[i], rows[i];
      && row.scanId == cov.scanId && NamesBase(w, cov, row.baselineId)
      && (row.reason == Comparable <==> exists cur, base :: Compares(w, cov, cur, base))
      && (row.reason == Comparable ==>
            row.added == |RowNew(w, cov)| && row.resurfaced == |RowResurfaced(w, cov)|
            && row.resolved == |RowResolved(w, cov)| && row.suppressed == |RowSuppressed(w, cov)|)
      && (row.reason != Comparable ==> row.added + row.resurfaced + row.resolved + row.suppressed == 0)
  {
    hide Compares, HasBase, RowNew, RowResurfaced, RowResolved, RowSuppressed, ReasonFor, BaselineOf;
    var cov := w.coverage[i];
    assert IsRow(w, cov, rows[i]);
    assert HasCounts(rows[i], if Compared(w, cov) then RowKeys(w, cov) else NO_KEYS);
    ComparedExactly(w, cov);
    forall base
      ensures BaselineOf(w, cov) == Some(base) <==> HasBase(w, cov, base)
    {
      BaseExactly(w, cov, base);
    }
  }

  /** No issue of which there is present evidence, on whatever branch, is reported as resolved. */
  lemma CurrentIsNotResolved(w: Window, rows: seq<Coverage>, f: Finding)
    requires FleetChains.Current(w.source, w.scans, w.now, f)
    ensures ProgressKey(f) !in ReportKeys(w, rows).resolved
  {
    hide FleetChains.Current, IsEvidence, ReportKeys, Compares, Issue, ProgressKey;
    ReportExactly(w, rows, ProgressKey(f));
    EvidenceIs(w, w.now, f);
    assert EvidentNow(w, Issue(f));
  }

  // ---------- Open locations week over week ----------

  ghost predicate OpenInBase(w: Window, cov: Coverage, f: Finding)
  {
    exists cur, base :: Compares(w, cov, cur, base) && f in RowsOf(w.source, base.id) && IsOpen(f)
  }

  ghost predicate OpenInPresent(w: Window, cov: Coverage, f: Finding)
  {
    exists cur, base :: Compares(w, cov, cur, base) && f in RowsOf(w.source, cov.scanId) && IsOpen(f)
  }

  /** The week-over-week numbers are taken over the open rows of the compared branches' two scans. */
  lemma LocationsExactly(w: Window, f: Finding)
    ensures f in LocationsBefore(w) <==> exists cov :: cov in w.coverage && OpenInBase(w, cov, f)
    ensures f in LocationsAfter(w) <==> exists cov :: cov in w.coverage && OpenInPresent(w, cov, f)
  {
    hide Compared, Compares, BaselineOf;
    forall cov
      ensures IsBefore(w, cov, f) <==> OpenInBase(w, cov, f)
      ensures IsAfter(w, cov, f) <==> OpenInPresent(w, cov, f)
    {
      ComparedExactly(w, cov);
    }
    hide IsBefore, IsAfter, OpenInBase, OpenInPresent;
    if f in LocationsBefore(w) {
      var cov :| cov in w.coverage && IsBefore(w, cov, f);
    }
    if cov :| cov in w.coverage && OpenInBase(w, cov, f) {
      BeforeIsListed(w, cov, f);
    }
    if cov :| cov in w.coverage && OpenInPresent(w, cov, f) {
      AfterIsListed(w, cov, f);
    }
  }

  /** For each of the five severities, the locations open now less those open in the bases. */
  lemma DeltaExactly(w: Window, delta: map<string, int>, severity: string)
    requires IsDelta(w, delta)
    ensures severity in delta <==> severity in {"critical", "high", "medium", "low", "info"}
    ensures severity in delta ==>
      delta[severity] == FleetTrends.CountOf(FleetTrends.Deduplicated(LocationsAfter(w)), severity)
                       - FleetTrends.CountOf(FleetTrends.Deduplicated(LocationsBefore(w)), severity)
  {
  }

  lemma BeforeIsListed(w: Window, cov: Coverage, f: Finding)
    requires cov in w.coverage && IsBefore(w, cov, f)
    ensures f in LocationsBefore(w)
  {
  }

  lemma AfterIsListed(w: Window, cov: Coverage, f: Finding)
    requires cov in w.coverage && IsAfter(w, cov, f)
    ensures f in LocationsAfter(w)
  {
  }
}
