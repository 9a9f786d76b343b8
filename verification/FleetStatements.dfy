/** Fleet evidence in columns: the issue of a row, the rows that survive, the history. */
module FleetStatements {
  import opened Wrappers
  import opened Text
  import opened FleetModel
  import opened FleetChains
  import opened FleetHistory

  /** The nanoseconds of n days. */
  function Days(n: int): int
  {
    n * 24 * 60 * 60 * 1_000_000_000
  }

  // ---------- Identities ----------

  /** When the scan completed, or was created if it never did. */
  function Time(s: Scan): int
  {
    match s.completedAt
    case Some(at) => at
    case None => s.createdAt
  }

  function BranchOf(s: Scan): string
  {
    s.repoId + "\0" + s.branch
  }

  /** Where the issue lies: the stored location, else tool, rule, path and line, else the row itself. */
  function Place(f: Finding): string
  {
    var location, stored := TrimSpace(f.locationFingerprint), TrimSpace(f.fingerprint);
    var tool, rule, path := TrimSpace(f.toolName), TrimSpace(f.ruleId), TrimSpace(f.filePath);
    if location != "" then location
    else if rule == "" && path == "" then (if stored == "" then f.id else stored)
    else ToLower(tool + "\0" + rule + "\0" + path + "\0" + Decimal(f.lineStart))
  }

  /** The issue of a row inside its repository. */
  function Issue(f: Finding): string
  {
    f.repoId + "\0"
      + if f.stableFingerprint != "" then f.stableFingerprint
        else if f.fingerprint != "" then f.fingerprint
        else Place(f)
  }

  /** What a row is matched by between two scans; empty when it cannot be matched. */
  function Match(f: Finding): string
  {
    if f.stableFingerprint == "" then if f.fingerprint == "" then f.builtKey else f.fingerprint
    else f.stableFingerprint
  }

  predicate IsOpen(f: Finding)
  {
    f.status == "open" && f.suppressed == false
  }

  lemma IdentitiesExactly(f: Finding)
    ensures FindingIdent(f) == Place(f) && ProgressKey(f) == Issue(f) && DiffKey(f) == Match(f)
    ensures OpenEvidence(f) == IsOpen(f)
  {
    hide TrimSpace, ToLower, Decimal;
  }

  lemma ScansExactly(s: Scan)
    ensures ObservedAt(s) == Time(s) && BranchKey(s) == BranchOf(s)
  {
  }

  /** The number a text of digits denotes. */
  function Number(digits: string): int
  {
    if digits == "" then 0
    else Number(digits[..|digits| - 1]) * 10 + (digits[|digits| - 1] as int - '0' as int)
  }

  lemma {:induction false} DigitsDenote(n: nat)
    ensures Number(Digits(n)) == n && Digits(n) != "" && (Digits(n)[0] == '0' ==> n == 0)
    ensures forall i :: 0 <= i < |Digits(n)| ==> '0' <= Digits(n)[i] <= '9'
  {
    if n >= 10 {
      DigitsDenote(n / 10);
      assert Digits(n)[..|Digits(n)| - 1] == Digits(n / 10);
    }
  }

  /** The decimal of a line number denotes it: other lines have other decimals. */
  lemma DecimalDenotes(n: int)
    ensures Decimal(n) != "" && n == if Decimal(n)[0] == '-' then -Number(Decimal(n)[1..]) else Number(Decimal(n))
  {
    hide Digits, Number;
    DigitsDenote(if n < 0 then -n else n);
    assert n < 0 ==> Decimal(n)[1..] == Digits(-n);
  }

  /** The severities in descending order; any other is below them all. */
  predicate Graded(severity: string, grade: int)
  {
    var s := ToLower(severity);
    && (s == "critical" <==> grade == 5)
    && (s == "high" <==> grade == 4)
    && (s == "medium" <==> grade == 3)
    && (s == "low" <==> grade == 2)
    && 1 <= grade <= 5
  }

  lemma RankExactly(severity: string)
    ensures Graded(severity, SeverityRank(severity))
    ensures forall grade :: Graded(severity, grade) ==> grade == SeverityRank(severity)
  {
    hide ToLower;
    assert |"critical"| == 8 && |"high"| == 4 && |"medium"| == 6 && |"low"| == 3;
  }

  // ---------- Evidence of a branch ----------

  function RowsOf(source: map<string, seq<Finding>>, scanId: string): seq<Finding>
  {
    if scanId !in source then [] else source[scanId]
  }

  predicate Seen(s: Scan, at: int, key: string)
  {
    Time(s) <= at && BranchOf(s) == key
  }

  /** The scan was seen and no complete one was seen after it. */
  predicate Stands(scans: seq<Scan>, at: int, key: string, i: nat)
  {
    && i < |scans| && Seen(scans[i], at, key)
    && forall k :: i < k < |scans| && Seen(scans[k], at, key) ==> !scans[k].complete
  }

  predicate HasPlace(rows: seq<Finding>, place: string)
  {
    exists l :: 0 <= l < |rows| && Place(rows[l]) == place
  }

  /** The finding is the last row of the place. */
  ghost predicate IsLast(rows: seq<Finding>, place: string, f: Finding)
  {
    exists j :: LastAt(rows, place, j) && rows[j] == f
  }

  predicate LastAt(rows: seq<Finding>, place: string, j: int)
  {
    && 0 <= j < |rows| && Place(rows[j]) == place
    && forall l :: j < l < |rows| ==> Place(rows[l]) != place
  }

  /** The finding is the last row of the place in a standing scan, and no later standing scan has the place. */
  ghost predicate Survives(source: map<string, seq<Finding>>, scans: seq<Scan>, at: int, key: string, place: string,
      f: Finding, i: nat)
  {
    && Stands(scans, at, key, i) && IsLast(RowsOf(source, scans[i].id), place, f)
    && forall k :: i < k < |scans| && Stands(scans, at, key, k) ==> !HasPlace(RowsOf(source, scans[k].id), place)
  }

  ghost predicate Holds(source: map<string, seq<Finding>>, scans: seq<Scan>, at: int, key: string, place: string,
      f: Finding)
  {
    exists i :: Survives(source, scans, at, key, place, f, i)
  }

  /** Exactly the surviving rows are the evidence of a branch, each under its place. */
  lemma {:induction false} ReplayExactly(source: map<string, seq<Finding>>, scans: seq<Scan>, at: int, key: string,
      place: string, f: Finding)
    ensures var evidence := Replay(source, scans, at, key);
      (place in evidence && evidence[place] == f) <==> Holds(source, scans, at, key, place, f)
  {
    hide Place, Holds, OverlayRows, BranchOf, Time, IsLast, HasPlace;
    if scans == [] {
      assert !Holds(source, [], at, key, place, f) by {
        NothingHolds(source, at, key, place, f);
      }
    } else {
      var front, s := scans[..|scans| - 1], scans[|scans| - 1];
      assert scans == front + [s];
      ReplayExactly(source, front, at, key, place, f);
      ScansExactly(s);
      HoldsAfter(source, front, s, at, key, place, f);
      OverlayExactly(if s.complete then map[] else Replay(source, front, at, key), Rows(source, s.id), place, f);
    }
  }

  lemma NothingHolds(source: map<string, seq<Finding>>, at: int, key: string, place: string, f: Finding)
    ensures !Holds(source, [], at, key, place, f)
  {
  }

  /** The last row of a place wins, and places without a row keep what was below. */
  lemma {:induction false} OverlayExactly(below: map<string, Finding>, rows: seq<Finding>, place: string, f: Finding)
    ensures var evidence := OverlayRows(below, rows);
      (place in evidence && evidence[place] == f) <==>
        IsLast(rows, place, f) || (!HasPlace(rows, place) && place in below && below[place] == f)
  {
    hide Place;
    if rows != [] {
      var last, front := |rows| - 1, rows[..|rows| - 1];
      OverlayExactly(below, front, place, f);
      IdentitiesExactly(rows[last]);
      assert rows == front + [rows[last]];
      LastAfter(front, rows[last], place, f);
      hide IsLast, HasPlace;
    }
  }

  lemma LastAfter(front: seq<Finding>, row: Finding, place: string, f: Finding)
    ensures HasPlace(front + [row], place) <==> Place(row) == place || HasPlace(front, place)
    ensures IsLast(front + [row], place, f) <==> if Place(row) == place then row == f else IsLast(front, place, f)
  {
    hide Place;
    var rows := front + [row];
    assert forall j :: 0 <= j < |front| ==> rows[j] == front[j];
    if Place(row) == place {
      assert Place(rows[|front|]) == place;
      assert forall j :: LastAt(rows, place, j) <==> j == |front|;
    } else {
      assert forall j :: LastAt(rows, place, j) <==> LastAt(front, place, j);
      if l :| 0 <= l < |front| && Place(front[l]) == place {
        assert Place(rows[l]) == place;
      }
    }
  }

  lemma StandsAfter(front: seq<Scan>, s: Scan, at: int, key: string, i: nat)
    ensures !Seen(s, at, key) ==> (Stands(front + [s], at, key, i) <==> Stands(front, at, key, i))
    ensures Seen(s, at, key) ==>
      (Stands(front + [s], at, key, i) <==> i == |front| || (!s.complete && Stands(front, at, key, i)))
  {
    hide Seen;
    var scans := front + [s];
    assert forall k :: 0 <= k < |front| ==> scans[k] == front[k];
    assert scans[|front|] == s;
  }

  lemma SurvivesAfter(source: map<string, seq<Finding>>, front: seq<Scan>, s: Scan, at: int, key: string,
      place: string, f: Finding, i: nat)
    ensures !Seen(s, at, key) ==>
      (Survives(source, front + [s], at, key, place, f, i) <==> Survives(source, front, at, key, place, f, i))
    ensures Seen(s, at, key) && i == |front| ==>
      (Survives(source, front + [s], at, key, place, f, i) <==> IsLast(RowsOf(source, s.id), place, f))
    ensures Seen(s, at, key) && i != |front| ==>
      (Survives(source, front + [s], at, key, place, f, i) <==>
       !HasPlace(RowsOf(source, s.id), place) && !s.complete && Survives(source, front, at, key, place, f, i))
  {
    hide Place, Seen, IsLast, HasPlace;
    var scans := front + [s];
    forall k: nat
      ensures !Seen(s, at, key) ==> (Stands(scans, at, key, k) <==> Stands(front, at, key, k))
      ensures Seen(s, at, key) ==>
        (Stands(scans, at, key, k) <==> k == |front| || (!s.complete && Stands(front, at, key, k)))
      ensures Stands(front, at, key, k) ==> k < |front|
    {
      StandsAfter(front, s, at, key, k);
    }
    hide Stands;
    assert forall k :: 0 <= k < |front| ==> scans[k] == front[k];
    assert scans[|front|] == s;
    if Seen(s, at, key) {
      assert Stands(scans, at, key, |front|);
    }
  }

  /** One more scan replaces the evidence of its branch, or adds to it. */
  lemma HoldsAfter(source: map<string, seq<Finding>>, front: seq<Scan>, s: Scan, at: int, key: string, place: string,
      f: Finding)
    ensures !Seen(s, at, key) ==>
      (Holds(source, front + [s], at, key, place, f) <==> Holds(source, front, at, key, place, f))
    ensures Seen(s, at, key) ==>
      (Holds(source, front + [s], at, key, place, f) <==>
       || IsLast(RowsOf(source, s.id), place, f)
       || (!HasPlace(RowsOf(source, s.id), place) && !s.complete && Holds(source, front, at, key, place, f)))
  {
    hide Seen, IsLast, HasPlace, Survives;
    forall i: nat
      ensures !Seen(s, at, key) ==>
        (Survives(source, front + [s], at, key, place, f, i) <==> Survives(source, front, at, key, place, f, i))
      ensures Seen(s, at, key) && i == |front| ==>
        (Survives(source, front + [s], at, key, place, f, i) <==> IsLast(RowsOf(source, s.id), place, f))
      ensures Seen(s, at, key) && i != |front| ==>
        (Survives(source, front + [s], at, key, place, f, i) <==>
         !HasPlace(RowsOf(source, s.id), place) && !s.complete && Survives(source, front, at, key, place, f, i))
      ensures Survives(source, front, at, key, place, f, i) ==> i < |front|
    {
      SurvivesAfter(source, front, s, at, key, place, f, i);
      SurvivesInside(source, front, at, key, place, f, i);
    }
    if Seen(s, at, key) {
      assert IsLast(RowsOf(source, s.id), place, f) ==> Survives(source, front + [s], at, key, place, f, |front|);
    }
  }

  lemma SurvivesInside(source: map<string, seq<Finding>>, scans: seq<Scan>, at: int, key: string, place: string,
      f: Finding, i: nat)
    ensures Survives(source, scans, at, key, place, f, i) ==> i < |scans|
  {
  }

  /** The finding survives on some branch. */
  ghost predicate IsEvidence(source: map<string, seq<Finding>>, scans: seq<Scan>, at: int, f: Finding)
  {
    exists i :: 0 <= i < |scans| && Survives(source, scans, at, BranchOf(scans[i]), Place(f), f, i)
  }

  /** Exactly the surviving rows of all branches are the current evidence. */
  lemma EvidenceExactly(source: map<string, seq<Finding>>, scans: seq<Scan>, at: int, f: Finding)
    ensures Current(source, scans, at, f) <==> IsEvidence(source, scans, at, f)
  {
    hide Place, Survives, Replay, BranchOf, HasBranch;
    if Current(source, scans, at, f) {
      var key :| HasBranch(scans, at, key) && f in Replay(source, scans, at, key).Values;
      var place :| place in Replay(source, scans, at, key) && Replay(source, scans, at, key)[place] == f;
      ReplayExactly(source, scans, at, key, place, f);
      var i :| Survives(source, scans, at, key, place, f, i);
      SurvivorIs(source, scans, at, key, place, f, i);
    }
    if i :| 0 <= i < |scans| && Survives(source, scans, at, BranchOf(scans[i]), Place(f), f, i) {
      ReplayExactly(source, scans, at, BranchOf(scans[i]), Place(f), f);
      SurvivorIs(source, scans, at, BranchOf(scans[i]), Place(f), f, i);
      assert f in Replay(source, scans, at, BranchOf(scans[i])).Values;
    }
  }

  lemma SurvivorIs(source: map<string, seq<Finding>>, scans: seq<Scan>, at: int, key: string, place: string,
      f: Finding, i: nat)
    requires Survives(source, scans, at, key, place, f, i)
    ensures i < |scans| && BranchOf(scans[i]) == key && Place(f) == place && HasBranch(scans, at, key)
    ensures f in RowsOf(source, scans[i].id) && Time(scans[i]) <= at
  {
    hide Place;
    ScansExactly(scans[i]);
    assert Observed(scans[i], at, key);
  }

  /** There is a chain for each branch seen, of the scans of the branch that stand. */
  lemma ChainsExactly(chains: map<string, seq<Scan>>, scans: seq<Scan>, at: int, key: string, s: Scan)
    requires AreChains(chains, scans, at)
    ensures key in chains <==> exists i :: 0 <= i < |scans| && Seen(scans[i], at, key)
    ensures key in chains ==> (s in chains[key] <==> exists i :: StandsThere(scans, at, key, s, i))
  {
    hide Seen, StandsThere, Chain, HasBranch;
    ChainExactly(scans, at, key, s);
  }

  predicate StandsThere(scans: seq<Scan>, at: int, key: string, s: Scan, i: nat)
  {
    Stands(scans, at, key, i) && scans[i] == s
  }

  /** The scans of a chain are those that stand. */
  lemma {:induction false} ChainExactly(scans: seq<Scan>, at: int, key: string, s: Scan)
    ensures s in Chain(scans, at, key) <==> exists i :: StandsThere(scans, at, key, s, i)
    ensures HasBranch(scans, at, key) <==> exists i :: 0 <= i < |scans| && Seen(scans[i], at, key)
  {
    hide Time, BranchOf, StandsThere;
    forall i | 0 <= i < |scans|
      ensures Observed(scans[i], at, key) <==> Seen(scans[i], at, key)
    {
      ScansExactly(scans[i]);
    }
    if scans == [] {
      NoneStands(at, key, s);
    } else {
      var front, last := scans[..|scans| - 1], scans[|scans| - 1];
      assert scans == front + [last];
      ChainExactly(front, at, key, s);
      ChainAfter(front, last, at, key, s);
    }
  }

  lemma NoneStands(at: int, key: string, s: Scan)
    ensures forall i :: !StandsThere([], at, key, s, i)
  {
  }

  lemma ChainAfter(front: seq<Scan>, last: Scan, at: int, key: string, s: Scan)
    requires s in Chain(front, at, key) <==> exists i :: StandsThere(front, at, key, s, i)
    ensures s in Chain(front + [last], at, key) <==> exists i :: StandsThere(front + [last], at, key, s, i)
  {
    hide Time, BranchOf, Stands;
    var scans := front + [last];
    assert scans[..|front|] == front && scans[|front|] == last;
    ScansExactly(last);
    forall i: nat
      ensures !Seen(last, at, key) ==> (StandsThere(scans, at, key, s, i) <==> StandsThere(front, at, key, s, i))
      ensures Seen(last, at, key) && i != |front| ==>
        (StandsThere(scans, at, key, s, i) <==> !last.complete && StandsThere(front, at, key, s, i))
      ensures Seen(last, at, key) && i == |front| ==> (StandsThere(scans, at, key, s, i) <==> s == last)
      ensures StandsThere(front, at, key, s, i) ==> i < |front|
    {
      StandsAfter(front, last, at, key, i);
      StandsInside(front, at, key, i);
    }
    hide StandsThere;
    assert Seen(last, at, key) ==> (StandsThere(scans, at, key, s, |front|) <==> s == last);
  }

  lemma StandsInside(scans: seq<Scan>, at: int, key: string, i: nat)
    ensures Stands(scans, at, key, i) ==> i < |scans|
  {
  }

  // ---------- History ----------

  /** The scan holds the row, and it is one of the issue. */
  predicate Shown(scans: seq<Scan>, source: map<string, seq<Finding>>, key: string, s: Scan, f: Finding)
  {
    s in scans && f in RowsOf(source, s.id) && Issue(f) == key
  }

  /** The history tells the earliest time the issue was shown, if it ever was. */
  lemma FirstSeenExactly(t: Tally, observed: map<string, int>, scans: seq<Scan>, source: map<string, seq<Finding>>,
      key: string)
    requires WellFormed(scans, source) && Times(observed, scans) && ReportsWhole(t, observed, scans, source, key)
    ensures key in t.first <==> exists s, f :: Shown(scans, source, key, s, f)
    ensures key in t.first ==> exists s, f :: Shown(scans, source, key, s, f) && Time(s) == t.first[key]
    ensures key in t.first ==> forall s, f :: Shown(scans, source, key, s, f) ==> t.first[key] <= Time(s)
  {
    hide Issue, Time, Shown, SeenIn, FlaggedIn, NotesOf, AllRows, WellFormed, Times, IsLatest;
    var notes := NotesOf(AllRows(scans, source));
    forall s, f | Shown(scans, source, key, s, f)
      ensures s.id in SeenIn(notes, key) && s.id in observed && observed[s.id] == Time(s)
    {
      ShownIsNoted(observed, scans, source, key, s, f);
    }
    if key in t.first {
      var id :| id in SeenIn(notes, key) && id in observed && observed[id] == t.first[key];
      var s, f := NotedIsShown(observed, scans, source, key, id, false);
      assert Time(s) == t.first[key];
    }
  }

  /** It tells the latest time a row of the issue was flagged, 0 when none was after that. */
  lemma ResurfacedExactly(t: Tally, observed: map<string, int>, scans: seq<Scan>, source: map<string, seq<Finding>>,
      key: string)
    requires WellFormed(scans, source) && Times(observed, scans) && ReportsWhole(t, observed, scans, source, key)
    ensures var latest := if key in t.resurfaced then t.resurfaced[key] else 0;
      && latest >= 0
      && (latest == 0 || exists s, f :: Shown(scans, source, key, s, f) && f.flagged && Time(s) == latest)
      && forall s, f :: Shown(scans, source, key, s, f) && f.flagged ==> Time(s) <= latest
  {
    hide Issue, Time, Shown, SeenIn, FlaggedIn, NotesOf, AllRows, WellFormed, Times, IsEarliest;
    var notes := NotesOf(AllRows(scans, source));
    forall s, f | Shown(scans, source, key, s, f) && f.flagged
      ensures s.id in FlaggedIn(notes, key) && s.id in observed && observed[s.id] == Time(s)
    {
      ShownIsNoted(observed, scans, source, key, s, f);
    }
    var latest := Resurfaced(t, key);
    if latest != 0 {
      var id :| id in FlaggedIn(notes, key) && id in observed && observed[id] == latest;
      var s, f := NotedIsShown(observed, scans, source, key, id, true);
      assert Time(s) == latest;
    }
  }

  lemma ShownIsNoted(observed: map<string, int>, scans: seq<Scan>, source: map<string, seq<Finding>>, key: string,
      s: Scan, f: Finding)
    requires WellFormed(scans, source) && Times(observed, scans) && Shown(scans, source, key, s, f)
    ensures s.id in SeenIn(NotesOf(AllRows(scans, source)), key)
    ensures f.flagged ==> s.id in FlaggedIn(NotesOf(AllRows(scans, source)), key)
    ensures s.id in observed && observed[s.id] == Time(s)
  {
    hide Issue;
    IdentitiesExactly(f);
    ScansExactly(s);
    hide Time, ProgressKey, ObservedAt;
    var i :| 0 <= i < |scans| && scans[i] == s;
    assert f in Rows(source, scans[i].id);
    assert f in AllRows(scans, source);
    assert NoteOf(f) in NotesOf(AllRows(scans, source));
  }

  lemma NotedIsShown(observed: map<string, int>, scans: seq<Scan>, source: map<string, seq<Finding>>, key: string,
      id: string, flagged: bool) returns (s: Scan, f: Finding)
    requires WellFormed(scans, source)
    requires id in if flagged then FlaggedIn(NotesOf(AllRows(scans, source)), key)
                   else SeenIn(NotesOf(AllRows(scans, source)), key)
    ensures Shown(scans, source, key, s, f) && s.id == id && (flagged ==> f.flagged)
  {
    hide Issue, Time, ProgressKey;
    var n :| n in NotesOf(AllRows(scans, source)) && n.key == key && n.scanId == id && (flagged ==> n.flagged);
    f :| f in AllRows(scans, source) && NoteOf(f) == n;
    s :| s in scans && f in Rows(source, s.id);
    IdentitiesExactly(f);
    var i :| 0 <= i < |scans| && scans[i] == s;
    assert f in Rows(source, scans[i].id);
  }
}
