/** Deduplication and the trend series in columns: what is kept, shown and counted. */
module TrendStatements {
  import opened Wrappers
  import opened Text
  import opened FleetModel
  import opened FleetHistory
  import opened FleetTrends
  import opened FleetStatements
  import FleetChains

  // ---------- Deduplication ----------

  /** The severer finding, of equals the later created, of those the one with the smaller id. */
  predicate Beats(f: Finding, g: Finding)
  {
    if SeverityRank(f.severity) != SeverityRank(g.severity) then SeverityRank(f.severity) > SeverityRank(g.severity)
    else if f.createdAt != g.createdAt then f.createdAt > g.createdAt
    else Less(f.id, g.id)
  }

  /** The findings lie at one place of one repository, as far as their texts tell. */
  predicate SamePlace(f: Finding, g: Finding)
  {
    f.repoId + "\0" + Place(f) == g.repoId + "\0" + Place(g)
  }

  /** Kept are the findings that none of the same place beats. */
  lemma BestExactly(findings: set<Finding>, f: Finding)
    ensures f in Deduplicated(findings) <==>
      f in findings && forall g :: g in findings && SamePlace(g, f) ==> !Beats(g, f)
  {
    hide Place, FindingIdent, SeverityRank, Less;
    forall g
      ensures FindingIdent(g) == Place(g)
    {
      IdentitiesExactly(g);
    }
  }

  // ---------- Counting ----------

  /** Each finding counts once, under the lower-case form of its severity. */
  lemma {:induction false} CountExactly(findings: set<Finding>, f: Finding, severity: string)
    ensures CountOf({}, severity) == 0
    ensures f !in findings ==>
      CountOf(findings + {f}, severity)
        == CountOf(findings, severity) + if ToLower(f.severity) == severity then 1 else 0
    ensures f in Having(findings, {severity}) <==> f in findings && ToLower(f.severity) == severity
  {
    hide ToLower;
    NothingCounts(severity);
    if f !in findings {
      CountOneMore(findings, f, severity);
    }
  }

  lemma NothingCounts(severity: string)
    ensures CountOf({}, severity) == 0
  {
    var counted := set f: Finding | f in {} && ToLower(f.severity) == severity;
    assert counted == {};
  }

  // ---------- Days ----------

  /**
   The series starts at the day of the first scan, or 89 days before today when that is later: at a
   midnight, not after both and not before either.
  */
  lemma StartExactly(scans: seq<Scan>, now: int)
    requires scans != []
    ensures var start := StartDay(scans, now);
      && start % Days(1) == 0
      && Time(scans[0]) < start + Days(1) && now < start + Days(90)
      && (start <= Time(scans[0]) || start + Days(89) <= now)
  {
    ScansExactly(scans[0]);
  }

  /** A day is counted at its last nanosecond, and the next one starts there. */
  lemma EndExactly(start: int, i: nat)
    ensures DayEnd(start, 0) == start + Days(1) - 1 && DayEnd(start, i + 1) - DayEnd(start, i) == Days(1)
  {
  }

  /** The branch's last scan seen by the time. */
  predicate LatestSeen(scans: seq<Scan>, at: int, key: string, s: Scan, i: nat)
  {
    && i < |scans| && scans[i] == s && Seen(s, at, key)
    && forall k :: i < k < |scans| ==> !Seen(scans[k], at, key)
  }

  ghost predicate IsLatestSeen(scans: seq<Scan>, at: int, key: string, s: Scan)
  {
    exists i :: LatestSeen(scans, at, key, s, i)
  }

  lemma {:induction false} LatestExactly(scans: seq<Scan>, at: int, key: string, s: Scan)
    ensures LastObserved(scans, at, key) == Some(s) <==> IsLatestSeen(scans, at, key, s)
  {
    hide Time, BranchOf;
    if scans != [] {
      var front, last := scans[..|scans| - 1], scans[|scans| - 1];
      LatestExactly(front, at, key, s);
      ScansExactly(last);
      assert scans == front + [last];
      LatestAfter(front, last, at, key, s);
      hide IsLatestSeen;
    }
  }

  lemma LatestAfter(front: seq<Scan>, last: Scan, at: int, key: string, s: Scan)
    ensures IsLatestSeen(front + [last], at, key, s) <==>
      if Seen(last, at, key) then s == last else IsLatestSeen(front, at, key, s)
  {
    hide Seen;
    var scans := front + [last];
    assert scans[|front|] == last && forall i :: 0 <= i < |front| ==> front[i] == scans[i];
    if Seen(last, at, key) {
      assert LatestSeen(scans, at, key, last, |front|);
    } else {
      forall i: nat
        ensures LatestSeen(scans, at, key, s, i) <==> LatestSeen(front, at, key, s, i)
      {
      }
    }
  }

  /** What a day counts: repositories seen, branches whose last scan is incomplete, open surviving rows. */
  lemma DayExactly(source: map<string, seq<Finding>>, scans: seq<Scan>, at: int, text: string, f: Finding)
    ensures text in ReposAt(scans, at) <==> exists s :: s in scans && s.repoId == text && Time(s) <= at
    ensures text in IncompleteAt(scans, at) <==> exists s :: IsLatestSeen(scans, at, text, s) && !s.complete
    ensures f in OpenAt(source, scans, at) <==> IsEvidence(source, scans, at, f) && IsOpen(f)
  {
    hide IsEvidence, Time, BranchOf, FleetChains.Current, AllRows, IsLatestSeen, LastObserved;
    forall s
      ensures ObservedAt(s) == Time(s) && BranchKey(s) == BranchOf(s)
      ensures LastObserved(scans, at, text) == Some(s) <==> IsLatestSeen(scans, at, text, s)
    {
      ScansExactly(s);
      LatestExactly(scans, at, text, s);
    }
    if s :| IsLatestSeen(scans, at, text, s) {
      LatestIsBranch(scans, at, text, s);
    }
    IdentitiesExactly(f);
    FleetStatements.EvidenceExactly(source, scans, at, f);
    if FleetChains.Current(source, scans, at, f) {
      CurrentIsRow(source, scans, at, f);
    }
  }

  lemma LatestIsBranch(scans: seq<Scan>, at: int, key: string, s: Scan)
    requires IsLatestSeen(scans, at, key, s)
    ensures key in BranchesAt(scans, at)
  {
    ScansExactly(s);
    assert s in scans;
  }

  /** What an entry of the series says: the five counts, their sum, and the two numbers of the day. */
  lemma EntryExactly(entry: Entry, source: map<string, seq<Finding>>, scans: seq<Scan>, at: int, severity: string)
    requires IsEntry(entry, source, scans, at)
    ensures entry.at == at
    ensures severity in entry.counts <==> severity in {"critical", "high", "medium", "low", "info"}
    ensures var best := Deduplicated(OpenAt(source, scans, at));
      && (severity in entry.counts ==> entry.counts[severity] == CountOf(best, severity))
      && entry.total == CountOf(best, "critical") + CountOf(best, "high") + CountOf(best, "medium")
                      + CountOf(best, "low") + CountOf(best, "info")
    ensures entry.repos == |ReposAt(scans, at)| && entry.incomplete == |IncompleteAt(scans, at)|
  {
    hide CountOf, Having, Deduplicated, OpenAt, ReposAt, IncompleteAt;
    var best := Deduplicated(OpenAt(source, scans, at));
    NoneHaving(best);
    OneMoreSeverity(best, {}, "critical");
    OneMoreSeverity(best, {"critical"}, "high");
    OneMoreSeverity(best, {"critical", "high"}, "medium");
    OneMoreSeverity(best, {"critical", "high", "medium"}, "low");
    OneMoreSeverity(best, {"critical", "high", "medium", "low"}, "info");
    assert {} + {"critical"} == {"critical"} && {"critical"} + {"high"} == {"critical", "high"};
    assert {"critical", "high"} + {"medium"} == {"critical", "high", "medium"};
    assert {"critical", "high", "medium"} + {"low"} == {"critical", "high", "medium", "low"};
    assert {"critical", "high", "medium", "low"} + {"info"} == SEVERITIES;
  }
}
