/** First-seen and resurfaced times of issues, read by fingerprint in chunks instead of from the whole history. */
module FleetHistory {
  import opened Wrappers
  import opened Text
  import opened Tables
  import opened FleetModel
  import opened FleetChains

  const CHUNK := 2000

  // ---------- What a history reports ----------

  /** A scan observed the issue with this key, and whether a row of it was flagged resurfaced. */
  datatype Note = Note(scanId: string, key: string, flagged: bool)

  datatype Tally = Tally(first: map<string, int>, resurfaced: map<string, int>)

  function SeenIn(notes: set<Note>, key: string): set<string>
  {
    set n | n in notes && n.key == key :: n.scanId
  }

  function FlaggedIn(notes: set<Note>, key: string): set<string>
  {
    set n | n in notes && n.key == key && n.flagged :: n.scanId
  }

  /** A missing entry reads as the zero time. */
  function Resurfaced(t: Tally, key: string): int
  {
    if key in t.resurfaced then t.resurfaced[key] else 0
  }

  /** The earliest observation of the key, and the latest flagged one. */
  ghost predicate Reports(t: Tally, observed: map<string, int>, seen: set<string>, flagged: set<string>, key: string)
  {
    && (key in t.first <==> seen != {})
    && (key in t.first ==> IsEarliest(t.first[key], observed, seen))
    && IsLatest(Resurfaced(t, key), observed, flagged)
  }

  ghost predicate IsEarliest(at: int, observed: map<string, int>, seen: set<string>)
  {
    && (exists s :: s in seen && s in observed && observed[s] == at)
    && (forall s :: s in seen && s in observed ==> at <= observed[s])
  }

  ghost predicate IsLatest(at: int, observed: map<string, int>, flagged: set<string>)
  {
    && at >= 0 && (at == 0 || exists s :: s in flagged && s in observed && observed[s] == at)
    && (forall s :: s in flagged && s in observed ==> observed[s] <= at)
  }

  /** The observations determine what is reported. */
  lemma ReportsAreUnique(t: Tally, u: Tally, observed: map<string, int>, seen: set<string>, flagged: set<string>,
      key: string)
    requires Reports(t, observed, seen, flagged, key) && Reports(u, observed, seen, flagged, key)
    ensures key in t.first <==> key in u.first
    ensures key in t.first ==> t.first[key] == u.first[key]
    ensures Resurfaced(t, key) == Resurfaced(u, key)
  {
  }

  function Tallied(t: Tally, n: Note, at: int): Tally
  {
    Tally(if n.key !in t.first || at < t.first[n.key] then t.first[n.key := at] else t.first,
          if n.flagged && at > Resurfaced(t, n.key) then t.resurfaced[n.key := at] else t.resurfaced)
  }

  lemma TallyOne(t: Tally, observed: map<string, int>, notes: set<Note>, n: Note, key: string)
    requires n.scanId in observed && Reports(t, observed, SeenIn(notes, key), FlaggedIn(notes, key), key)
    ensures Reports(Tallied(t, n, observed[n.scanId]), observed, SeenIn(notes + {n}, key), FlaggedIn(notes + {n}, key),
      key)
  {
    assert SeenIn(notes + {n}, key) == SeenIn(notes, key) + if n.key == key then {n.scanId} else {};
    assert FlaggedIn(notes + {n}, key) == FlaggedIn(notes, key) + if n.key == key && n.flagged then {n.scanId} else {};
  }

  ghost predicate ReportsAll(t: Tally, observed: map<string, int>, notes: set<Note>)
  {
    forall key :: Reports(t, observed, SeenIn(notes, key), FlaggedIn(notes, key), key)
  }

  lemma TallyAll(t: Tally, observed: map<string, int>, notes: set<Note>, n: Note)
    requires n.scanId in observed && ReportsAll(t, observed, notes)
    ensures ReportsAll(Tallied(t, n, observed[n.scanId]), observed, notes + {n})
  {
    hide Tallied;
    forall key
      ensures Reports(Tallied(t, n, observed[n.scanId]), observed, SeenIn(notes + {n}, key),
        FlaggedIn(notes + {n}, key), key)
    {
      TallyOne(t, observed, notes, n, key);
    }
  }

  // ---------- The whole history ----------

  function NoteOf(f: Finding): Note
  {
    Note(f.scanId, ProgressKey(f), f.flagged)
  }

  /** Every finding row of every scan. */
  function AllRows(scans: seq<Scan>, source: map<string, seq<Finding>>): set<Finding>
  {
    set s, f | s in scans && f in Rows(source, s.id) :: f
  }

  /** Evidence is made of stored rows. */
  lemma {:induction false} OverlayAdds(below: map<string, Finding>, rows: seq<Finding>, f: Finding)
    requires f in OverlayRows(below, rows).Values
    ensures f in below.Values || f in rows
  {
    hide FindingIdent;
    if rows != [] {
      var rest := OverlayRows(below, rows[..|rows| - 1]);
      if f != rows[|rows| - 1] {
        var key :| key in OverlayRows(below, rows) && OverlayRows(below, rows)[key] == f;
        assert key in rest && rest[key] == f;
        OverlayAdds(below, rows[..|rows| - 1], f);
      }
    }
  }

  lemma {:induction false} ReplayAdds(source: map<string, seq<Finding>>, scans: seq<Scan>, at: int, key: string,
      f: Finding)
    requires f in Replay(source, scans, at, key).Values
    ensures f in AllRows(scans, source)
  {
    var front, s := scans[..|scans| - 1], scans[|scans| - 1];
    if Observed(s, at, key) {
      var below := if s.complete then map[] else Replay(source, front, at, key);
      OverlayAdds(below, Rows(source, s.id), f);
      if f in below.Values {
        ReplayAdds(source, front, at, key, f);
      }
    } else {
      ReplayAdds(source, front, at, key, f);
    }
    assert forall t :: t in front ==> t in scans;
  }

  lemma CurrentIsRow(source: map<string, seq<Finding>>, scans: seq<Scan>, at: int, f: Finding)
    requires Current(source, scans, at, f)
    ensures f in AllRows(scans, source)
  {
    var key :| HasBranch(scans, at, key) && f in Replay(source, scans, at, key).Values;
    ReplayAdds(source, scans, at, key, f);
  }

  function NotesOf(rows: set<Finding>): set<Note>
  {
    set f | f in rows :: NoteOf(f)
  }

  // ---------- The filtered history ----------

  function Print(f: Finding): string
  {
    Or(f.stableFingerprint, f.fingerprint)
  }

  /** stable_fingerprint IN chunk OR (stable_fingerprint = '' AND fingerprint IN chunk) */
  predicate Matches(f: Finding, chunk: set<string>)
  {
    f.stableFingerprint in chunk || (f.stableFingerprint == "" && f.fingerprint in chunk)
  }

  datatype Group = Group(scanId: string, repoId: string, stable: string, fingerprint: string)

  function GroupOf(f: Finding): Group
  {
    Group(f.scanId, f.repoId, f.stableFingerprint, f.fingerprint)
  }

  function GroupKey(g: Group): string
  {
    IdentKey(g.repoId, Or(g.stable, g.fingerprint))
  }

  /** The rows the queries for these fingerprints, and if wanted for the rows without any, bring in. */
  predicate Selected(f: Finding, parts: set<string>, byLocation: bool)
  {
    Matches(f, parts) || (byLocation && Print(f) == "")
  }

  predicate NulFree(s: string)
  {
    forall i :: 0 <= i < |s| ==> s[i] != '\0'
  }

  /** Repository ids hold no NUL, and no location identity equals a fingerprint. */
  ghost predicate Separated(rows: set<Finding>)
  {
    && (forall f :: f in rows ==> NulFree(f.repoId))
    && (forall f, g :: f in rows && g in rows && Print(f) == "" && Print(g) != "" ==>
      ProgressPart(f) != ProgressPart(g))
  }

  lemma {:induction false} KeySplits(repo: string, ident: string, repo': string, ident': string)
    requires NulFree(repo) && NulFree(repo') && IdentKey(repo, ident) == IdentKey(repo', ident')
    ensures repo == repo' && ident == ident'
  {
    var a, b := IdentKey(repo, ident), IdentKey(repo', ident');
    assert a[|repo|] == '\0' && b[|repo'|] == '\0';
    assert forall i :: 0 <= i < |repo| ==> a[i] == repo[i];
    assert forall i :: 0 <= i < |repo'| ==> b[i] == repo'[i];
    assert |repo| == |repo'|;
    assert repo == a[..|repo|] && repo' == b[..|repo'|];
    assert ident == a[|repo| + 1..] && ident' == b[|repo'| + 1..];
  }

  /** Rows of a wanted issue are always among those selected. */
  lemma WantedIsSelected(rows: set<Finding>, given: set<Finding>, parts: set<string>, byLocation: bool, g: Finding,
      f: Finding)
    requires Separated(rows + given) && g in given && f in rows && ProgressKey(f) == ProgressKey(g)
    requires Print(g) != "" ==> Print(g) in parts
    requires Print(g) == "" ==> byLocation
    ensures Selected(f, parts, byLocation)
  {
    assert f in rows + given && g in rows + given;
    KeySplits(f.repoId, ProgressPart(f), g.repoId, ProgressPart(g));
  }

  // ---------- The methods ----------

  class History {
    const scans: seq<Scan>
    const source: map<string, seq<Finding>>

    constructor (scans: seq<Scan>, source: map<string, seq<Finding>>)
      ensures this.scans == scans && this.source == source
    {
      this.scans, this.source := scans, source;
    }

    method ObservedTimes() returns (observed: map<string, int>)
      requires WellFormed(scans, source)
      ensures Times(observed, scans)
    {
      observed := map[];
      for i := 0 to |scans|
        invariant Times(observed, scans[..i])
      {
        assert scans[..i + 1] == scans[..i] + [scans[i]];
        assert forall s :: s in scans[..i] ==> s.id != scans[i].id;
        observed := observed[scans[i].id := ObservedAt(scans[i])];
      }
      assert scans[..|scans|] == scans;
    }

    /** Every finding of every scan. */
    method ReadWhole() returns (t: Tally, observed: map<string, int>)
      requires WellFormed(scans, source)
      ensures Times(observed, scans)
      ensures ReportsAll(t, observed, NotesOf(AllRows(scans, source)))
    {
      hide ReportsAll, NotesOf, NotesIn, AllRows, Times;
      observed := ObservedTimes();
      t := Tally(map[], map[]);
      NothingReported(observed);
      ghost var noted: set<Note> := {};
      NoRows(source);
      for i := 0 to |scans|
        invariant ReportsAll(t, observed, noted) && noted == NotesOf(AllRows(scans[..i], source))
      {
        var rows := Rows(source, scans[i].id);
        assert scans[..i + 1] == scans[..i] + [scans[i]];
        RowsGrow(scans[..i], source, scans[i]);
        ScanRowsKnown(scans, source, observed, i);
        t, noted := TallyRows(rows, t, observed, noted);
      }
      assert scans[..|scans|] == scans;
    }

    /** SELECT ... WHERE fingerprints match GROUP BY scan, repository and fingerprints. */
    method QueryChunk(chunk: set<string>) returns (groups: map<Group, bool>)
      ensures Grouped(groups, MatchingRows(scans, source, chunk))
    {
      hide Grouped, MatchingRows, MatchingIn;
      groups := map[];
      NoMatches(source, chunk);
      for i := 0 to |scans|
        invariant Grouped(groups, MatchingRows(scans[..i], source, chunk))
      {
        assert scans[..i + 1] == scans[..i] + [scans[i]];
        MatchingGrow(scans[..i], source, chunk, scans[i]);
        groups := GroupRows(groups, Rows(source, scans[i].id), chunk, MatchingRows(scans[..i], source, chunk));
      }
      assert scans[..|scans|] == scans;
    }

    static method GroupRows(start: map<Group, bool>, rows: seq<Finding>, chunk: set<string>, ghost done: set<Finding>)
      returns (groups: map<Group, bool>)
      requires Grouped(start, done)
      ensures Grouped(groups, done + MatchingIn(rows, chunk))
    {
      hide Grouped;
      groups := start;
      assert done + MatchingIn([], chunk) == done;
      for j := 0 to |rows|
        invariant Grouped(groups, done + MatchingIn(rows[..j], chunk))
      {
        var f := rows[j];
        assert rows[..j + 1] == rows[..j] + [f];
        ghost var before := done + MatchingIn(rows[..j], chunk);
        if Matches(f, chunk) {
          GroupedAdd(groups, before, f);
          groups := groups[GroupOf(f) := f.flagged || (GroupOf(f) in groups && groups[GroupOf(f)])];
          assert done + MatchingIn(rows[..j + 1], chunk) == before + {f};
        } else {
          assert MatchingIn(rows[..j + 1], chunk) == MatchingIn(rows[..j], chunk);
        }
      }
      assert rows[..|rows|] == rows;
    }

    /** SELECT ... WHERE neither fingerprint is stored. */
    method QueryLocations() returns (rows: seq<Finding>)
      ensures forall f :: f in rows <==> f in AllRows(scans, source) && Print(f) == ""
    {
      rows := [];
      for i := 0 to |scans|
        invariant forall f :: f in rows <==> f in AllRows(scans[..i], source) && Print(f) == ""
      {
        assert scans[..i + 1] == scans[..i] + [scans[i]];
        var all := Rows(source, scans[i].id);
        ghost var earlier := rows;
        for j := 0 to |all|
          invariant forall f :: f in rows <==> f in earlier || (f in all[..j] && Print(f) == "")
        {
          assert all[..j + 1] == all[..j] + [all[j]];
          if all[j].stableFingerprint == "" && all[j].fingerprint == "" {
            rows := rows + [all[j]];
          }
        }
        assert all[..|all|] == all;
        assert forall f :: f in AllRows(scans[..i + 1], source) <==> f in AllRows(scans[..i], source) || f in all;
      }
      assert scans[..|scans|] == scans;
    }

    /** For the key of each given finding, what reading every finding of every scan would report. */
    method Read(given: seq<Finding>) returns (t: Tally, observed: map<string, int>)
      requires WellFormed(scans, source) && Separated(AllRows(scans, source) + set f | f in given)
      ensures Times(observed, scans)
      ensures forall g :: g in given ==> ReportsWhole(t, observed, scans, source, ProgressKey(g))
    {
      hide Tallied, Separated, ReportsAll, ReportsWhole, NotesOf, AllRows, Selected, WellFormed, Times;
      observed := ObservedTimes();
      t := Tally(map[], map[]);
      if given == [] {
        return;
      }
      NothingReported(observed);
      ghost var noted: set<Note> := {};
      var parts, byLocation := PartsOf(given);
      var lo := 0;
      ghost var queried: set<string> := {};
      NothingNoted(AllRows(scans, source));
      while lo < |parts|
        invariant 0 <= lo <= |parts| && queried == (set p | p in parts[..lo]) && "" !in queried
        invariant ReportsAll(t, observed, noted) && Covers(noted, AllRows(scans, source), queried, false)
      {
        var hi := if lo + CHUNK < |parts| then lo + CHUNK else |parts|;
        var chunk := set p | p in parts[lo..hi];
        assert parts[..hi] == parts[..lo] + parts[lo..hi];
        assert forall p :: p in chunk ==> p in parts;
        var groups := QueryChunk(chunk);
        GroupScanKnown(groups, scans, source, observed, chunk);
        ghost var before := noted;
        t, noted := TallyGroups(groups, t, observed, noted);
        CoversMore(before, noted, AllRows(scans, source), queried, chunk, groups);
        queried := queried + chunk;
        lo := hi;
      }
      assert parts[..|parts|] == parts;
      if byLocation {
        var rows := QueryLocations();
        forall f | f in rows
          ensures f.scanId in observed
        {
          RowScanKnown(scans, source, observed, f);
        }
        ghost var before := noted;
        t, noted := TallyRows(rows, t, observed, noted);
        CoversLocations(before, noted, AllRows(scans, source), queried, rows);
      }
      forall g | g in given
        ensures ReportsWhole(t, observed, scans, source, ProgressKey(g))
      {
        assert Print(g) in PrintsOf(given);
        WantedReported(t, observed, noted, scans, source, (set f | f in given), queried, byLocation, g);
      }
    }

    /** The distinct fingerprints of the findings in ascending order, and whether one of them has none. */
    static method PartsOf(given: seq<Finding>) returns (parts: seq<string>, byLocation: bool)
      ensures forall p :: p in parts <==> p in PrintsOf(given) && p != ""
      ensures byLocation <==> "" in PrintsOf(given)
    {
      hide PrintsOf;
      var found: set<string> := {};
      byLocation := false;
      NoPrints();
      for i := 0 to |given|
        invariant found == PrintsOf(given[..i]) - {""} && (byLocation <==> "" in PrintsOf(given[..i]))
      {
        assert given[..i + 1] == given[..i] + [given[i]];
        PrintsGrow(given[..i], given[i]);
        var part := Or(given[i].stableFingerprint, given[i].fingerprint);
        if part != "" {
          found := found + {part};
        } else {
          byLocation := true;
        }
      }
      assert given[..|given|] == given;
      parts := SelectOrdered(found);
      AscendingIsSorted(found);
    }

    static method TallyGroups(groups: map<Group, bool>, start: Tally, observed: map<string, int>,
        ghost noted: set<Note>)
      returns (t: Tally, ghost all: set<Note>)
      requires ReportsAll(start, observed, noted) && forall g :: g in groups ==> g.scanId in observed
      ensures all == noted + GroupNotes(groups, groups.Keys) && ReportsAll(t, observed, all)
    {
      hide Tallied, ReportsAll, GroupNotes, GroupKey;
      var todo := groups.Keys;
      t, all := start, noted;
      NoGroups(groups);
      while todo != {}
        invariant todo <= groups.Keys && ReportsAll(t, observed, all)
        invariant all == noted + GroupNotes(groups, groups.Keys - todo)
        decreases todo
      {
        var g :| g in todo;
        var n := Note(g.scanId, GroupKey(g), groups[g]);
        TallyAll(t, observed, all, n);
        GroupsGrow(groups, groups.Keys - todo, g);
        t, all := Tallied(t, n, observed[g.scanId]), all + {n};
        assert groups.Keys - (todo - {g}) == (groups.Keys - todo) + {g};
        todo := todo - {g};
      }
      assert groups.Keys - {} == groups.Keys;
    }

    static method TallyRows(rows: seq<Finding>, start: Tally, observed: map<string, int>, ghost noted: set<Note>)
      returns (t: Tally, ghost all: set<Note>)
      requires ReportsAll(start, observed, noted) && forall f :: f in rows ==> f.scanId in observed
      ensures all == noted + NotesIn(rows) && ReportsAll(t, observed, all)
    {
      hide Tallied, ReportsAll, NotesIn;
      t, all := start, noted;
      NoNotes();
      for i := 0 to |rows|
        invariant ReportsAll(t, observed, all) && all == noted + NotesIn(rows[..i])
      {
        assert rows[..i + 1] == rows[..i] + [rows[i]];
        NotesGrow(rows[..i], rows[i]);
        assert rows[i] in rows;
        TallyAll(t, observed, all, NoteOf(rows[i]));
        t, all := Tallied(t, NoteOf(rows[i]), observed[rows[i].scanId]), all + {NoteOf(rows[i])};
      }
      assert rows[..|rows|] == rows;
    }
  }

  // ---------- Lemmas of the methods ----------

  ghost predicate Times(observed: map<string, int>, scans: seq<Scan>)
  {
    && (forall s :: s in scans ==> s.id in observed && observed[s.id] == ObservedAt(s))
    && (forall id :: id in observed ==> exists s :: s in scans && s.id == id)
  }

  lemma NothingReported(observed: map<string, int>)
    ensures ReportsAll(Tally(map[], map[]), observed, {})
  {
  }

  function NotesIn(rows: seq<Finding>): set<Note>
  {
    set f | f in rows :: NoteOf(f)
  }

  lemma NoNotes()
    ensures NotesIn([]) == {}
  {
  }

  lemma NotesGrow(rows: seq<Finding>, f: Finding)
    ensures NotesIn(rows + [f]) == NotesIn(rows) + {NoteOf(f)}
  {
    hide NoteOf;
  }

  lemma NoRows(source: map<string, seq<Finding>>)
    ensures NotesOf(AllRows([], source)) == {}
  {
  }

  lemma RowsGrow(scans: seq<Scan>, source: map<string, seq<Finding>>, s: Scan)
    ensures NotesOf(AllRows(scans + [s], source)) == NotesOf(AllRows(scans, source)) + NotesIn(Rows(source, s.id))
  {
    hide NoteOf;
    var rows := set f | f in Rows(source, s.id);
    assert AllRows(scans + [s], source) == AllRows(scans, source) + rows by {
      assert forall t :: t in scans + [s] <==> t in scans || t == s;
    }
    assert NotesOf(AllRows(scans, source) + rows) == NotesOf(AllRows(scans, source)) + NotesOf(rows);
  }

  lemma ScanRowsKnown(scans: seq<Scan>, source: map<string, seq<Finding>>, observed: map<string, int>, i: nat)
    requires WellFormed(scans, source) && Times(observed, scans) && i < |scans|
    ensures forall f :: f in Rows(source, scans[i].id) ==> f.scanId in observed
  {
  }

  function PrintsOf(given: seq<Finding>): set<string>
  {
    set g | g in given :: Print(g)
  }

  lemma NoPrints()
    ensures PrintsOf([]) == {}
  {
  }

  lemma PrintsGrow(given: seq<Finding>, g: Finding)
    ensures PrintsOf(given + [g]) == PrintsOf(given) + {Print(g)}
  {
    hide Print;
  }

  lemma RowScanKnown(scans: seq<Scan>, source: map<string, seq<Finding>>, observed: map<string, int>, f: Finding)
    requires WellFormed(scans, source) && Times(observed, scans) && f in AllRows(scans, source)
    ensures f.scanId in observed
  {
    var s :| s in scans && f in Rows(source, s.id);
    var i :| 0 <= i < |scans| && scans[i] == s;
  }

  /** The groups are those of the rows, each flagged when one of its rows is. */
  ghost predicate Grouped(groups: map<Group, bool>, rows: set<Finding>)
  {
    && (forall f :: f in rows ==> GroupOf(f) in groups && (f.flagged ==> groups[GroupOf(f)]))
    && (forall g :: g in groups ==> exists f :: f in rows && GroupOf(f) == g && (groups[g] ==> f.flagged))
  }

  lemma GroupedAdd(groups: map<Group, bool>, rows: set<Finding>, f: Finding)
    requires Grouped(groups, rows)
    ensures Grouped(groups[GroupOf(f) := f.flagged || (GroupOf(f) in groups && groups[GroupOf(f)])], rows + {f})
  {
    var after := groups[GroupOf(f) := f.flagged || (GroupOf(f) in groups && groups[GroupOf(f)])];
    forall g | g in after
      ensures exists r :: r in rows + {f} && GroupOf(r) == g && (after[g] ==> r.flagged)
    {
      if g in groups {
        var r :| r in rows && GroupOf(r) == g && (groups[g] ==> r.flagged);
        assert r in rows + {f};
      }
      assert f in rows + {f};
    }
  }

  function MatchingIn(rows: seq<Finding>, chunk: set<string>): set<Finding>
  {
    set f | f in rows && Matches(f, chunk)
  }

  function MatchingRows(scans: seq<Scan>, source: map<string, seq<Finding>>, chunk: set<string>): set<Finding>
  {
    set f | f in AllRows(scans, source) && Matches(f, chunk)
  }

  lemma NoMatches(source: map<string, seq<Finding>>, chunk: set<string>)
    ensures Grouped(map[], MatchingRows([], source, chunk))
  {
  }

  lemma MatchingGrow(scans: seq<Scan>, source: map<string, seq<Finding>>, chunk: set<string>, s: Scan)
    ensures MatchingRows(scans + [s], source, chunk)
      == MatchingRows(scans, source, chunk) + MatchingIn(Rows(source, s.id), chunk)
  {
    assert forall t :: t in scans + [s] <==> t in scans || t == s;
  }

  function GroupNotes(groups: map<Group, bool>, keys: set<Group>): set<Note>
  {
    set g | g in keys && g in groups :: Note(g.scanId, GroupKey(g), groups[g])
  }

  lemma NoGroups(groups: map<Group, bool>)
    ensures GroupNotes(groups, groups.Keys - groups.Keys) == {}
  {
  }

  lemma GroupsGrow(groups: map<Group, bool>, keys: set<Group>, g: Group)
    requires g in groups
    ensures GroupNotes(groups, keys + {g}) == GroupNotes(groups, keys) + {Note(g.scanId, GroupKey(g), groups[g])}
  {
    hide GroupKey;
  }

  lemma GroupScanKnown(groups: map<Group, bool>, scans: seq<Scan>, source: map<string, seq<Finding>>,
      observed: map<string, int>, chunk: set<string>)
    requires WellFormed(scans, source) && Times(observed, scans)
    requires Grouped(groups, MatchingRows(scans, source, chunk))
    ensures forall g :: g in groups ==> g.scanId in observed
  {
    hide WellFormed, Times, AllRows;
    forall g | g in groups
      ensures g.scanId in observed
    {
      var f :| f in MatchingRows(scans, source, chunk) && GroupOf(f) == g;
      RowScanKnown(scans, source, observed, f);
      assert g.scanId == f.scanId;
    }
  }

  /** The notes cover the selected rows: the same scans saw, and the same scans flagged, each of their keys. */
  ghost predicate Covers(notes: set<Note>, rows: set<Finding>, parts: set<string>, byLocation: bool)
  {
    && (forall n :: n in notes ==> FromRow(n, rows))
    && (forall f :: f in rows && Selected(f, parts, byLocation) ==> Noted(f, notes))
  }

  /** Some row of the scan has the key, a flagged one if the note is flagged. */
  ghost predicate FromRow(n: Note, rows: set<Finding>)
  {
    exists f :: f in rows && f.scanId == n.scanId && ProgressKey(f) == n.key && (n.flagged ==> f.flagged)
  }

  predicate Noted(f: Finding, notes: set<Note>)
  {
    || Note(f.scanId, ProgressKey(f), true) in notes
    || (!f.flagged && Note(f.scanId, ProgressKey(f), false) in notes)
  }

  lemma NothingNoted(rows: set<Finding>)
    ensures Covers({}, rows, {}, false)
  {
  }

  lemma CoversMore(before: set<Note>, notes: set<Note>, rows: set<Finding>, parts: set<string>, chunk: set<string>,
      groups: map<Group, bool>)
    requires Covers(before, rows, parts, false) && "" !in chunk && notes == before + GroupNotes(groups, groups.Keys)
    requires Grouped(groups, set f | f in rows && Matches(f, chunk))
    ensures Covers(notes, rows, parts + chunk, false)
  {
    hide IdentKey, FindingIdent;
    forall n | n in GroupNotes(groups, groups.Keys)
      ensures FromRow(n, rows)
    {
      var g :| g in groups && n == Note(g.scanId, GroupKey(g), groups[g]);
      var f :| f in rows && Matches(f, chunk) && GroupOf(f) == g && (groups[g] ==> f.flagged);
      assert ProgressKey(f) == GroupKey(g);
    }
    forall f | f in rows && Selected(f, parts + chunk, false)
      ensures Noted(f, notes)
    {
      if Matches(f, chunk) {
        assert ProgressKey(f) == GroupKey(GroupOf(f));
        assert Note(f.scanId, ProgressKey(f), groups[GroupOf(f)]) in GroupNotes(groups, groups.Keys);
      } else {
        assert Selected(f, parts, false);
      }
    }
  }

  lemma CoversLocations(before: set<Note>, notes: set<Note>, rows: set<Finding>, parts: set<string>,
      found: seq<Finding>)
    requires Covers(before, rows, parts, false) && notes == before + NotesIn(found)
    requires forall f :: f in found <==> f in rows && Print(f) == ""
    ensures Covers(notes, rows, parts, true)
  {
    hide ProgressKey;
    forall n | n in notes
      ensures FromRow(n, rows)
    {
      if n !in before {
        var f :| f in found && n == NoteOf(f);
      }
    }
    forall f | f in rows && Selected(f, parts, true)
      ensures Noted(f, notes)
    {
      if Print(f) == "" {
        assert NoteOf(f) in NotesIn(found);
      } else {
        assert Selected(f, parts, false);
      }
    }
  }

  /** What the whole history says about the key. */
  ghost predicate ReportsWhole(t: Tally, observed: map<string, int>, scans: seq<Scan>,
      source: map<string, seq<Finding>>, key: string)
  {
    var notes := NotesOf(AllRows(scans, source));
    Reports(t, observed, SeenIn(notes, key), FlaggedIn(notes, key), key)
  }

  /** Notes that cover the rows of a key agree with all notes about it. */
  lemma CoverAgrees(notes: set<Note>, rows: set<Finding>, parts: set<string>, byLocation: bool, key: string)
    requires Covers(notes, rows, parts, byLocation)
    requires forall f :: f in rows && ProgressKey(f) == key ==> Selected(f, parts, byLocation)
    ensures SeenIn(notes, key) == SeenIn(NotesOf(rows), key)
    ensures FlaggedIn(notes, key) == FlaggedIn(NotesOf(rows), key)
  {
    hide ProgressKey, Selected;
    forall n | n in notes && n.key == key
      ensures n.scanId in SeenIn(NotesOf(rows), key) && (n.flagged ==> n.scanId in FlaggedIn(NotesOf(rows), key))
    {
      assert FromRow(n, rows);
      var f :| f in rows && f.scanId == n.scanId && ProgressKey(f) == n.key && (n.flagged ==> f.flagged);
      assert NoteOf(f) in NotesOf(rows);
    }
    forall n | n in NotesOf(rows) && n.key == key
      ensures n.scanId in SeenIn(notes, key) && (n.flagged ==> n.scanId in FlaggedIn(notes, key))
    {
      var f :| f in rows && n == NoteOf(f);
      assert Noted(f, notes);
    }
  }

  lemma WantedReported(t: Tally, observed: map<string, int>, noted: set<Note>, scans: seq<Scan>,
      source: map<string, seq<Finding>>, given: set<Finding>, parts: set<string>, byLocation: bool, g: Finding)
    requires ReportsAll(t, observed, noted) && Covers(noted, AllRows(scans, source), parts, byLocation)
    requires Separated(AllRows(scans, source) + given) && g in given
    requires Print(g) != "" ==> Print(g) in parts
    requires Print(g) == "" ==> byLocation
    ensures ReportsWhole(t, observed, scans, source, ProgressKey(g))
  {
    hide Reports, Separated, Covers, Selected, ProgressKey, AllRows;
    var rows := AllRows(scans, source);
    forall f | f in rows && ProgressKey(f) == ProgressKey(g)
      ensures Selected(f, parts, byLocation)
    {
      WantedIsSelected(rows, given, parts, byLocation, g, f);
    }
    CoverAgrees(noted, rows, parts, byLocation, ProgressKey(g));
  }

  /** The chunked, filtered history and the whole one report the same for every given finding. */
  lemma FilteredIsWhole(t: Tally, u: Tally, observed: map<string, int>, scans: seq<Scan>,
      source: map<string, seq<Finding>>, given: seq<Finding>, g: Finding)
    requires (forall g :: g in given ==> ReportsWhole(t, observed, scans, source, ProgressKey(g))) && g in given
    requires ReportsAll(u, observed, NotesOf(AllRows(scans, source)))
    ensures ProgressKey(g) in t.first <==> ProgressKey(g) in u.first
    ensures ProgressKey(g) in t.first ==> t.first[ProgressKey(g)] == u.first[ProgressKey(g)]
    ensures Resurfaced(t, ProgressKey(g)) == Resurfaced(u, ProgressKey(g))
  {
    hide Reports, ProgressKey;
    var notes, key := NotesOf(AllRows(scans, source)), ProgressKey(g);
    ReportsAreUnique(t, u, observed, SeenIn(notes, key), FlaggedIn(notes, key), key);
  }
}
