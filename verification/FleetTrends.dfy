/** Deduplicated severity counts, and the trend series that shares one count between days with the same scan chains. */
module FleetTrends {
  import opened Wrappers
  import opened Text
  import opened Tables
  import opened FleetModel
  import opened FleetChains
  import opened FleetHistory

  function SetOf(findings: seq<Finding>): set<Finding>
  {
    set f | f in findings
  }

  // ---------- Deduplication ----------

  function IssueKey(f: Finding): string
  {
    IdentKey(f.repoId, FindingIdent(f))
  }

  /** Higher severity, then the later row, then the smaller id. */
  predicate Better(f: Finding, g: Finding)
  {
    var a, b := SeverityRank(f.severity), SeverityRank(g.severity);
    a > b || (a == b && (f.createdAt > g.createdAt || (f.createdAt == g.createdAt && Less(f.id, g.id))))
  }

  lemma BetterIsOrder(a: Finding, b: Finding, c: Finding)
    ensures Better(a, b) ==> !Better(b, a)
    ensures a.id != b.id ==> Better(a, b) || Better(b, a)
    ensures Better(a, b) && Better(b, c) ==> Better(a, c)
  {
    LessTotal(a.id, b.id);
    if Less(a.id, b.id) {
      LessAsymmetric(a.id, b.id);
      if Less(b.id, c.id) {
        LessTransitive(a.id, b.id, c.id);
      }
    }
  }

  /** Nothing with the same identity beats the finding. */
  predicate IsBest(findings: set<Finding>, f: Finding)
  {
    f in findings && forall g :: g in findings && IssueKey(g) == IssueKey(f) ==> !Better(g, f)
  }

  function Deduplicated(findings: set<Finding>): set<Finding>
  {
    set f | f in findings && IsBest(findings, f)
  }

  ghost predicate DistinctIds(findings: set<Finding>)
  {
    forall f, g :: f in findings && g in findings && f.id == g.id ==> f == g
  }

  /** Exactly one finding of each identity remains. */
  lemma {:induction false} OneBestPerIssue(findings: set<Finding>, key: string) returns (best: Finding)
    requires DistinctIds(findings) && exists f :: f in findings && IssueKey(f) == key
    ensures IsBest(findings, best) && IssueKey(best) == key
    ensures forall f :: IsBest(findings, f) && IssueKey(f) == key ==> f == best
  {
    hide IssueKey, Better;
    var one :| one in findings && IssueKey(one) == key;
    BetterIsOrder(one, one, one);
    var rest := findings - {one};
    if exists f :: f in rest && IssueKey(f) == key {
      var second := OneBestPerIssue(rest, key);
      BetterIsOrder(one, second, second);
      best := if Better(one, second) then one else second;
      assert second in rest;
      forall g | g in findings && IssueKey(g) == key && g != best
        ensures Better(best, g) && !Better(g, best)
      {
        BetterIsOrder(best, g, g);
        if g in rest && best == one {
          assert !Better(g, second);
          BetterIsOrder(one, second, g);
          BetterIsOrder(second, g, g);
        }
      }
    } else {
      best := one;
    }
    forall f | IsBest(findings, f) && IssueKey(f) == key
      ensures f == best
    {
      BetterIsOrder(f, best, best);
    }
  }

  /** Deduplicating again changes nothing. */
  lemma DeduplicationIsIdempotent(findings: set<Finding>)
    ensures Deduplicated(Deduplicated(findings)) == Deduplicated(findings)
  {
    hide IssueKey, Better;
  }

  /** No identity is lost. */
  lemma DeduplicationKeepsIssues(findings: set<Finding>)
    requires DistinctIds(findings)
    ensures (set f | f in Deduplicated(findings) :: IssueKey(f)) == set f | f in findings :: IssueKey(f)
  {
    hide IssueKey, Better;
    forall f | f in findings
      ensures exists g :: g in Deduplicated(findings) && IssueKey(g) == IssueKey(f)
    {
      var best := OneBestPerIssue(findings, IssueKey(f));
      assert best in Deduplicated(findings);
    }
  }

  /** The list's order does not matter: the result is the set of best findings, each once. */
  method DedupCurrentFindings(findings: seq<Finding>) returns (out: seq<Finding>)
    requires DistinctIds(SetOf(findings))
    ensures SetOf(out) == Deduplicated(SetOf(findings))
    ensures |out| == |Deduplicated(SetOf(findings))|
  {
    hide IssueKey, Better;
    var best: map<string, int> := map[];
    for i := 0 to |findings|
      invariant forall key :: key in best ==> 0 <= best[key] < i && IssueKey(findings[best[key]]) == key
      invariant forall k :: 0 <= k < i ==>
        IssueKey(findings[k]) in best && !Better(findings[k], findings[best[IssueKey(findings[k])]])
    {
      var f := findings[i];
      var key := IssueKey(f);
      BetterIsOrder(f, f, f);
      if key !in best {
        best := best[key := i];
      } else if Better(f, findings[best[key]]) {
        forall k | 0 <= k < i && IssueKey(findings[k]) == key
          ensures !Better(findings[k], f)
        {
          BestStays(findings, k, best[key], i);
        }
        best := best[key := i];
      }
    }
    out := ListBest(findings, best);
  }

  lemma BestStays(findings: seq<Finding>, k: nat, b: nat, i: nat)
    requires k < |findings| && b < |findings| && i < |findings| && DistinctIds(SetOf(findings))
    requires Better(findings[i], findings[b]) && !Better(findings[k], findings[b])
    ensures !Better(findings[k], findings[i])
  {
    hide Better;
    BetterIsOrder(findings[k], findings[i], findings[b]);
  }

  method ListBest(findings: seq<Finding>, best: map<string, int>) returns (out: seq<Finding>)
    requires DistinctIds(SetOf(findings))
    requires forall key :: key in best ==> 0 <= best[key] < |findings| && IssueKey(findings[best[key]]) == key
    requires forall k :: 0 <= k < |findings| ==>
      IssueKey(findings[k]) in best && !Better(findings[k], findings[best[IssueKey(findings[k])]])
    ensures SetOf(out) == Deduplicated(SetOf(findings))
    ensures |out| == |Deduplicated(SetOf(findings))|
  {
    hide IssueKey, Better;
    var winners := set key | key in best :: findings[best[key]];
    out := SetToSeq(winners);
    var all := SetOf(findings);
    forall f | f in winners
      ensures f in Deduplicated(all)
    {
      forall g | g in all && IssueKey(g) == IssueKey(f)
        ensures !Better(g, f)
      {
        var k :| 0 <= k < |findings| && findings[k] == g;
      }
    }
    forall f | f in Deduplicated(all)
      ensures f in winners
    {
      var k :| 0 <= k < |findings| && findings[k] == f;
      var g := findings[best[IssueKey(f)]];
      assert g in all;
      BetterIsOrder(f, g, g);
    }
    assert winners == Deduplicated(all);
  }

  // ---------- Counting ----------

  const SEVERITIES := {"critical", "high", "medium", "low", "info"}

  function CountOf(findings: set<Finding>, severity: string): nat
  {
    |set f | f in findings && ToLower(f.severity) == severity|
  }

  ghost predicate IsCount(counts: map<string, nat>, findings: set<Finding>)
  {
    counts.Keys == SEVERITIES && forall s :: s in counts ==> counts[s] == CountOf(findings, s)
  }

  /** Positions of a list with the severity. */
  function ListCount(findings: seq<Finding>, severity: string): nat
  {
    if findings == [] then 0
    else
      ListCount(findings[..|findings| - 1], severity)
      + if ToLower(findings[|findings| - 1].severity) == severity then 1 else 0
  }

  /** Every position counts, under the lower-case form of its severity; other severities are dropped. */
  method CountBySeverity(findings: seq<Finding>) returns (counts: map<string, nat>)
    ensures counts.Keys == SEVERITIES && forall s :: s in counts ==> counts[s] == ListCount(findings, s)
    ensures |SetOf(findings)| == |findings| ==> IsCount(counts, SetOf(findings))
  {
    hide ToLower;
    counts := map["critical" := 0, "high" := 0, "medium" := 0, "low" := 0, "info" := 0];
    for i := 0 to |findings|
      invariant counts.Keys == SEVERITIES && forall s :: s in counts ==> counts[s] == ListCount(findings[..i], s)
    {
      assert findings[..i + 1][..i] == findings[..i];
      var severity := ToLower(findings[i].severity);
      if severity in counts {
        counts := counts[severity := counts[severity] + 1];
      }
    }
    assert findings[..|findings|] == findings;
    if |SetOf(findings)| == |findings| {
      forall s | s in counts
        ensures counts[s] == CountOf(SetOf(findings), s)
      {
        ListCountsSet(findings, s);
      }
    }
  }

  /** A list that repeats nothing counts like its set. */
  lemma {:induction false} ListCountsSet(findings: seq<Finding>, s: string)
    requires |SetOf(findings)| == |findings|
    ensures ListCount(findings, s) == CountOf(SetOf(findings), s)
  {
    hide ToLower;
    if findings == [] {
      assert (set f | f in SetOf(findings) && ToLower(f.severity) == s) == {};
    } else {
      var front, last := findings[..|findings| - 1], findings[|findings| - 1];
      NoRepeats(findings, |findings| - 1);
      assert findings == front + [last];
      assert SetOf(findings) == SetOf(front) + {last};
      ListCountsSet(front, s);
      CountOneMore(SetOf(front), last, s);
    }
  }

  lemma CountOneMore(findings: set<Finding>, f: Finding, s: string)
    requires f !in findings
    ensures CountOf(findings + {f}, s) == CountOf(findings, s) + if ToLower(f.severity) == s then 1 else 0
  {
    hide ToLower;
    var matching := set g | g in findings && ToLower(g.severity) == s;
    assert (set g | g in findings + {f} && ToLower(g.severity) == s) == matching
      + if ToLower(f.severity) == s then {f} else {};
  }

  /** A list with as many elements as positions repeats none. */
  lemma {:induction false} NoRepeats(findings: seq<Finding>, i: nat)
    requires |SetOf(findings)| == |findings| && i < |findings|
    ensures findings[i] !in findings[..i]
  {
    if findings[i] in findings[..i] {
      var rest := findings[..i] + findings[i + 1..];
      assert SetOf(findings) == SetOf(rest) by {
        assert forall f :: f in findings <==> f in rest || f == findings[i];
      }
      AtMostLength(rest);
    }
  }

  lemma {:induction false} AtMostLength(findings: seq<Finding>)
    ensures |SetOf(findings)| <= |findings|
  {
    if findings != [] {
      AtMostLength(findings[1..]);
      assert SetOf(findings) == SetOf(findings[1..]) + {findings[0]};
    }
  }

  /** The findings whose severity is one of those given. */
  function Having(findings: set<Finding>, severities: set<string>): set<Finding>
  {
    set f | f in findings && ToLower(f.severity) in severities
  }

  /** The sum over the severities: each finding of a known severity once. */
  method Total(counts: map<string, nat>, ghost findings: set<Finding>) returns (total: nat)
    requires IsCount(counts, findings)
    ensures total == |Having(findings, SEVERITIES)|
  {
    hide Having, CountOf;
    var todo := counts.Keys;
    ghost var done: set<string> := {};
    total := 0;
    NoneHaving(findings);
    while todo != {}
      invariant todo <= SEVERITIES && done == SEVERITIES - todo
      invariant total == |Having(findings, done)|
      decreases todo
    {
      var s :| s in todo;
      OneMoreSeverity(findings, done, s);
      total := total + counts[s];
      todo, done := todo - {s}, done + {s};
    }
    assert done == SEVERITIES;
  }

  lemma NoneHaving(findings: set<Finding>)
    ensures Having(findings, {}) == {}
  {
  }

  lemma OneMoreSeverity(findings: set<Finding>, done: set<string>, s: string)
    requires s !in done
    ensures |Having(findings, done + {s})| == |Having(findings, done)| + CountOf(findings, s)
  {
    hide ToLower;
    var matching := set f | f in findings && ToLower(f.severity) == s;
    assert Having(findings, done + {s}) == Having(findings, done) + matching;
    assert Having(findings, done) !! matching;
  }

  // ---------- The cache id ----------

  /** One branch of a day: its repository and name, and the ids of its chain. */
  datatype Branch = Branch(repoId: string, branch: string, ids: seq<string>)

  function Tokens(groups: seq<Branch>): seq<string>
  {
    if groups == [] then []
    else [groups[0].repoId, groups[0].branch] + groups[0].ids + Tokens(groups[1..])
  }

  function Rendered(tokens: seq<string>): string
  {
    if tokens == [] then "" else tokens[0] + "\0" + Rendered(tokens[1..])
  }

  predicate AllNulFree(tokens: seq<string>)
  {
    forall i :: 0 <= i < |tokens| ==> NulFree(tokens[i])
  }

  lemma {:induction false} RenderedIsInjective(a: seq<string>, b: seq<string>)
    requires AllNulFree(a) && AllNulFree(b) && Rendered(a) == Rendered(b)
    ensures a == b
  {
    if a != [] && b != [] {
      assert Rendered(a) == IdentKey(a[0], Rendered(a[1..])) && Rendered(b) == IdentKey(b[0], Rendered(b[1..]));
      KeySplits(a[0], Rendered(a[1..]), b[0], Rendered(b[1..]));
      RenderedIsInjective(a[1..], b[1..]);
      assert a == [a[0]] + a[1..] && b == [b[0]] + b[1..];
    }
  }

  /** No id of a chain is a repository id. */
  ghost predicate IdsApart(groups: seq<Branch>, repos: set<string>)
  {
    forall i :: 0 <= i < |groups| ==> groups[i].repoId in repos && forall k :: 0 <= k < |groups[i].ids| ==>
      groups[i].ids[k] !in repos
  }

  lemma {:induction false} TokensAreInjective(a: seq<Branch>, b: seq<Branch>, repos: set<string>)
    requires IdsApart(a, repos) && IdsApart(b, repos) && Tokens(a) == Tokens(b)
    ensures a == b
  {
    if a != [] && b != [] {
      var x, y := a[0].ids, b[0].ids;
      var restA, restB := Tokens(a[1..]), Tokens(b[1..]);
      assert Tokens(a)[0] == a[0].repoId && Tokens(b)[0] == b[0].repoId;
      assert Tokens(a)[1] == a[0].branch && Tokens(b)[1] == b[0].branch;
      assert x + restA == Tokens(a)[2..] && y + restB == Tokens(b)[2..];
      TailStartsWithRepo(a[1..], repos);
      TailStartsWithRepo(b[1..], repos);
      SameStretch(x, restA, y, restB, repos);
      TokensAreInjective(a[1..], b[1..], repos);
      assert a == [a[0]] + a[1..] && b == [b[0]] + b[1..];
    }
  }

  lemma TailStartsWithRepo(groups: seq<Branch>, repos: set<string>)
    requires IdsApart(groups, repos)
    ensures Tokens(groups) != [] ==> Tokens(groups)[0] in repos
  {
  }

  /** The first repository id stands at one place only. */
  lemma FirstRepo(tokens: seq<string>, n: nat, m: nat, repos: set<string>)
    requires n <= |tokens| && m <= |tokens|
    requires (forall k :: 0 <= k < n ==> tokens[k] !in repos) && (forall k :: 0 <= k < m ==> tokens[k] !in repos)
    requires (n < |tokens| ==> tokens[n] in repos) && (m < |tokens| ==> tokens[m] in repos)
    ensures n == m
  {
  }

  /** Two stretches of ids that run up to the next repository id, or the end, are the same. */
  lemma SameStretch(x: seq<string>, restX: seq<string>, y: seq<string>, restY: seq<string>, repos: set<string>)
    requires x + restX == y + restY
    requires (forall k :: 0 <= k < |x| ==> x[k] !in repos) && (forall k :: 0 <= k < |y| ==> y[k] !in repos)
    requires (restX != [] ==> restX[0] in repos) && (restY != [] ==> restY[0] in repos)
    ensures x == y && restX == restY
  {
    FirstRepo(x + restX, |x|, |y|, repos);
    assert x == (x + restX)[..|x|] && y == (y + restY)[..|x|];
    assert restX == (x + restX)[|x|..] && restY == (y + restY)[|x|..];
  }

  // ---------- One day ----------

  function BranchesAt(scans: seq<Scan>, at: int): set<string>
  {
    set s | s in scans && ObservedAt(s) <= at :: BranchKey(s)
  }

  function Ids(chain: seq<Scan>): seq<string>
  {
    seq(|chain|, i requires 0 <= i < |chain| => chain[i].id)
  }

  function GroupFor(scans: seq<Scan>, at: int, key: string): Branch
  {
    var chain := Chain(scans, at, key);
    if chain == [] then Branch("", "", []) else Branch(chain[0].repoId, chain[0].branch, Ids(chain))
  }

  function GroupsFor(scans: seq<Scan>, at: int, keys: seq<string>): seq<Branch>
  {
    seq(|keys|, i requires 0 <= i < |keys| => GroupFor(scans, at, keys[i]))
  }

  /** The branches in order, each followed by the ids of its chain. */
  ghost function CacheId(scans: seq<Scan>, at: int): string
  {
    Rendered(Tokens(GroupsFor(scans, at, Ascending(BranchesAt(scans, at)))))
  }

  /** Ids and names hold no NUL, scan ids are keys, and no scan id is a repository id. */
  ghost predicate Identified(scans: seq<Scan>)
  {
    && (forall i, j :: 0 <= i < j < |scans| ==> scans[i].id != scans[j].id)
    && (forall s :: s in scans ==> NulFree(s.repoId) && NulFree(s.branch) && NulFree(s.id))
    && (forall s, t :: s in scans && t in scans ==> s.id != t.repoId)
  }

  lemma BranchesAreKeys(scans: seq<Scan>, at: int)
    ensures forall key :: key in BranchesAt(scans, at) <==> HasBranch(scans, at, key)
  {
    hide BranchKey;
    forall key
      ensures key in BranchesAt(scans, at) <==> HasBranch(scans, at, key)
    {
      if key in BranchesAt(scans, at) {
        var s :| s in scans && ObservedAt(s) <= at && BranchKey(s) == key;
        var i :| 0 <= i < |scans| && scans[i] == s;
        assert Observed(scans[i], at, key);
      }
    }
  }

  /** A branch's group spells out its key, and its ids are scans of the branch. */
  lemma GroupTells(scans: seq<Scan>, at: int, key: string)
    requires HasBranch(scans, at, key)
    ensures Chain(scans, at, key) != []
    ensures IdentKey(GroupFor(scans, at, key).repoId, GroupFor(scans, at, key).branch) == key
    ensures GroupFor(scans, at, key).ids == Ids(Chain(scans, at, key))
    ensures forall s :: s in Chain(scans, at, key) ==> s in scans
  {
    ChainShape(scans, at, key);
    assert Chain(scans, at, key)[0] in Chain(scans, at, key);
  }

  lemma GroupsAreApart(scans: seq<Scan>, at: int, keys: seq<string>)
    requires Identified(scans) && forall key :: key in keys ==> HasBranch(scans, at, key)
    ensures IdsApart(GroupsFor(scans, at, keys), set s | s in scans :: s.repoId)
    ensures AllNulFree(Tokens(GroupsFor(scans, at, keys)))
  {
    hide NulFree;
    var groups := GroupsFor(scans, at, keys);
    forall i | 0 <= i < |groups|
      ensures groups[i].repoId in (set s | s in scans :: s.repoId) && NulFree(groups[i].repoId)
      ensures NulFree(groups[i].branch)
      ensures forall k :: 0 <= k < |groups[i].ids| ==>
        groups[i].ids[k] !in (set s | s in scans :: s.repoId) && NulFree(groups[i].ids[k])
    {
      assert keys[i] in keys;
      GroupTells(scans, at, keys[i]);
      var chain := Chain(scans, at, keys[i]);
      assert chain[0] in chain;
      forall k | 0 <= k < |groups[i].ids|
        ensures groups[i].ids[k] !in (set s | s in scans :: s.repoId) && NulFree(groups[i].ids[k])
      {
        assert chain[k] in chain && groups[i].ids[k] == chain[k].id;
      }
    }
    TokensNulFree(groups);
  }

  lemma {:induction false} TokensNulFree(groups: seq<Branch>)
    requires forall i :: 0 <= i < |groups| ==>
      NulFree(groups[i].repoId) && NulFree(groups[i].branch) && AllNulFree(groups[i].ids)
    ensures AllNulFree(Tokens(groups))
  {
    hide NulFree;
    if groups != [] {
      TokensNulFree(groups[1..]);
    }
  }

  /** Equal cache ids mean equal chains on every branch. */
  lemma SameIdSameChains(scans: seq<Scan>, a: int, b: int)
    requires Identified(scans) && CacheId(scans, a) == CacheId(scans, b)
    ensures forall key :: HasBranch(scans, a, key) <==> HasBranch(scans, b, key)
    ensures forall key :: Chain(scans, a, key) == Chain(scans, b, key)
  {
    hide HasBranch, Chain, BranchesAt, Rendered, Tokens, Identified, IdsApart, AllNulFree;
    var keysA, keysB := Ascending(BranchesAt(scans, a)), Ascending(BranchesAt(scans, b));
    AscendingIsSorted(BranchesAt(scans, a));
    AscendingIsSorted(BranchesAt(scans, b));
    BranchesAreKeys(scans, a);
    BranchesAreKeys(scans, b);
    GroupsAreApart(scans, a, keysA);
    GroupsAreApart(scans, b, keysB);
    var groupsA, groupsB := GroupsFor(scans, a, keysA), GroupsFor(scans, b, keysB);
    RenderedIsInjective(Tokens(groupsA), Tokens(groupsB));
    TokensAreInjective(groupsA, groupsB, set s | s in scans :: s.repoId);
    SameGroupsSameKeys(scans, a, keysA, b, keysB);
    forall key
      ensures Chain(scans, a, key) == Chain(scans, b, key)
    {
      if HasBranch(scans, a, key) {
        assert key in keysA;
        var i :| 0 <= i < |keysA| && keysA[i] == key;
        assert groupsA[i] == GroupFor(scans, a, key) && groupsB[i] == GroupFor(scans, b, key);
        SameIdsSameScans(scans, a, b, key);
      } else {
        ChainShape(scans, a, key);
        ChainShape(scans, b, key);
      }
    }
  }

  lemma SameGroupsSameKeys(scans: seq<Scan>, a: int, keysA: seq<string>, b: int, keysB: seq<string>)
    requires GroupsFor(scans, a, keysA) == GroupsFor(scans, b, keysB)
    requires (forall key :: key in keysA ==> HasBranch(scans, a, key)) && forall key :: key in keysB ==>
      HasBranch(scans, b, key)
    ensures keysA == keysB
  {
    hide HasBranch, GroupFor, IdentKey;
    assert |GroupsFor(scans, a, keysA)| == |keysA| && |GroupsFor(scans, b, keysB)| == |keysB|;
    forall i | 0 <= i < |keysA|
      ensures keysA[i] == keysB[i]
    {
      assert GroupsFor(scans, a, keysA)[i] == GroupsFor(scans, b, keysB)[i];
      assert keysA[i] in keysA && keysB[i] in keysB;
      GroupTells(scans, a, keysA[i]);
      GroupTells(scans, b, keysB[i]);
    }
  }

  lemma SameIdsSameScans(scans: seq<Scan>, a: int, b: int, key: string)
    requires Identified(scans) && HasBranch(scans, a, key) && HasBranch(scans, b, key)
    requires GroupFor(scans, a, key) == GroupFor(scans, b, key)
    ensures Chain(scans, a, key) == Chain(scans, b, key)
  {
    hide NulFree, HasBranch, Chain;
    GroupTells(scans, a, key);
    GroupTells(scans, b, key);
    var x, y := Chain(scans, a, key), Chain(scans, b, key);
    assert |Ids(x)| == |x| && |Ids(y)| == |y|;
    forall i | 0 <= i < |x|
      ensures x[i] == y[i]
    {
      assert Ids(x)[i] == Ids(y)[i];
      assert x[i] in x && y[i] in y;
      var k :| 0 <= k < |scans| && scans[k] == x[i];
      var l :| 0 <= l < |scans| && scans[l] == y[i];
    }
  }

  /** The open evidence of a moment, by full replay. */
  ghost function OpenAt(source: map<string, seq<Finding>>, scans: seq<Scan>, at: int): set<Finding>
  {
    set f | f in AllRows(scans, source) && Current(source, scans, at, f) && OpenEvidence(f)
  }

  /** Days with the same cache id have the same open evidence. */
  lemma SameIdSameEvidence(source: map<string, seq<Finding>>, scans: seq<Scan>, a: int, b: int)
    requires Identified(scans) && CacheId(scans, a) == CacheId(scans, b)
    ensures OpenAt(source, scans, a) == OpenAt(source, scans, b)
  {
    hide CacheId, Identified, Replay, AllRows;
    SameIdSameChains(scans, a, b);
    forall key
      ensures Replay(source, scans, a, key) == Replay(source, scans, b, key)
    {
      LazyIsReplay(source, scans, a, key);
      LazyIsReplay(source, scans, b, key);
    }
    forall f
      ensures Current(source, scans, a, f) <==> Current(source, scans, b, f)
    {
      if key :| HasBranch(scans, a, key) && f in Replay(source, scans, a, key).Values {
        assert HasBranch(scans, b, key);
      }
      if key :| HasBranch(scans, b, key) && f in Replay(source, scans, b, key).Values {
        assert HasBranch(scans, a, key);
      }
    }
  }

  // ---------- The series ----------

  datatype Entry = Entry(at: int, counts: map<string, nat>, total: nat, repos: nat, incomplete: nat)

  /** Repositories with an observed scan. */
  function ReposAt(scans: seq<Scan>, at: int): set<string>
  {
    set s | s in scans && ObservedAt(s) <= at :: s.repoId
  }

  /** The branch's last observed scan in creation order. */
  function LastObserved(scans: seq<Scan>, at: int, key: string): Option<Scan>
  {
    if scans == [] then None
    else if Observed(scans[|scans| - 1], at, key) then Some(scans[|scans| - 1])
    else LastObserved(scans[..|scans| - 1], at, key)
  }

  function IncompleteAt(scans: seq<Scan>, at: int): set<string>
  {
    set key | key in BranchesAt(scans, at) && LastObserved(scans, at, key).Some?
      && !LastObserved(scans, at, key).value.complete
  }

  /** What a day's entry shows, counted from scratch. */
  ghost predicate IsEntry(entry: Entry, source: map<string, seq<Finding>>, scans: seq<Scan>, at: int)
  {
    && entry.at == at && IsCount(entry.counts, Deduplicated(OpenAt(source, scans, at)))
    && entry.total == |Having(Deduplicated(OpenAt(source, scans, at)), SEVERITIES)|
    && entry.repos == |ReposAt(scans, at)| && entry.incomplete == |IncompleteAt(scans, at)|
  }

  method BuildCacheId(scans: seq<Scan>, chains: map<string, seq<Scan>>, ghost at: int) returns (id: string)
    requires AreChains(chains, scans, at)
    ensures id == CacheId(scans, at)
  {
    hide AreChains, Chain, BranchesAt, HasBranch, BranchKey, Rendered, Tokens, GroupsFor;
    ChainKeys(scans, chains, at);
    var keys := SelectOrdered(chains.Keys);
    AscendingIsSorted(chains.Keys);
    id := "";
    NothingRendered(scans, at);
    for i := 0 to |keys|
      invariant id == Rendered(Tokens(GroupsFor(scans, at, keys[..i])))
    {
      assert keys[i] in keys && keys[..i + 1] == keys[..i] + [keys[i]];
      ChainOf(scans, chains, at, keys[i]);
      var next := RenderBranch(keys[i], chains[keys[i]]);
      OneMoreBranch(scans, at, keys[..i], keys[i]);
      id := id + next;
    }
    assert keys[..|keys|] == keys;
  }

  method RenderBranch(key: string, chain: seq<Scan>) returns (text: string)
    ensures text == key + "\0" + Rendered(Ids(chain))
  {
    text := key + "\0";
    for j := 0 to |chain|
      invariant text == key + "\0" + Rendered(Ids(chain[..j]))
    {
      assert Ids(chain[..j + 1]) == Ids(chain[..j]) + [chain[j].id];
      RenderedAdds(Ids(chain[..j]), [chain[j].id]);
      assert Rendered([chain[j].id]) == chain[j].id + "\0";
      text := text + (chain[j].id + "\0");
    }
    assert chain[..|chain|] == chain;
  }

  lemma NothingRendered(scans: seq<Scan>, at: int)
    ensures Rendered(Tokens(GroupsFor(scans, at, []))) == ""
  {
  }

  lemma OneMoreBranch(scans: seq<Scan>, at: int, keys: seq<string>, key: string)
    requires HasBranch(scans, at, key)
    ensures Rendered(Tokens(GroupsFor(scans, at, keys + [key])))
         == Rendered(Tokens(GroupsFor(scans, at, keys))) + (key + "\0" + Rendered(Ids(Chain(scans, at, key))))
  {
    hide HasBranch, Chain;
    GroupTells(scans, at, key);
    GroupRendered(GroupFor(scans, at, key));
    GroupsRendered(GroupsFor(scans, at, keys), GroupFor(scans, at, key));
    assert GroupsFor(scans, at, keys + [key]) == GroupsFor(scans, at, keys) + [GroupFor(scans, at, key)];
  }

  lemma ChainKeys(scans: seq<Scan>, chains: map<string, seq<Scan>>, at: int)
    requires AreChains(chains, scans, at)
    ensures chains.Keys == BranchesAt(scans, at)
  {
    hide HasBranch, BranchesAt, BranchKey;
    BranchesAreKeys(scans, at);
  }

  lemma ChainOf(scans: seq<Scan>, chains: map<string, seq<Scan>>, at: int, key: string)
    requires AreChains(chains, scans, at) && key in chains
    ensures HasBranch(scans, at, key) && chains[key] == Chain(scans, at, key)
  {
  }

  lemma {:induction false} RenderedAdds(a: seq<string>, b: seq<string>)
    ensures Rendered(a + b) == Rendered(a) + Rendered(b)
  {
    if a == [] {
      assert a + b == b;
    } else {
      RenderedAdds(a[1..], b);
      assert (a + b)[1..] == a[1..] + b;
    }
  }

  lemma GroupRendered(g: Branch)
    ensures Rendered(Tokens([g])) == IdentKey(g.repoId, g.branch) + "\0" + Rendered(g.ids)
  {
    assert Tokens([g]) == [g.repoId, g.branch] + g.ids;
    RenderedAdds([g.repoId, g.branch], g.ids);
    assert Rendered([g.repoId, g.branch]) == g.repoId + "\0" + Rendered([g.branch]);
    assert Rendered([g.branch]) == g.branch + "\0" + Rendered([]);
  }

  lemma {:induction false} GroupsRendered(groups: seq<Branch>, g: Branch)
    ensures Rendered(Tokens(groups + [g])) == Rendered(Tokens(groups)) + Rendered(Tokens([g]))
  {
    TokensAdd(groups, [g]);
    RenderedAdds(Tokens(groups), Tokens([g]));
  }

  lemma {:induction false} TokensAdd(a: seq<Branch>, b: seq<Branch>)
    ensures Tokens(a + b) == Tokens(a) + Tokens(b)
  {
    if a == [] {
      assert a + b == b;
    } else {
      TokensAdd(a[1..], b);
      assert (a + b)[1..] == a[1..] + b;
    }
  }

  /** The open evidence of the chains, deduplicated and counted. */
  method CountDay(e: FleetEvidence, chains: map<string, seq<Scan>>, ghost at: int) returns (counts: map<string, nat>)
    requires e.Valid() && AreChains(chains, e.scans, at) && DistinctIds(AllRows(e.scans, e.source))
    modifies e
    ensures e.Valid() && IsCount(counts, Deduplicated(OpenAt(e.source, e.scans, at)))
  {
    hide AreChains, AllRows, Current, DistinctIds, IsCount, Deduplicated;
    var found := e.ChainEvidence(chains);
    ChainsAreCurrent(e.source, chains, e.scans, at);
    var current: seq<Finding> := [];
    for i := 0 to |found|
      invariant e.Valid() && forall f :: f in current <==> f in found[..i] && OpenEvidence(f)
    {
      assert found[..i + 1] == found[..i] + [found[i]];
      if OpenEvidence(found[i]) {
        current := current + [found[i]];
      }
    }
    assert found[..|found|] == found;
    OpenIsOpen(e.source, e.scans, at, current);
    var best := DedupCurrentFindings(current);
    counts := CountBySeverity(best);
  }

  lemma OpenIsOpen(source: map<string, seq<Finding>>, scans: seq<Scan>, at: int, current: seq<Finding>)
    requires forall f :: f in current <==> Current(source, scans, at, f) && OpenEvidence(f)
    requires DistinctIds(AllRows(scans, source))
    ensures SetOf(current) == OpenAt(source, scans, at) && DistinctIds(SetOf(current))
  {
    hide Current, AllRows;
    forall f | f in current
      ensures f in AllRows(scans, source)
    {
      CurrentIsRow(source, scans, at, f);
    }
  }

  /** Repositories observed so far, and branches whose latest scan is incomplete. */
  method DayScope(scans: seq<Scan>, at: int) returns (repos: nat, incomplete: nat)
    ensures repos == |ReposAt(scans, at)| && incomplete == |IncompleteAt(scans, at)|
  {
    hide BranchKey;
    var latest: map<string, Scan> := map[];
    var seen: set<string> := {};
    for i := 0 to |scans|
      invariant seen == ReposAt(scans[..i], at)
      invariant forall key :: key in latest <==> key in BranchesAt(scans[..i], at)
      invariant forall key :: key in latest ==> LastObserved(scans[..i], at, key) == Some(latest[key])
    {
      assert scans[..i + 1] == scans[..i] + [scans[i]] && scans[..i + 1][..i] == scans[..i];
      if ObservedAt(scans[i]) <= at {
        latest := latest[BranchKey(scans[i]) := scans[i]];
        seen := seen + {scans[i].repoId};
      }
    }
    assert scans[..|scans|] == scans;
    var open := set key | key in latest && !latest[key].complete;
    assert open == IncompleteAt(scans, at);
    repos, incomplete := |seen|, |open|;
  }

  function Truncate(t: int): int
  {
    t - t % DAY
  }

  /** The first day shown: the first scan's, but no more than 89 days before today. */
  function StartDay(scans: seq<Scan>, now: int): int
    requires scans != []
  {
    var first, earliest := Truncate(ObservedAt(scans[0])), Truncate(now) - 89 * DAY;
    if first < earliest then earliest else first
  }

  function DayEnd(start: int, i: nat): int
  {
    start + (i + 1) * DAY - 1
  }

  datatype Day = Day(at: int, chains: map<string, seq<Scan>>, id: string)

  ghost predicate IsDay(d: Day, scans: seq<Scan>, at: int)
  {
    d.at == at && AreChains(d.chains, scans, at) && d.id == CacheId(scans, at)
  }

  /** The chains of every day up to today. */
  method ListDays(e: FleetEvidence, start: int, now: int) returns (days: seq<Day>)
    requires e.Valid()
    ensures |days| == if now < start then 0 else (now - start) / DAY + 1
    ensures forall i :: 0 <= i < |days| ==> IsDay(days[i], e.scans, DayEnd(start, i))
  {
    hide AreChains, CacheId;
    days := [];
    var date := start;
    while date <= now
      invariant date == start + |days| * DAY && (days != [] ==> date - DAY <= now)
      invariant forall i :: 0 <= i < |days| ==> IsDay(days[i], e.scans, DayEnd(start, i))
      decreases now - date
    {
      var at := date + DAY - 1;
      var chains := e.Contributing(at);
      var id := BuildCacheId(e.scans, chains, at);
      days := days + [Day(at, chains, id)];
      date := date + DAY;
    }
  }

  /** Each day's entry equals counting that day from scratch, although days with equal chains share one count. */
  method FleetFindingTrends(e: FleetEvidence, now: int) returns (out: seq<Entry>)
    requires e.Valid() && Identified(e.scans) && DistinctIds(AllRows(e.scans, e.source))
    modifies e
    ensures e.scans == [] ==> out == []
    ensures e.scans != [] ==>
      var start := StartDay(e.scans, now);
      && |out| == (if now < start then 0 else (now - start) / DAY + 1)
      && forall i :: 0 <= i < |out| ==> IsEntry(out[i], e.source, e.scans, DayEnd(start, i))
  {
    hide Identified, DistinctIds, AllRows, IsDay, IsCount, Having, Deduplicated, OpenAt, AreChains, CacheId, ReposAt,
        IncompleteAt;
    out := [];
    if e.scans == [] {
      return;
    }
    var start := StartDay(e.scans, now);
    var days := ListDays(e, start, now);
    var counted: map<string, map<string, nat>> := map[];
    for i := 0 to |days|
      invariant e.Valid() && |out| == i && Remembers(counted, e.source, e.scans)
      invariant forall k :: 0 <= k < i ==> IsEntry(out[k], e.source, e.scans, DayEnd(start, k))
    {
      var at := DayEnd(start, i);
      DayTells(days[i], e.scans, at);
      if days[i].id !in counted {
        var counts := CountDay(e, days[i].chains, at);
        Remember(counted, counts, e.source, e.scans, at);
        counted := counted[days[i].id := counts];
      }
      Recall(counted, e.source, e.scans, at);
      var total := Total(counted[days[i].id], Deduplicated(OpenAt(e.source, e.scans, at)));
      var repos, incomplete := DayScope(e.scans, at);
      out := out + [Entry(at, counted[days[i].id], total, repos, incomplete)];
    }
  }

  lemma DayTells(d: Day, scans: seq<Scan>, at: int)
    requires IsDay(d, scans, at)
    ensures d.at == at && AreChains(d.chains, scans, at) && d.id == CacheId(scans, at)
  {
  }

  /** A remembered count is right for every moment with its cache id. */
  ghost predicate Remembers(counted: map<string, map<string, nat>>, source: map<string, seq<Finding>>, scans: seq<Scan>)
  {
    forall at :: CacheId(scans, at) in counted ==>
      IsCount(counted[CacheId(scans, at)], Deduplicated(OpenAt(source, scans, at)))
  }

  lemma Remember(counted: map<string, map<string, nat>>, counts: map<string, nat>, source: map<string, seq<Finding>>,
      scans: seq<Scan>, at: int)
    requires Remembers(counted, source, scans) && Identified(scans)
    requires IsCount(counts, Deduplicated(OpenAt(source, scans, at)))
    ensures Remembers(counted[CacheId(scans, at) := counts], source, scans)
  {
    hide CacheId, Identified, IsCount, Deduplicated, OpenAt;
    forall other | CacheId(scans, other) == CacheId(scans, at)
      ensures OpenAt(source, scans, other) == OpenAt(source, scans, at)
    {
      SameIdSameEvidence(source, scans, other, at);
    }
  }

  lemma Recall(counted: map<string, map<string, nat>>, source: map<string, seq<Finding>>, scans: seq<Scan>, at: int)
    requires Remembers(counted, source, scans) && CacheId(scans, at) in counted
    ensures IsCount(counted[CacheId(scans, at)], Deduplicated(OpenAt(source, scans, at)))
  {
  }
}
