/** Current evidence: the latest complete scan of each branch and the attempts after it, loaded on demand. */
module FleetChains {
  import opened Wrappers
  import opened FleetModel

  // ---------- The lazy form ----------

  predicate Observed(s: Scan, at: int, key: string)
  {
    ObservedAt(s) <= at && BranchKey(s) == key
  }

  /** The scans that make up a branch's evidence at a moment. */
  function Chain(scans: seq<Scan>, at: int, key: string): seq<Scan>
  {
    if scans == [] then []
    else
      var rest, s := Chain(scans[..|scans| - 1], at, key), scans[|scans| - 1];
      if !Observed(s, at, key) then rest else if s.complete then [s] else rest + [s]
  }

  predicate HasBranch(scans: seq<Scan>, at: int, key: string)
  {
    exists i :: 0 <= i < |scans| && Observed(scans[i], at, key)
  }

  /** A repeated finding's latest row wins. */
  function OverlayRows(below: map<string, Finding>, rows: seq<Finding>): map<string, Finding>
  {
    if rows == [] then below
    else OverlayRows(below, rows[..|rows| - 1])[FindingIdent(rows[|rows| - 1]) := rows[|rows| - 1]]
  }

  function OverlayChain(source: map<string, seq<Finding>>, chain: seq<Scan>): map<string, Finding>
  {
    if chain == [] then map[]
    else OverlayRows(OverlayChain(source, chain[..|chain| - 1]), Rows(source, chain[|chain| - 1].id))
  }

  // ---------- The full replay ----------

  /**
   Every observed scan of the branch, in creation order: a complete one replaces the evidence, any
   other overlays it.
  */
  function Replay(source: map<string, seq<Finding>>, scans: seq<Scan>, at: int, key: string): map<string, Finding>
  {
    if scans == [] then map[]
    else
      var rest, s := Replay(source, scans[..|scans| - 1], at, key), scans[|scans| - 1];
      if !Observed(s, at, key) then rest
      else OverlayRows(if s.complete then map[] else rest, Rows(source, s.id))
  }

  /** The lazy chain gives exactly the evidence of the full replay. */
  lemma {:induction false} LazyIsReplay(source: map<string, seq<Finding>>, scans: seq<Scan>, at: int, key: string)
    ensures OverlayChain(source, Chain(scans, at, key)) == Replay(source, scans, at, key)
  {
    if scans != [] {
      var front, s := scans[..|scans| - 1], scans[|scans| - 1];
      LazyIsReplay(source, front, at, key);
      if Observed(s, at, key) {
        var rest := if s.complete then [] else Chain(front, at, key);
        assert Chain(scans, at, key) == rest + [s];
        assert (rest + [s])[..|rest|] == rest;
      }
    }
  }

  /** Only the scans of the chain need to be loaded: whatever other scans hold, the evidence is the same. */
  lemma {:induction false} OnlyChainMatters(source: map<string, seq<Finding>>, other: map<string, seq<Finding>>,
      chain: seq<Scan>)
    requires forall i :: 0 <= i < |chain| ==> Rows(other, chain[i].id) == Rows(source, chain[i].id)
    ensures OverlayChain(other, chain) == OverlayChain(source, chain)
  {
    if chain != [] {
      OnlyChainMatters(source, other, chain[..|chain| - 1]);
    }
  }

  /** The chain starts at the branch's last complete scan, if any: only its first element can be complete. */
  lemma {:induction false} ChainShape(scans: seq<Scan>, at: int, key: string)
    ensures forall i :: 0 < i < |Chain(scans, at, key)| ==> !Chain(scans, at, key)[i].complete
    ensures forall s :: s in Chain(scans, at, key) ==> s in scans && Observed(s, at, key)
    ensures Chain(scans, at, key) == [] <==> !HasBranch(scans, at, key)
  {
    if scans != [] {
      var front, s := scans[..|scans| - 1], scans[|scans| - 1];
      ChainShape(front, at, key);
      if Observed(s, at, key) {
        assert scans[|scans| - 1] == s;
      } else if HasBranch(scans, at, key) {
        var i :| 0 <= i < |scans| && Observed(scans[i], at, key);
        assert front[i] == scans[i];
      } else {
        assert forall i :: 0 <= i < |front| ==> front[i] == scans[i];
      }
    }
  }

  // ---------- Evidence over all branches ----------

  predicate InChains(source: map<string, seq<Finding>>, chains: map<string, seq<Scan>>, f: Finding)
  {
    exists key :: key in chains && f in OverlayChain(source, chains[key]).Values
  }

  /** The finding is evidence of some branch at the moment, by full replay. */
  ghost predicate Current(source: map<string, seq<Finding>>, scans: seq<Scan>, at: int, f: Finding)
  {
    exists key :: HasBranch(scans, at, key) && f in Replay(source, scans, at, key).Values
  }

  ghost predicate AreChains(chains: map<string, seq<Scan>>, scans: seq<Scan>, at: int)
  {
    forall key :: (key in chains <==> HasBranch(scans, at, key))
      && (key in chains ==> chains[key] == Chain(scans, at, key))
  }

  lemma ChainsAreCurrent(source: map<string, seq<Finding>>, chains: map<string, seq<Scan>>, scans: seq<Scan>, at: int)
    requires AreChains(chains, scans, at)
    ensures forall f :: InChains(source, chains, f) <==> Current(source, scans, at, f)
  {
    forall key | key in chains
      ensures OverlayChain(source, chains[key]) == Replay(source, scans, at, key)
    {
      LazyIsReplay(source, scans, at, key);
    }
  }

  class FleetEvidence {
    const scans: seq<Scan>
    /** What the database holds; findings is the part loaded so far. */
    const source: map<string, seq<Finding>>
    var findings: map<string, seq<Finding>>

    constructor (scans: seq<Scan>, source: map<string, seq<Finding>>)
      ensures this.scans == scans && this.source == source && findings == map[] && Valid()
    {
      this.scans, this.source, findings := scans, source, map[];
    }

    ghost predicate Valid()
      reads this
    {
      forall id :: id in findings ==> findings[id] == Rows(source, id)
    }

    /** Loads each missing scan once. */
    method Prefetch(ids: seq<string>)
      requires Valid()
      modifies this
      ensures Valid() && findings.Keys == old(findings.Keys) + set id | id in ids
    {
      var missing := Missing(ids);
      for i := 0 to |missing|
        invariant Valid() && forall id :: id in findings <==> id in old(findings) || id in missing[..i]
      {
        assert missing[..i + 1] == missing[..i] + [missing[i]];
        findings := findings[missing[i] := Rows(source, missing[i])];
      }
      assert missing[..|missing|] == missing;
    }

    method Missing(ids: seq<string>) returns (missing: seq<string>)
      ensures forall id :: id in missing <==> id in ids && id !in findings
      ensures forall i, j :: 0 <= i < j < |missing| ==> missing[i] != missing[j]
    {
      missing := [];
      for i := 0 to |ids|
        invariant forall id :: id in missing <==> id in ids[..i] && id !in findings
        invariant forall j, k :: 0 <= j < k < |missing| ==> missing[j] != missing[k]
      {
        assert ids[..i + 1] == ids[..i] + [ids[i]];
        if ids[i] !in findings && ids[i] !in missing {
          missing := missing + [ids[i]];
        }
      }
      assert ids[..|ids|] == ids;
    }

    method Of(scanId: string) returns (rows: seq<Finding>)
      requires Valid()
      modifies this
      ensures Valid() && rows == Rows(source, scanId)
    {
      Prefetch([scanId]);
      rows := findings[scanId];
    }

    method Contributing(at: int) returns (chains: map<string, seq<Scan>>)
      ensures AreChains(chains, scans, at)
    {
      hide BranchKey, AreChains;
      chains := map[];
      NoChains(at);
      for i := 0 to |scans|
        invariant AreChains(chains, scans[..i], at)
      {
        var s := scans[i];
        assert scans[..i + 1] == scans[..i] + [s];
        ChainsGrow(chains, scans[..i], s, at);
        if ObservedAt(s) > at {
          continue;
        }
        var key := BranchKey(s);
        var chain := if s.complete || key !in chains then [] else chains[key];
        chains := chains[key := chain + [s]];
      }
      assert scans[..|scans|] == scans;
    }

    method ChainEvidence(chains: map<string, seq<Scan>>) returns (out: seq<Finding>)
      requires Valid()
      modifies this
      ensures Valid() && forall f :: f in out <==> InChains(source, chains, f)
    {
      var ids := ChainIds(chains);
      Prefetch(ids);
      ghost var loaded := findings;
      var todo := chains.Keys;
      out := [];
      while todo != {}
        invariant todo <= chains.Keys && findings == loaded
        invariant forall f :: f in out <==>
          exists key :: key in chains && key !in todo && f in OverlayChain(source, chains[key]).Values
        decreases todo
      {
        var key :| key in todo;
        var branch := OverlayLoaded(chains[key]);
        var values := SetToSeq(branch.Values);
        out := out + values;
        todo := todo - {key};
      }
    }

    method OverlayLoaded(chain: seq<Scan>) returns (branch: map<string, Finding>)
      requires Valid() && forall i :: 0 <= i < |chain| ==> chain[i].id in findings
      ensures branch == OverlayChain(source, chain)
    {
      branch := map[];
      for i := 0 to |chain|
        invariant branch == OverlayChain(source, chain[..i])
      {
        assert chain[..i + 1][..i] == chain[..i];
        var rows := findings[chain[i].id];
        ghost var below := branch;
        for j := 0 to |rows|
          invariant branch == OverlayRows(below, rows[..j])
        {
          assert rows[..j + 1][..j] == rows[..j];
          branch := branch[FindingIdent(rows[j]) := rows[j]];
        }
        assert rows[..|rows|] == rows;
      }
      assert chain[..|chain|] == chain;
    }

    static method ChainIds(chains: map<string, seq<Scan>>) returns (ids: seq<string>)
      ensures forall key, i :: key in chains && 0 <= i < |chains[key]| ==> chains[key][i].id in ids
    {
      var todo := chains.Keys;
      ids := [];
      while todo != {}
        invariant todo <= chains.Keys
        invariant forall key, i :: key in chains && key !in todo && 0 <= i < |chains[key]| ==> chains[key][i].id in ids
        decreases todo
      {
        var key :| key in todo;
        var chain := chains[key];
        for i := 0 to |chain|
          invariant forall k :: 0 <= k < i ==> chain[k].id in ids
          invariant forall other, k :: other in chains && other !in todo && 0 <= k < |chains[other]| ==>
            chains[other][k].id in ids
        {
          ids := ids + [chain[i].id];
        }
        todo := todo - {key};
      }
    }

    /** Exactly the findings a full replay of the observed scans leaves. */
    method CurrentEvidence(at: int) returns (out: seq<Finding>)
      requires Valid()
      modifies this
      ensures Valid() && forall f :: f in out <==> Current(source, scans, at, f)
    {
      var chains := Contributing(at);
      out := ChainEvidence(chains);
      ChainsAreCurrent(source, chains, scans, at);
    }
  }

  lemma NoChains(at: int)
    ensures AreChains(map[], [], at)
  {
  }

  /** One more scan extends or restarts the chain of its branch. */
  lemma ChainsGrow(chains: map<string, seq<Scan>>, front: seq<Scan>, s: Scan, at: int)
    requires AreChains(chains, front, at)
    ensures ObservedAt(s) > at ==> AreChains(chains, front + [s], at)
    ensures ObservedAt(s) <= at ==>
      var key := BranchKey(s);
      AreChains(chains[key := (if s.complete || key !in chains then [] else chains[key]) + [s]], front + [s], at)
  {
    hide BranchKey, HasBranch;
    BranchGrows(front, s, at);
    assert (front + [s])[..|front|] == front;
    ChainShape(front, at, BranchKey(s));
  }

  lemma BranchGrows(front: seq<Scan>, s: Scan, at: int)
    ensures forall key :: HasBranch(front + [s], at, key) <==> HasBranch(front, at, key) || Observed(s, at, key)
  {
    var scans := front + [s];
    forall key
      ensures HasBranch(scans, at, key) <==> HasBranch(front, at, key) || Observed(s, at, key)
    {
      assert forall k :: 0 <= k < |front| ==> scans[k] == front[k];
      assert scans[|front|] == s;
      if k :| 0 <= k < |front| && Observed(front[k], at, key) {
        assert Observed(scans[k], at, key);
      }
    }
  }

  /** The elements, each once, in some order. */
  method SetToSeq<T(==)>(s: set<T>) returns (out: seq<T>)
    ensures (forall x :: x in out <==> x in s) && |out| == |s|
  {
    var todo := s;
    out := [];
    while todo != {}
      invariant todo <= s && (forall x :: x in out <==> x in s && x !in todo) && |out| == |s| - |todo|
      decreases todo
    {
      var x :| x in todo;
      out := out + [x];
      todo := todo - {x};
    }
  }
}
