/** The custom build statements in columns: what each one tests and writes. */
module CustomBuildStatements {
  import opened Wrappers
  import opened Text
  import opened Tables
  import opened CustomBuilds

  // ---------- Creation ----------

  const CANONICAL := ["default", "jvm", "rust", "codeql"]

  /** Where the variant comes in the canonical order. */
  predicate At(variant: string, position: nat)
  {
    position < 4 && CANONICAL[position] == variant
  }

  ghost predicate Supported(variant: string)
  {
    exists position :: At(variant, position)
  }

  /** Some, all supported, in canonical order and so none twice. */
  ghost predicate Ordered(variants: seq<string>)
  {
    && variants != []
    && (forall i :: 0 <= i < |variants| ==> Supported(variants[i]))
    && forall i, j, p: nat, q: nat ::
         0 <= i < j < |variants| && At(variants[i], p) && At(variants[j], q) ==> p < q
  }

  lemma RankIs(variant: string)
    ensures forall p: nat :: Rank(variant) == Some(p) <==> At(variant, p)
  {
    assert CANONICAL[0] == "default" && CANONICAL[1] == "jvm" && CANONICAL[2] == "rust" && CANONICAL[3] == "codeql";
    assert |"jvm"| == 3 && |"rust"| == 4 && |"codeql"| == 6 && |"default"| == 7;
  }

  lemma VariantsExactly(variants: seq<string>)
    ensures ValidVariants(variants) <==> Ordered(variants)
  {
    hide Rank, At;
    forall i | 0 <= i < |variants|
      ensures forall p: nat :: Rank(variants[i]) == Some(p) <==> At(variants[i], p)
    {
      RankIs(variants[i]);
    }
    if ValidVariants(variants) {
      forall i | 0 <= i < |variants|
        ensures Supported(variants[i])
      {
        assert At(variants[i], Rank(variants[i]).value);
      }
      forall i, j, p: nat, q: nat | 0 <= i < j < |variants| && At(variants[i], p) && At(variants[j], q)
        ensures p < q
      {
        assert Rank(variants[i]) == Some(p) && Rank(variants[j]) == Some(q);
      }
    }
  }

  /** How a creation is answered, its checks in order, and what it writes. */
  lemma CreateAnswers(db: Database, q: Request, now: int)
    ensures var answer, budget := Create(db, q, now), if q.maxAttempts > 0 then q.maxAttempts else 3;
      if q.id == "" || q.idempotencyKey == "" || !Ordered(q.variants) || budget > 10 then answer == Err(Invalid)
      else if exists id :: id in db.builds && db.builds[id].idempotencyKey == q.idempotencyKey then
        answer == if forall id :: id in db.builds && db.builds[id].idempotencyKey == q.idempotencyKey ==>
                       db.builds[id].requestDigest == q.digest then Ok(db)
                  else Err(IdempotencyConflict)
      else if q.id in db.builds then answer == Err(DuplicateKey)
      else
        && answer.Ok? && var after := answer.value;
        && after == db.(builds := after.builds, variants := after.variants, commands := after.commands)
        && after.builds == db.builds[q.id :=
             Build(q.id, q.idempotencyKey, q.digest, Queued, "", "", None, None, 0, budget, now, None, "", 1,
                   None, None, now)]
        && after.commands == db.commands[(q.id, q.idempotencyKey) := Queued]
        && (forall k :: k in after.variants <==> k in db.variants || (k.0 == q.id && k.1 in q.variants))
        && forall k :: k in after.variants ==>
             after.variants[k] == if k.0 == q.id && k.1 in q.variants then
                                    Variant(VariantQueued, [], "", false, false, "", None, None, 1)
                                  else db.variants[k]
  {
    hide Ordered, ValidVariants;
    VariantsExactly(q.variants);
  }

  // ---------- Claim ----------

  /** Queued and due, not cancelled, with attempts left. */
  predicate Due(b: Build, now: int)
  {
    b.state == Queued && b.cancelRequestedAt == None && b.availableAt <= now && b.attempt < b.maxAttempts
  }

  predicate Sooner(a: Build, b: Build)
  {
    if a.availableAt != b.availableAt then a.availableAt < b.availableAt
    else if a.createdAt != b.createdAt then a.createdAt < b.createdAt
    else Less(a.id, b.id)
  }

  /** The build claimed is the first in line of those due, and one is claimed whenever any is due. */
  lemma ClaimedExactly(db: Database, now: int, id: string)
    requires forall b :: b in db.builds ==> db.builds[b].id == b
    ensures NextBuild(db, now) == Some(id) <==>
      && id in db.builds && Due(db.builds[id], now)
      && forall b :: b in db.builds && b != id && Due(db.builds[b], now) ==> Sooner(db.builds[id], db.builds[b])
    ensures NextBuild(db, now) == None <==> forall b :: b in db.builds ==> !Due(db.builds[b], now)
  {
    hide Less;
    forall b
      ensures ClaimableAt(now)(b) <==> Due(b, now)
    {
    }
    forall a, b
      ensures NextInLine()(a, b) <==> Sooner(a, b)
    {
    }
    hide ClaimableAt, NextInLine, Due, Sooner;
    NextInLineOrders(db, ClaimableAt(now));
    FirstSome(db.builds, ClaimableAt(now), NextInLine());
  }

  lemma ClaimWrites(db: Database, worker: string, token: string, until: int, now: int)
    requires forall b :: b in db.builds ==> db.builds[b].id == b
    ensures TrimSpace(worker) == "" || until <= now || NextBuild(db, now) == None ==>
      ClaimNext(db, worker, token, until, now) == db
    ensures NextBuild(db, now) != None ==> NextBuild(db, now).value in db.builds
    ensures TrimSpace(worker) != "" && until > now && NextBuild(db, now) != None ==>
      var id, b := NextBuild(db, now).value, db.builds[NextBuild(db, now).value];
      ClaimNext(db, worker, token, until, now)
      == db.(builds := db.builds[id :=
               b.(state := Claimed, workerId := worker, leaseToken := token, leaseExpiresAt := Some(until),
                  heartbeatAt := Some(now), attempt := b.attempt + 1, errorClass := "", version := b.version + 1)],
             issuedTokens := db.issuedTokens + {token})
  {
    hide TrimSpace, First;
    ClaimedExactly(db, now, if NextBuild(db, now).Some? then NextBuild(db, now).value else "");
  }

  // ---------- Leases ----------

  /** The token holds a lease that ends after the time given. */
  predicate Held(b: Build, token: string, at: int)
  {
    && b.leaseToken == token
    && match b.leaseExpiresAt
       case Some(end) => at < end
       case None => false
  }

  function FirstTime(recorded: Option<int>, at: int): Option<int>
  {
    match recorded
    case None => Some(at)
    case Some(_) => recorded
  }

  lemma StartExactly(db: Database, id: string, token: string, at: int)
    ensures Start(db, id, token, at)
      == if id == "" || token == "" then Err(Invalid)
         else if id !in db.builds then Err(NoRows)
         else
           var b := db.builds[id];
           if b.state == Claimed && Held(b, token, at) && b.cancelRequestedAt == None then
             Ok(db.(builds := db.builds[id :=
               b.(state := Running, startedAt := FirstTime(b.startedAt, at), version := b.version + 1)]))
           else Err(LeaseNotOwned)
  {
  }

  /** A late owner still renews, unless a cancellation was asked for. */
  lemma HeartbeatExactly(db: Database, id: string, token: string, until: int, now: int)
    ensures Heartbeat(db, id, token, until, now)
      == if now < until && id in db.builds && db.builds[id].leaseToken == token
            && db.builds[id].state in {Claimed, Running} && db.builds[id].cancelRequestedAt == None then
           db.(builds := db.builds[id := db.builds[id].(heartbeatAt := Some(now), leaseExpiresAt := Some(until))])
         else db
  {
  }

  lemma StatusExactly(b: Build, token: string, now: int)
    ensures StatusOf(b, token, now)
      == LeaseStatus(Held(b, token, now) && b.state in {Claimed, Running}, b.cancelRequestedAt != None, b.state,
                     b.version)
  {
  }

  /** What keeps a worker's step from being applied. */
  lemma RefusalExactly(db: Database, id: string, token: string, at: int)
    ensures LeaseRefusal(db, id, token, at)
      == if id !in db.builds then Some(NoRows)
         else if !Held(db.builds[id], token, at) || db.builds[id].state !in {Claimed, Running} then Some(LeaseNotOwned)
         else if db.builds[id].cancelRequestedAt != None then Some(CancelPending)
         else None
  {
  }

  // ---------- Variants ----------

  lemma StartVariantExactly(db: Database, id: string, variant: string, token: string, at: int)
    ensures var refusal, key := LeaseRefusal(db, id, token, at), (id, variant);
      StartVariant(db, id, variant, token, at)
      == match refusal
         case Some(error) => Err(error)
         case None =>
           if key in db.variants && db.variants[key].state == VariantQueued then
             var v := db.variants[key];
             Ok(db.(variants := db.variants[key :=
               v.(state := VariantRunning, startedAt := FirstTime(v.startedAt, at), version := v.version + 1)]))
           else Err(VersionConflict)
  {
    hide LeaseRefusal;
  }

  /** The text without surrounding space, cut to the length. */
  function Cut(text: string, length: nat): string
  {
    if |TrimSpace(text)| <= length then TrimSpace(text) else TrimSpace(text)[..length]
  }

  lemma CompleteVariantExactly(db: Database, id: string, variant: string, token: string, outcome: Outcome, at: int)
    ensures var refusal, key := LeaseRefusal(db, id, token, at), (id, variant);
      CompleteVariant(db, id, variant, token, outcome, at)
      == match refusal
         case Some(error) => Err(error)
         case None =>
           if key in db.variants && db.variants[key].state == VariantRunning then
             var v := db.variants[key];
             Ok(db.(variants := db.variants[key :=
               Variant(if outcome.errorClass == "" then VariantCompleted else VariantFailed, outcome.refs,
                       outcome.digest, outcome.loadedLocally, outcome.pushed, Cut(outcome.errorClass, 64), v.startedAt,
                       Some(at), v.version + 1)]))
           else Err(VersionConflict)
  {
    hide LeaseRefusal, TrimSpace;
  }

  /** How an append is answered, its checks in order, and the row it adds. */
  lemma AppendLogAnswers(db: Database, id: string, variant: string, token: string, line: string, at: int)
    ensures var answer, refusal := AppendLog(db, id, variant, token, line, at), LeaseRefusal(db, id, token, at);
      var logs := if id in db.logs then db.logs[id] else [];
      if |line| > 8192 then answer == Err(Invalid)
      else if refusal != None then answer == Err(refusal.value)
      else if |logs| >= 4000 || LogCharacters(logs) + |line| > 4194304 then answer == Err(LogBudget)
      else
        && answer.Ok? && answer.value == db.(logs := answer.value.logs)
        && id in answer.value.logs && answer.value.logs == db.logs[id := answer.value.logs[id]]
        && answer.value.logs[id] == logs + [Log(MaxSequence(logs) + 1, variant, line)]
  {
    hide LeaseRefusal, LogCharacters, MaxSequence;
  }

  /** The largest sequence number of the log, 0 when it is empty. */
  lemma {:induction false} MaxSequenceExactly(logs: seq<Log>)
    ensures logs == [] ==> MaxSequence(logs) == 0
    ensures logs != [] ==> exists i :: 0 <= i < |logs| && logs[i].sequence == MaxSequence(logs)
    ensures forall i :: 0 <= i < |logs| ==> logs[i].sequence <= MaxSequence(logs)
  {
    if logs != [] {
      var last, front := |logs| - 1, logs[..|logs| - 1];
      MaxSequenceExactly(front);
      assert forall i :: 0 <= i < |front| ==> front[i] == logs[i];
      if front == [] || logs[last].sequence > MaxSequence(front) {
        assert logs[last].sequence == MaxSequence(logs);
      } else {
        var i :| 0 <= i < |front| && front[i].sequence == MaxSequence(front);
        assert logs[i].sequence == MaxSequence(logs);
      }
    }
  }

  /** Each stored line adds its characters, and its bytes. */
  lemma SizesExactly(logs: seq<Log>, last: Log)
    ensures LogCharacters([]) == 0 && LogBytes([]) == 0
    ensures LogCharacters(logs + [last]) == LogCharacters(logs) + Characters(last.line)
    ensures LogBytes(logs + [last]) == LogBytes(logs) + |last.line|
  {
    assert (logs + [last])[..|logs|] == logs;
  }

  // ---------- Finalize, cancel, retry, reclaim ----------

  predicate Some1(db: Database, id: string, s: VariantState)
  {
    exists v :: v in db.variants && v.0 == id && db.variants[v].state == s
  }

  /** The variants of the build in one of the states are cancelled. */
  function CancelledAmong(db: Database, id: string, states: set<VariantState>,
      at: int): map<(string, string), Variant>
  {
    map k | k in db.variants ::
      if k.0 == id && db.variants[k].state in states then
        db.variants[k].(state := VariantCancelled, completedAt := Some(at), version := db.variants[k].version + 1)
      else db.variants[k]
  }

  /** How a finalization is answered, its checks in order, and what it writes. */
  lemma FinalizeAnswers(db: Database, id: string, token: string, at: int)
    ensures var answer := Finalize(db, id, token, at);
      if id !in db.builds then answer == Err(NoRows)
      else
        var b := db.builds[id];
        var cancelled, failed := b.cancelRequestedAt != None, Some1(db, id, VariantFailed);
        if !Held(b, token, at) then answer == Err(LeaseNotOwned)
        else if !cancelled && !failed && (Some1(db, id, VariantQueued) || Some1(db, id, VariantRunning)) then
          answer == Err(NotTerminal)
        else if b.state !in {Claimed, Running} then answer == Err(LeaseNotOwned)
        else
          var state := if cancelled then Cancelled
                       else if !failed then Completed
                       else if Some1(db, id, VariantCompleted) then Partial
                       else Failed;
          answer == Ok(db.(
            variants := if cancelled then CancelledAmong(db, id, {VariantQueued, VariantRunning}, at) else db.variants,
            builds := db.builds[id :=
              b.(state := state, workerId := "", leaseToken := "", leaseExpiresAt := None, heartbeatAt := None,
                 errorClass := if !cancelled && failed then "variant_failure" else "", completedAt := Some(at),
                 version := b.version + 1)]))
  {
    hide HasVariant, Some1, Restated, CancelledAmong;
    SomeIs(db, id);
    CancelledIs(db, id, Unfinished(), {VariantQueued, VariantRunning}, at);
  }

  lemma SomeIs(db: Database, id: string)
    ensures forall s :: HasVariant(db, id, s) <==> Some1(db, id, s)
  {
  }

  lemma CancelledIs(db: Database, id: string, p: Variant -> bool, states: set<VariantState>, at: int)
    requires forall v :: p(v) <==> v.state in states
    ensures Restated(db.variants, id, p, CancelledVariant(at)) == CancelledAmong(db, id, states, at)
  {
  }

  /** An earlier use of the key for the build. */
  function Used(db: Database, id: string, key: string): Option<BuildState>
  {
    if key != "" && (id, key) in db.commands then Some(db.commands[(id, key)]) else None
  }

  /** The table of used keys after a command that names one. */
  function Recorded(db: Database, id: string, key: string, state: BuildState): map<(string, string), BuildState>
  {
    if key != "" then db.commands[(id, key) := state] else db.commands
  }

  lemma KeysExactly(db: Database, id: string, key: string, intended: BuildState)
    ensures EarlierCommand(db, id, key, intended)
      == match Used(db, id, key)
         case None => Unused
         case Some(state) => if state == intended then Replayed else Conflicting
    ensures WithCommand(db, id, key, intended) == db.(commands := Recorded(db, id, key, intended))
  {
  }

  /** How a cancellation is answered, its checks in order, and what it writes. */
  lemma CancelAnswers(db: Database, id: string, version: int, key: string, at: int)
    ensures var answer := Cancel(db, id, version, key, at);
      if id !in db.builds then answer == Err(NoRows)
      else
        var b, used := db.builds[id], Used(db, id, key);
        var state := if b.state == Queued then Cancelled else b.state;
        if used == Some(state) then answer == Ok(db)
        else if used != None then answer == Err(IdempotencyConflict)
        else if b.version != version then answer == Err(VersionConflict)
        else if b.state in {Completed, Partial, Failed, Cancelled} then answer == Err(InvalidTransition)
        else answer == Ok(db.(
          variants := if b.state == Queued then CancelledAmong(db, id, {VariantQueued}, at) else db.variants,
          builds := db.builds[id :=
            b.(state := state, cancelRequestedAt := Some(at), version := b.version + 1,
               completedAt := if b.state == Queued then Some(at) else b.completedAt)],
          commands := Recorded(db, id, key, state)))
  {
    hide Restated, CancelledAmong, EarlierCommand, WithCommand, Used, Recorded;
    if id in db.builds {
      var state := if db.builds[id].state == Queued then Cancelled else db.builds[id].state;
      KeysExactly(db, id, key, state);
      CancelledIs(db, id, InState(VariantQueued), {VariantQueued}, at);
      KeysExactlyLater(db, id, key, at);
    }
  }

  /** Recording a key does not depend on the other tables. */
  lemma KeysExactlyLater(db: Database, id: string, key: string, at: int)
    ensures forall other: Database, s :: other.commands == db.commands ==>
      WithCommand(other, id, key, s) == other.(commands := Recorded(db, id, key, s))
  {
  }

  /** How a retry is answered, its checks in order, and what it writes. */
  lemma RetryAnswers(db: Database, id: string, version: int, key: string, at: int)
    ensures var answer := Retry(db, id, version, key, at);
      if id !in db.builds then answer == Err(NoRows)
      else
        var b, used := db.builds[id], Used(db, id, key);
        if used == Some(Queued) then answer == Ok(db)
        else if used != None then answer == Err(IdempotencyConflict)
        else if b.version != version then answer == Err(VersionConflict)
        else if b.state !in {Failed, Partial} then answer == Err(InvalidTransition)
        else if b.attempt >= b.maxAttempts then answer == Err(BudgetExhausted)
        else answer == Ok(db.(
          variants := RetriedAmong(db, id),
          builds := db.builds[id :=
            b.(state := Queued, workerId := "", leaseToken := "", leaseExpiresAt := None, heartbeatAt := None,
               availableAt := at, cancelRequestedAt := None, errorClass := "", completedAt := None,
               version := b.version + 1)],
          commands := Recorded(db, id, key, Queued)))
  {
    hide Restated, RetriedAmong, EarlierCommand, WithCommand, Used, Recorded;
    KeysExactly(db, id, key, Queued);
    KeysExactlyLater(db, id, key, at);
    RetriedIs(db, id);
  }

  /** The failed variants of the build start over, as if never tried but for the version. */
  function RetriedAmong(db: Database, id: string): map<(string, string), Variant>
  {
    map k | k in db.variants ::
      if k.0 == id && db.variants[k].state == VariantFailed then
        Variant(VariantQueued, [], "", false, false, "", None, None, db.variants[k].version + 1)
      else db.variants[k]
  }

  lemma RetriedIs(db: Database, id: string)
    ensures Restated(db.variants, id, InState(VariantFailed), RetriedVariant()) == RetriedAmong(db, id)
  {
  }

  /** In hand, with a lease that has ended. */
  predicate Lost(b: Build, now: int)
  {
    && b.state in {Claimed, Running}
    && match b.leaseExpiresAt
       case Some(end) => end <= now
       case None => false
  }

  /** Where losing the worker takes a build. */
  function LostTo(b: Build): BuildState
  {
    if b.cancelRequestedAt != None then Cancelled else if b.attempt < b.maxAttempts then Queued else Failed
  }

  function AfterLeaseEnd(b: Build, now: int): Build
  {
    if Lost(b, now) then
      b.(state := LostTo(b), workerId := "", leaseToken := "", leaseExpiresAt := None, heartbeatAt := None,
         availableAt := now, errorClass := if LostTo(b) == Failed then "worker_lost" else "",
         completedAt := if LostTo(b) == Queued then None else Some(now), version := b.version + 1)
    else b
  }

  function VariantAfterLeaseEnd(db: Database, k: (string, string), now: int): Variant
    requires k in db.variants
  {
    var v := db.variants[k];
    if k.0 in db.builds && Lost(db.builds[k.0], now) && LostTo(db.builds[k.0]) == Queued && v.state == VariantRunning
    then
      v.(state := VariantQueued, startedAt := None, completedAt := None, errorClass := "", version := v.version + 1)
    else v
  }

  lemma ReclaimExactly(db: Database, now: int)
    ensures var after := Reclaim(db, now);
      && after == db.(builds := after.builds, variants := after.variants)
      && after.builds.Keys == db.builds.Keys && after.variants.Keys == db.variants.Keys
      && (forall id :: id in db.builds ==> after.builds[id] == AfterLeaseEnd(db.builds[id], now))
      && forall k :: k in db.variants ==> after.variants[k] == VariantAfterLeaseEnd(db, k, now)
  {
  }

  /** The number reclaimed is the number of builds that changed. */
  lemma ReclaimCountsChanges(db: Database, now: int)
    ensures (set id | id in db.builds && Stale(db.builds[id], now))
         == (set id | id in db.builds && id in Reclaim(db, now).builds && Reclaim(db, now).builds[id] != db.builds[id])
  {
    forall id | id in db.builds
      ensures Stale(db.builds[id], now) <==> Reclaim(db, now).builds[id] != db.builds[id]
    {
    }
  }
}
