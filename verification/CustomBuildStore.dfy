/**
 The custom build repository, statement by statement. A transaction works on a copy of the tables and
 commits it, so it takes effect as a whole or not at all; rows are visited in no particular order.
 Each method is proved to be the transaction `CustomBuilds` specifies.
*/
module CustomBuildStore {
  import opened Wrappers
  import opened Text
  import opened Tables
  import opened CustomBuilds

  class ReleaseRepository {
    var db: Database

    ghost predicate Valid()
      reads this
    {
      && (forall id :: id in db.builds ==> db.builds[id].id == id)
      && forall a, b :: a in db.builds && b in db.builds && a != b ==>
           db.builds[a].idempotencyKey != db.builds[b].idempotencyKey
    }

    method CreateCustomBuild(q: Request, now: int) returns (r: Result<bool, BuildError>)
      requires Valid()
      modifies this
      ensures Valid()
      ensures var spec := Create(old(db), q, now);
        && db == (if spec.Ok? then spec.value else old(db))
        && r == (if spec.Ok? then Ok(spec.value != old(db)) else Err(spec.error))
    {
      hide ValidVariants, NewVariants;
      var valid := CheckVariants(q.variants);
      if !valid || q.id == "" || q.idempotencyKey == "" {
        return Err(Invalid);
      }
      var attempts := q.maxAttempts;
      if attempts <= 0 {
        attempts := 3;
      }
      if attempts > 10 {
        return Err(Invalid);
      }
      var earlier := SelectWhere(db.builds, (b: Build) => WithKey(b, q.idempotencyKey));
      if earlier != {} {
        var id :| id in earlier;
        assert forall other :: other in db.builds && WithKey(db.builds[other], q.idempotencyKey) ==> other == id;
        if db.builds[id].requestDigest != q.digest {
          return Err(IdempotencyConflict);
        }
        return Ok(false);
      }
      assert forall id :: id in db.builds && WithKey(db.builds[id], q.idempotencyKey) ==> id in earlier;
      if q.id in db.builds {
        return Err(DuplicateKey);
      }
      var variants := InsertVariants(db.variants, q.id, q.variants);
      db := db.(builds := db.builds[q.id := NewBuild(q, now)], variants := variants,
                commands := db.commands[(q.id, q.idempotencyKey) := Queued]);
      r := Ok(true);
    }

    static method InsertVariants(variants: map<(string, string), Variant>, id: string, names: seq<string>)
      returns (out: map<(string, string), Variant>)
      ensures out == variants + NewVariants(id, names)
    {
      hide NewVariants;
      out := variants;
      NoNewVariants(variants, id);
      for i := 0 to |names|
        invariant out == variants + NewVariants(id, names[..i])
      {
        assert names[..i + 1] == names[..i] + [names[i]];
        OneMoreVariant(variants, id, names[..i], names[i]);
        out := out[(id, names[i]) := NEW_VARIANT];
      }
      assert names[..|names|] == names;
    }

    static method CheckVariants(variants: seq<string>) returns (valid: bool)
      ensures valid <==> ValidVariants(variants)
    {
      if variants == [] {
        return false;
      }
      for i := 0 to |variants|
        invariant forall k :: 0 <= k < i ==> Rank(variants[k]).Some?
        invariant forall j, k :: 0 <= j < k < i ==> Rank(variants[j]).value < Rank(variants[k]).value
      {
        if Rank(variants[i]).None? || (i > 0 && Rank(variants[i - 1]).value >= Rank(variants[i]).value) {
          return false;
        }
      }
      valid := true;
    }

    method ClaimNextCustomBuild(worker: string, token: string, until: int, now: int)
        returns (r: Result<Option<Build>, BuildError>)
      requires Valid()
      modifies this
      ensures db == ClaimNext(old(db), worker, token, until, now)
      ensures r.Err? <==> TrimSpace(worker) == "" || until <= now
      ensures r.Err? ==> r.error == Invalid
      ensures r.Ok? ==> (r.value.Some? <==> NextBuild(old(db), now).Some?)
      ensures r.Ok? && r.value.Some? ==> NextBuild(old(db), now).value in db.builds
      ensures r.Ok? && r.value.Some? ==> r.value.value == db.builds[NextBuild(old(db), now).value]
    {
      if TrimSpace(worker) == "" || until <= now {
        return Err(Invalid);
      }
      NextInLineOrders(db, ClaimableAt(now));
      var id := SelectFirst(db.builds, ClaimableAt(now), NextInLine());
      if id.None? {
        return Ok(None);
      }
      var row := db.builds[id.value];
      row := row.(state := Claimed, workerId := worker, leaseToken := token, leaseExpiresAt := Some(until),
                  heartbeatAt := Some(now), attempt := row.attempt + 1, errorClass := "", version := row.version + 1);
      db := WithBuild(db, id.value, row).(issuedTokens := db.issuedTokens + {token});
      r := Ok(Some(row));
    }

    method StartCustomBuild(id: string, token: string, at: int) returns (error: Option<BuildError>)
      modifies this
      ensures db == (if Start(old(db), id, token, at).Ok? then Start(old(db), id, token, at).value else old(db))
      ensures error == if Start(old(db), id, token, at).Ok? then None else Some(Start(old(db), id, token, at).error)
    {
      if id == "" || token == "" {
        return Some(Invalid);
      }
      if id !in db.builds {
        return Some(NoRows);
      }
      var b := db.builds[id];
      if !b.state.Claimed? || b.leaseToken != token || b.leaseExpiresAt.None? || b.leaseExpiresAt.value <= at
        || b.cancelRequestedAt.Some? {
        return Some(LeaseNotOwned);
      }
      if b.startedAt.None? {
        b := b.(startedAt := Some(at));
      }
      db := WithBuild(db, id, b.(state := Running, version := b.version + 1));
      error := None;
    }

    /** Reports what the build looks like to the token's owner afterwards. */
    method HeartbeatCustomBuild(id: string, token: string, until: int, now: int)
        returns (r: Result<LeaseStatus, BuildError>)
      modifies this
      ensures db == Heartbeat(old(db), id, token, until, now)
      ensures r == if until <= now then Err(Invalid) else if id !in db.builds then Err(NoRows)
        else Ok(StatusOf(db.builds[id], token, now))
    {
      if until <= now {
        return Err(Invalid);
      }
      if Renews(db, id, token) {
        db := WithBuild(db, id, db.builds[id].(heartbeatAt := Some(now), leaseExpiresAt := Some(until)));
      }
      if id !in db.builds {
        return Err(NoRows);
      }
      var b := db.builds[id];
      var current := b.leaseToken == token && b.leaseExpiresAt.Some? && b.leaseExpiresAt.value > now
        && (b.state.Claimed? || b.state.Running?);
      r := Ok(LeaseStatus(current, b.cancelRequestedAt.Some?, b.state, b.version));
    }

    method StartCustomBuildVariant(id: string, variant: string, token: string, at: int)
        returns (error: Option<BuildError>)
      modifies this
      ensures var spec := StartVariant(old(db), id, variant, token, at);
        db == (if spec.Ok? then spec.value else old(db)) && error == if spec.Ok? then None else Some(spec.error)
    {
      error := LeaseRefusal(db, id, token, at);
      if error.Some? {
        return;
      }
      if (id, variant) !in db.variants || !db.variants[(id, variant)].state.VariantQueued? {
        return Some(VersionConflict);
      }
      var v := db.variants[(id, variant)];
      if v.startedAt.None? {
        v := v.(startedAt := Some(at));
      }
      db := db.(variants := db.variants[(id, variant) := v.(state := VariantRunning, version := v.version + 1)]);
    }

    method CompleteCustomBuildVariant(id: string, variant: string, token: string, outcome: Outcome, at: int)
      returns (error: Option<BuildError>)
      modifies this
      ensures var spec := CompleteVariant(old(db), id, variant, token, outcome, at);
        db == (if spec.Ok? then spec.value else old(db)) && error == if spec.Ok? then None else Some(spec.error)
    {
      error := LeaseRefusal(db, id, token, at);
      if error.Some? {
        return;
      }
      var state := VariantCompleted;
      if outcome.errorClass != "" {
        state := VariantFailed;
      }
      if (id, variant) !in db.variants || !db.variants[(id, variant)].state.VariantRunning? {
        return Some(VersionConflict);
      }
      var v := db.variants[(id, variant)];
      db := db.(variants := db.variants[(id, variant) :=
        Variant(state, outcome.refs, outcome.digest, outcome.loadedLocally, outcome.pushed,
                Bounded(outcome.errorClass, 64), v.startedAt, Some(at), v.version + 1)]);
    }

    method AppendCustomBuildLog(id: string, variant: string, token: string, line: string, at: int)
      returns (error: Option<BuildError>)
      modifies this
      ensures var spec := AppendLog(old(db), id, variant, token, line, at);
        db == (if spec.Ok? then spec.value else old(db)) && error == if spec.Ok? then None else Some(spec.error)
    {
      if |line| > MAX_LINE {
        return Some(Invalid);
      }
      error := LeaseRefusal(db, id, token, at);
      if error.Some? {
        return;
      }
      var logs := LogsOf(db, id);
      var sequence, characters := Usage(logs);
      if |logs| >= MAX_LOG_LINES || characters + |line| > MAX_LOG_BYTES {
        return Some(LogBudget);
      }
      db := db.(logs := db.logs[id := logs + [Log(sequence + 1, variant, line)]]);
    }

    /** MAX(sequence) and SUM(LENGTH(line)). */
    static method Usage(logs: seq<Log>) returns (sequence: int, characters: nat)
      ensures sequence == MaxSequence(logs) && characters == LogCharacters(logs)
    {
      hide Characters;
      sequence, characters := 0, 0;
      for i := 0 to |logs|
        invariant sequence == MaxSequence(logs[..i]) && characters == LogCharacters(logs[..i])
      {
        assert logs[..i + 1][..i] == logs[..i];
        if i == 0 || logs[i].sequence > sequence {
          sequence := logs[i].sequence;
        }
        characters := characters + Characters(logs[i].line);
      }
      assert logs[..|logs|] == logs;
    }

    method FinalizeCustomBuild(id: string, token: string, at: int) returns (error: Option<BuildError>)
      modifies this
      ensures var spec := Finalize(old(db), id, token, at);
        db == (if spec.Ok? then spec.value else old(db)) && error == if spec.Ok? then None else Some(spec.error)
    {
      hide Restated, HasVariant;
      if id !in db.builds {
        return Some(NoRows);
      }
      var b := db.builds[id];
      if b.leaseToken != token || b.leaseExpiresAt.None? || b.leaseExpiresAt.value <= at {
        return Some(LeaseNotOwned);
      }
      var completed := CountVariants(db, id, VariantCompleted);
      var failed := CountVariants(db, id, VariantFailed);
      var queued := CountVariants(db, id, VariantQueued);
      var running := CountVariants(db, id, VariantRunning);
      var state := Completed;
      var variants := db.variants;
      if b.cancelRequestedAt.Some? {
        state := Cancelled;
        variants := UpdateVariants(db.variants, id, Unfinished(), CancelledVariant(at));
      } else if failed > 0 && completed > 0 {
        state := Partial;
      } else if failed > 0 {
        state := Failed;
      } else if queued > 0 || running > 0 {
        return Some(NotTerminal);
      }
      if !InHand(b.state) {
        return Some(LeaseNotOwned);
      }
      db := WithBuild(db.(variants := variants), id, Released(b, state, at));
      error := None;
    }

    static method CountVariants(db: Database, id: string, s: VariantState) returns (n: nat)
      ensures n == |VariantsIn(db.variants, id, s)| && (n > 0 <==> HasVariant(db, id, s))
    {
      n := |VariantsIn(db.variants, id, s)|;
      AnyVariant(db, id, s);
    }

    static method UpdateVariants(variants: map<(string, string), Variant>, id: string,
        p: Variant -> bool, f: Variant -> Variant)
      returns (out: map<(string, string), Variant>)
      ensures out == Restated(variants, id, p, f)
    {
      var todo := variants.Keys;
      out := variants;
      while todo != {}
        invariant todo <= variants.Keys && out.Keys == variants.Keys
        invariant forall key :: key in variants ==>
          out[key] == if key !in todo && key.0 == id && p(variants[key]) then f(variants[key]) else variants[key]
        decreases todo
      {
        var key :| key in todo;
        if key.0 == id && p(out[key]) {
          out := out[key := f(out[key])];
        }
        todo := todo - {key};
      }
    }

    method RequestCustomBuildCancellation(id: string, expectedVersion: int, key: string, at: int)
        returns (error: Option<BuildError>)
      modifies this
      ensures var spec := Cancel(old(db), id, expectedVersion, key, at);
        db == (if spec.Ok? then spec.value else old(db)) && error == if spec.Ok? then None else Some(spec.error)
    {
      hide Restated;
      if id !in db.builds {
        return Some(NoRows);
      }
      var b := db.builds[id];
      match EarlierCommand(db, id, key, if b.state.Queued? then Cancelled else b.state)
      case Replayed => return None;
      case Conflicting => return Some(IdempotencyConflict);
      case Unused =>
      if b.version != expectedVersion {
        return Some(VersionConflict);
      }
      if Terminal(b.state) {
        return Some(InvalidTransition);
      }
      var tx := db;
      if b.state.Queued? {
        var variants := UpdateVariants(tx.variants, id, InState(VariantQueued), CancelledVariant(at));
        tx := tx.(variants := variants);
        b := b.(state := Cancelled, completedAt := Some(at));
      }
      tx := WithBuild(tx, id, b.(cancelRequestedAt := Some(at), version := b.version + 1));
      if key != "" {
        tx := tx.(commands := tx.commands[(id, key) := b.state]);
      }
      db := tx;
      error := None;
    }

    /** Only failed variants start over; completed ones keep their result. */
    method RetryCustomBuild(id: string, expectedVersion: int, key: string, at: int) returns (error: Option<BuildError>)
      modifies this
      ensures var spec := Retry(old(db), id, expectedVersion, key, at);
        db == (if spec.Ok? then spec.value else old(db)) && error == if spec.Ok? then None else Some(spec.error)
    {
      hide Restated;
      if id !in db.builds {
        return Some(NoRows);
      }
      var b := db.builds[id];
      match EarlierCommand(db, id, key, Queued)
      case Replayed => return None;
      case Conflicting => return Some(IdempotencyConflict);
      case Unused =>
      if b.version != expectedVersion {
        return Some(VersionConflict);
      }
      if !b.state.Failed? && !b.state.Partial? {
        return Some(InvalidTransition);
      }
      if b.attempt >= b.maxAttempts {
        return Some(BudgetExhausted);
      }
      var variants := UpdateVariants(db.variants, id, InState(VariantFailed), RetriedVariant());
      var tx := WithBuild(db.(variants := variants), id,
                          b.(state := Queued, workerId := "", leaseToken := "", leaseExpiresAt := None,
                             heartbeatAt := None, availableAt := at, cancelRequestedAt := None, errorClass := "",
                             completedAt := None, version := b.version + 1));
      if key != "" {
        tx := tx.(commands := tx.commands[(id, key) := Queued]);
      }
      db := tx;
      error := None;
    }

    method ReclaimStaleCustomBuilds(now: int) returns (reclaimed: nat)
      modifies this
      ensures db == Reclaim(old(db), now)
      ensures reclaimed == |set id | id in old(db).builds && Stale(old(db).builds[id], now)|
    {
      db, reclaimed := ReclaimRows(db, now);
    }

    static method ReclaimRows(db: Database, now: int) returns (tx: Database, reclaimed: nat)
      ensures tx == Reclaim(db, now)
      ensures reclaimed == |set id | id in db.builds && Stale(db.builds[id], now)|
    {
      hide Stale, LostRow, AfterLoss, Reclaiming, Restated, Reclaim;
      var stale := set id | id in db.builds && Stale(db.builds[id], now);
      var todo := stale;
      tx, reclaimed := db, 0;
      ReclaimNone(db, now);
      while todo != {}
        invariant todo <= stale && reclaimed == |stale| - |todo|
        invariant Reclaiming(db, tx, now, stale - todo)
        decreases todo
      {
        var id :| id in todo;
        var b := db.builds[id];
        ReclaimOne(db, tx, now, stale - todo, id);
        var variants := tx.variants;
        if AfterLoss(b).Queued? {
          variants := UpdateVariants(tx.variants, id, InState(VariantRunning), RequeuedVariant());
        }
        tx := tx.(builds := tx.builds[id := LostRow(b, now)], variants := variants);
        assert stale - (todo - {id}) == (stale - todo) + {id};
        todo, reclaimed := todo - {id}, reclaimed + 1;
      }
      assert stale - {} == stale;
      ReclaimAll(db, tx, now, stale);
    }
  }

  lemma NoNewVariants(variants: map<(string, string), Variant>, id: string)
    ensures variants + NewVariants(id, []) == variants
  {
  }

  lemma OneMoreVariant(variants: map<(string, string), Variant>, id: string, names: seq<string>, name: string)
    ensures variants + NewVariants(id, names + [name]) == (variants + NewVariants(id, names))[(id, name) := NEW_VARIANT]
  {
  }

  lemma ReclaimNone(db: Database, now: int)
    ensures forall stale: set<string> :: Reclaiming(db, db, now, stale - stale)
  {
    hide LostRow, AfterLoss;
  }

  function VariantsIn(variants: map<(string, string), Variant>, id: string, s: VariantState): set<(string, string)>
  {
    set key | key in variants && key.0 == id && variants[key].state == s
  }

  lemma AnyVariant(db: Database, id: string, s: VariantState)
    ensures HasVariant(db, id, s) <==> |VariantsIn(db.variants, id, s)| > 0
  {
    if key :| key in db.variants && key.0 == id && db.variants[key].state == s {
      assert key in VariantsIn(db.variants, id, s);
    }
  }

  /** The stale builds in `done` have been taken from their workers. */
  ghost predicate Reclaiming(db: Database, tx: Database, now: int, done: set<string>)
  {
    && tx == db.(builds := tx.builds, variants := tx.variants)
    && tx.builds.Keys == db.builds.Keys && tx.variants.Keys == db.variants.Keys
    && (forall id :: id in db.builds ==>
      tx.builds[id] == if id in done then LostRow(db.builds[id], now) else db.builds[id])
    && (forall key :: key in db.variants ==> tx.variants[key] == VariantAfter(db, now, done, key))
  }

  function VariantAfter(db: Database, now: int, done: set<string>, key: (string, string)): Variant
    requires key in db.variants
  {
    if key.0 in done && key.0 in db.builds && AfterLoss(db.builds[key.0]).Queued?
      && db.variants[key].state.VariantRunning? then
      RequeuedVariant()(db.variants[key])
    else db.variants[key]
  }

  lemma ReclaimOne(db: Database, tx: Database, now: int, done: set<string>, id: string)
    requires Reclaiming(db, tx, now, done) && id in db.builds && id !in done
    ensures var variants := if AfterLoss(db.builds[id]).Queued? then
      Restated(tx.variants, id, InState(VariantRunning), RequeuedVariant()) else tx.variants;
      Reclaiming(db, tx.(builds := tx.builds[id := LostRow(db.builds[id], now)], variants := variants), now,
        done + {id})
  {
    hide LostRow, AfterLoss, RequeuedVariant, InState, VariantAfter;
    forall key | key in db.variants
      ensures VariantAfter(db, now, done + {id}, key)
        == if AfterLoss(db.builds[id]).Queued? && key.0 == id && InState(VariantRunning)(tx.variants[key]) then
          RequeuedVariant()(tx.variants[key]) else tx.variants[key]
    {
      VariantOnce(db, now, done, id, key);
    }
  }

  lemma VariantOnce(db: Database, now: int, done: set<string>, id: string, key: (string, string))
    requires key in db.variants && id in db.builds && id !in done
    ensures var v := VariantAfter(db, now, done, key);
      VariantAfter(db, now, done + {id}, key)
      == if AfterLoss(db.builds[id]).Queued? && key.0 == id && InState(VariantRunning)(v) then RequeuedVariant()(v)
         else v
  {
    hide AfterLoss, RequeuedVariant;
  }

  lemma ReclaimAll(db: Database, tx: Database, now: int, stale: set<string>)
    requires Reclaiming(db, tx, now, stale) && stale == set id | id in db.builds && Stale(db.builds[id], now)
    ensures tx == Reclaim(db, now)
  {
    hide LostRow, AfterLoss, Stale;
  }
}
