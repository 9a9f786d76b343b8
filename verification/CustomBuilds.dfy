/** Custom image builds: a leased build row, one row for each image variant, and a bounded log. */
module CustomBuilds {
  import opened Wrappers
  import opened Text
  import opened Tables

  const MAX_LOG_LINES := 4000
  const MAX_LOG_BYTES := 4 * 1024 * 1024
  const MAX_LINE := 8192

  datatype BuildState = Queued | Claimed | Running | Completed | Partial | Failed | Cancelled

  datatype VariantState = VariantQueued | VariantRunning | VariantCompleted | VariantFailed | VariantCancelled

  datatype Build = Build(
    id: string, idempotencyKey: string, requestDigest: string, state: BuildState,
    workerId: string, leaseToken: string, leaseExpiresAt: Option<int>, heartbeatAt: Option<int>,
    attempt: int, maxAttempts: int, availableAt: int, cancelRequestedAt: Option<int>,
    errorClass: string, version: int, startedAt: Option<int>, completedAt: Option<int>, createdAt: int)

  datatype Variant = Variant(state: VariantState, refs: seq<string>, digest: string, loadedLocally: bool, pushed: bool,
                             errorClass: string, startedAt: Option<int>, completedAt: Option<int>, version: int)

  datatype Log = Log(sequence: int, variant: string, line: string)

  /**
   Variant rows are keyed by build and variant name; commands holds the state each keyed command of
   a build led to.
  */
  datatype Database = Database(builds: map<string, Build>, variants: map<(string, string), Variant>,
      logs: map<string, seq<Log>>,
      commands: map<(string, string), BuildState>, issuedTokens: set<string>)

  datatype BuildError = Invalid | NoRows | IdempotencyConflict | DuplicateKey | LeaseNotOwned | CancelPending
    | VersionConflict | InvalidTransition | BudgetExhausted | LogBudget | NotTerminal

  // ---------- Creation ----------

  datatype Request = Request(id: string, idempotencyKey: string, digest: string, variants: seq<string>,
      maxAttempts: int)

  /** The canonical order of the image variants. */
  function Rank(variant: string): Option<nat>
  {
    if variant == "default" then Some(0) else if variant == "jvm" then Some(1)
    else if variant == "rust" then Some(2) else if variant == "codeql" then Some(3) else None
  }

  /** At least one variant, all supported, none twice, in canonical order. */
  predicate ValidVariants(variants: seq<string>)
  {
    && variants != [] && (forall i :: 0 <= i < |variants| ==> Rank(variants[i]).Some?)
    && forall i, j :: 0 <= i < j < |variants| ==> Rank(variants[i]).value < Rank(variants[j]).value
  }

  function AttemptBudget(requested: int): int
  {
    if requested <= 0 then 3 else requested
  }

  predicate ValidRequest(q: Request)
  {
    q.id != "" && q.idempotencyKey != "" && ValidVariants(q.variants) && AttemptBudget(q.maxAttempts) <= 10
  }

  predicate WithKey(b: Build, key: string)
  {
    b.idempotencyKey == key
  }

  const NEW_VARIANT := Variant(VariantQueued, [], "", false, false, "", None, None, 1)

  function NewBuild(q: Request, now: int): Build
  {
    Build(q.id, q.idempotencyKey, q.digest, Queued, "", "", None, None, 0, AttemptBudget(q.maxAttempts), now, None, "",
      1, None, None, now)
  }

  function NewVariants(id: string, names: seq<string>): map<(string, string), Variant>
  {
    map v | v in names :: (id, v) := NEW_VARIANT
  }

  function Created(db: Database, q: Request, now: int): Database
  {
    db.(builds := db.builds[q.id := NewBuild(q, now)],
        variants := db.variants + NewVariants(q.id, q.variants),
        commands := db.commands[(q.id, q.idempotencyKey) := Queued])
  }

  /** A key is accepted once; the same request is replayed, a different one refused. */
  function Create(db: Database, q: Request, now: int): Result<Database, BuildError>
  {
    if !ValidRequest(q) then Err(Invalid)
    else if exists id :: id in db.builds && WithKey(db.builds[id], q.idempotencyKey) then
      if forall id ::
        id in db.builds && WithKey(db.builds[id], q.idempotencyKey) ==>
          db.builds[id].requestDigest == q.digest then Ok(db)
      else Err(IdempotencyConflict)
    else if q.id in db.builds then Err(DuplicateKey)
    else Ok(Created(db, q, now))
  }

  // ---------- Leases ----------

  predicate Claimable(b: Build, now: int)
  {
    b.state.Queued? && b.availableAt <= now && b.cancelRequestedAt.None? && b.attempt < b.maxAttempts
  }

  function ClaimableAt(now: int): Build -> bool
  {
    (b: Build) => Claimable(b, now)
  }

  /** ORDER BY available_at, created_at, id */
  function NextInLine(): (Build, Build) -> bool
  {
    (a: Build, b: Build) =>
      a.availableAt < b.availableAt
      || (a.availableAt == b.availableAt
        && (a.createdAt < b.createdAt || (a.createdAt == b.createdAt && Less(a.id, b.id))))
  }

  ghost function NextBuild(db: Database, now: int): Option<string>
  {
    First(db.builds, ClaimableAt(now), NextInLine())
  }

  function WithBuild(db: Database, id: string, b: Build): Database
  {
    db.(builds := db.builds[id := b])
  }

  function ClaimedRow(b: Build, worker: string, token: string, until: int, now: int): Build
  {
    b.(state := Claimed, workerId := worker, leaseToken := token, leaseExpiresAt := Some(until),
       heartbeatAt := Some(now), attempt := b.attempt + 1, errorClass := "", version := b.version + 1)
  }

  ghost function ClaimNext(db: Database, worker: string, token: string, until: int, now: int): Database
  {
    if TrimSpace(worker) == "" || until <= now || NextBuild(db, now).None? then db
    else
      var id := NextBuild(db, now).value;
      WithBuild(db, id,
        ClaimedRow(db.builds[id], worker, token, until, now)).(issuedTokens := db.issuedTokens + {token})
  }

  predicate InHand(s: BuildState)
  {
    s.Claimed? || s.Running?
  }

  function Start(db: Database, id: string, token: string, at: int): Result<Database, BuildError>
  {
    if id == "" || token == "" then Err(Invalid)
    else if id !in db.builds then Err(NoRows)
    else
      var b := db.builds[id];
      if b.state.Claimed? && b.leaseToken == token && b.leaseExpiresAt.Some? && b.leaseExpiresAt.value > at
        && b.cancelRequestedAt.None? then
        Ok(WithBuild(db, id,
          b.(state := Running, startedAt := if b.startedAt.Some? then b.startedAt else Some(at),
            version := b.version + 1)))
      else Err(LeaseNotOwned)
  }

  /** A late owner may renew as long as nobody reclaimed the build. */
  predicate Renews(db: Database, id: string, token: string)
  {
    id in db.builds && db.builds[id].leaseToken == token && InHand(db.builds[id].state)
      && db.builds[id].cancelRequestedAt.None?
  }

  function Heartbeat(db: Database, id: string, token: string, until: int, now: int): Database
  {
    if until > now && Renews(db, id, token) then
      WithBuild(db, id, db.builds[id].(heartbeatAt := Some(now), leaseExpiresAt := Some(until)))
    else db
  }

  datatype LeaseStatus = LeaseStatus(current: bool, cancelRequested: bool, state: BuildState, version: int)

  /** Current means the token still holds a lease that has not run out. */
  function StatusOf(b: Build, token: string, now: int): LeaseStatus
  {
    LeaseStatus(b.leaseToken == token && b.leaseExpiresAt.Some? && b.leaseExpiresAt.value > now && InHand(b.state),
                b.cancelRequestedAt.Some?, b.state, b.version)
  }

  /** requireCustomBuildLeaseTx: what keeps a worker's step from being applied. */
  function LeaseRefusal(db: Database, id: string, token: string, at: int): Option<BuildError>
  {
    if id !in db.builds then Some(NoRows)
    else
      var b := db.builds[id];
      if b.leaseToken != token || b.leaseExpiresAt.None? || b.leaseExpiresAt.value <= at || !InHand(b.state) then
        Some(LeaseNotOwned)
      else if b.cancelRequestedAt.Some? then Some(CancelPending)
      else None
  }

  // ---------- Variants ----------

  /** What a worker reports for a variant; an error class means it failed. */
  datatype Outcome = Outcome(refs: seq<string>, digest: string, loadedLocally: bool, pushed: bool, errorClass: string)

  function StartVariant(db: Database, id: string, variant: string, token: string, at: int): Result<Database, BuildError>
  {
    var refusal := LeaseRefusal(db, id, token, at);
    if refusal.Some? then Err(refusal.value)
    else if (id, variant) !in db.variants || !db.variants[(id, variant)].state.VariantQueued? then Err(VersionConflict)
    else
      var v := db.variants[(id, variant)];
      Ok(db.(variants := db.variants[(id, variant) := v.(state := VariantRunning,
                                                         startedAt := if v.startedAt.Some? then v.startedAt
                                                           else Some(at),
                                                         version := v.version + 1)]))
  }

  function CompleteVariant(db: Database, id: string, variant: string, token: string, outcome: Outcome,
      at: int): Result<Database, BuildError>
  {
    var refusal := LeaseRefusal(db, id, token, at);
    if refusal.Some? then Err(refusal.value)
    else if (id, variant) !in db.variants || !db.variants[(id, variant)].state.VariantRunning? then Err(VersionConflict)
    else
      var v := db.variants[(id, variant)];
      Ok(db.(variants := db.variants[(id, variant) :=
               Variant(if outcome.errorClass != "" then VariantFailed else VariantCompleted, outcome.refs,
                       outcome.digest, outcome.loadedLocally, outcome.pushed, Bounded(outcome.errorClass, 64),
                       v.startedAt, Some(at), v.version + 1)]))
  }

  function Bounded(text: string, maximum: nat): string
  {
    var trimmed := TrimSpace(text);
    if |trimmed| > maximum then trimmed[..maximum] else trimmed
  }

  /** UPDATE ... WHERE build_id = ? AND p(state) */
  function Restated(variants: map<(string, string), Variant>, id: string,
      p: Variant -> bool, f: Variant -> Variant): map<(string, string), Variant>
  {
    map key | key in variants :: if key.0 == id && p(variants[key]) then f(variants[key]) else variants[key]
  }

  predicate HasVariant(db: Database, id: string, s: VariantState)
  {
    exists key :: key in db.variants && key.0 == id && db.variants[key].state == s
  }

  function Unfinished(): Variant -> bool
  {
    (v: Variant) => v.state.VariantQueued? || v.state.VariantRunning?
  }

  function InState(s: VariantState): Variant -> bool
  {
    (v: Variant) => v.state == s
  }

  function CancelledVariant(at: int): Variant -> Variant
  {
    (v: Variant) => v.(state := VariantCancelled, completedAt := Some(at), version := v.version + 1)
  }

  function RetriedVariant(): Variant -> Variant
  {
    (v: Variant) => Variant(VariantQueued, [], "", false, false, "", None, None, v.version + 1)
  }

  function RequeuedVariant(): Variant -> Variant
  {
    (v: Variant) =>
      v.(state := VariantQueued, startedAt := None, completedAt := None, errorClass := "", version := v.version + 1)
  }

  // ---------- Log ----------

  function LogsOf(db: Database, id: string): seq<Log>
  {
    if id in db.logs then db.logs[id] else []
  }

  /** SUM(LENGTH(line)): what the budget is checked against. */
  function LogCharacters(logs: seq<Log>): nat
  {
    if logs == [] then 0 else LogCharacters(logs[..|logs| - 1]) + Characters(logs[|logs| - 1].line)
  }

  /** What the lines really take. */
  function LogBytes(logs: seq<Log>): nat
  {
    if logs == [] then 0 else LogBytes(logs[..|logs| - 1]) + |logs[|logs| - 1].line|
  }

  function MaxSequence(logs: seq<Log>): int
  {
    if logs == [] then 0
    else
      var rest, last := MaxSequence(logs[..|logs| - 1]), logs[|logs| - 1].sequence;
      if |logs| == 1 || last > rest then last else rest
  }

  /** The stored lines count by characters, the new one by bytes. */
  function AppendLog(db: Database, id: string, variant: string, token: string, line: string,
      at: int): Result<Database, BuildError>
  {
    if |line| > MAX_LINE then Err(Invalid)
    else
      var refusal := LeaseRefusal(db, id, token, at);
      var logs := LogsOf(db, id);
      if refusal.Some? then Err(refusal.value)
      else if |logs| >= MAX_LOG_LINES || LogCharacters(logs) + |line| > MAX_LOG_BYTES then Err(LogBudget)
      else Ok(db.(logs := db.logs[id := logs + [Log(MaxSequence(logs) + 1, variant, line)]]))
  }

  // ---------- Finalize, cancel, retry, reclaim ----------

  /** The terminal state of a build whose lease is given up; None while variants are still to do and none failed. */
  function FinalState(db: Database, id: string, cancelled: bool): Option<BuildState>
  {
    if cancelled then Some(Cancelled)
    else if HasVariant(db, id, VariantFailed) then
      Some(if HasVariant(db, id, VariantCompleted) then Partial else Failed)
    else if HasVariant(db, id, VariantQueued) || HasVariant(db, id, VariantRunning) then None
    else Some(Completed)
  }

  function Released(b: Build, state: BuildState, at: int): Build
  {
    b.(state := state, workerId := "", leaseToken := "", leaseExpiresAt := None, heartbeatAt := None,
       errorClass := if state.Partial? || state.Failed? then "variant_failure" else "", completedAt := Some(at),
       version := b.version + 1)
  }

  function Finalize(db: Database, id: string, token: string, at: int): Result<Database, BuildError>
  {
    if id !in db.builds then Err(NoRows)
    else
      var b := db.builds[id];
      if b.leaseToken != token || b.leaseExpiresAt.None? || b.leaseExpiresAt.value <= at then Err(LeaseNotOwned)
      else
        var state := FinalState(db, id, b.cancelRequestedAt.Some?);
        if state.None? then Err(NotTerminal)
        else if !InHand(b.state) then Err(LeaseNotOwned)
        else
          var variants := if state.value.Cancelled? then Restated(db.variants, id, Unfinished(), CancelledVariant(at))
            else db.variants;
          Ok(WithBuild(db.(variants := variants), id, Released(b, state.value, at)))
  }

  predicate Terminal(s: BuildState)
  {
    s.Completed? || s.Partial? || s.Failed? || s.Cancelled?
  }

  /** existingCommandTx: a key used before for the intended state is replayed, for another state refused. */
  datatype Earlier = Unused | Replayed | Conflicting

  function EarlierCommand(db: Database, id: string, key: string, intended: BuildState): Earlier
  {
    if key == "" || (id, key) !in db.commands then Unused
    else if db.commands[(id, key)] == intended then Replayed
    else Conflicting
  }

  function WithCommand(db: Database, id: string, key: string, state: BuildState): Database
  {
    if key == "" then db else db.(commands := db.commands[(id, key) := state])
  }

  function Cancel(db: Database, id: string, expectedVersion: int, key: string, at: int): Result<Database, BuildError>
  {
    if id !in db.builds then Err(NoRows)
    else
      var b := db.builds[id];
      var intended := if b.state.Queued? then Cancelled else b.state;
      match EarlierCommand(db, id, key, intended)
      case Replayed => Ok(db)
      case Conflicting => Err(IdempotencyConflict)
      case Unused => CancelNow(db, id, expectedVersion, key, at)
  }

  function CancelNow(db: Database, id: string, expectedVersion: int, key: string, at: int): Result<Database, BuildError>
    requires id in db.builds
  {
    var b := db.builds[id];
    if b.version != expectedVersion then Err(VersionConflict)
    else if Terminal(b.state) then Err(InvalidTransition)
    else if b.state.Queued? then
      var tx := db.(variants := Restated(db.variants, id, InState(VariantQueued), CancelledVariant(at)));
      var c := b.(state := Cancelled, cancelRequestedAt := Some(at), completedAt := Some(at), version := b.version + 1);
      Ok(WithCommand(WithBuild(tx, id, c), id, key, Cancelled))
    else Ok(WithCommand(WithBuild(db, id, b.(cancelRequestedAt := Some(at), version := b.version + 1)), id, key,
      b.state))
  }

  function Retry(db: Database, id: string, expectedVersion: int, key: string, at: int): Result<Database, BuildError>
  {
    if id !in db.builds then Err(NoRows)
    else
      match EarlierCommand(db, id, key, Queued)
      case Replayed => Ok(db)
      case Conflicting => Err(IdempotencyConflict)
      case Unused => RetryNow(db, id, expectedVersion, key, at)
  }

  function RetryNow(db: Database, id: string, expectedVersion: int, key: string, at: int): Result<Database, BuildError>
    requires id in db.builds
  {
    var b := db.builds[id];
    if b.version != expectedVersion then Err(VersionConflict)
    else if !b.state.Failed? && !b.state.Partial? then Err(InvalidTransition)
    else if b.attempt >= b.maxAttempts then Err(BudgetExhausted)
    else
      var tx := db.(variants := Restated(db.variants, id, InState(VariantFailed), RetriedVariant()));
      var c :=
        b.(state := Queued, workerId := "", leaseToken := "", leaseExpiresAt := None, heartbeatAt := None,
           availableAt := at, cancelRequestedAt := None, errorClass := "", completedAt := None,
           version := b.version + 1);
      Ok(WithCommand(WithBuild(tx, id, c), id, key, Queued))
  }

  predicate Stale(b: Build, now: int)
  {
    InHand(b.state) && b.leaseExpiresAt.Some? && b.leaseExpiresAt.value <= now
  }

  /** Where a lost worker's build goes. */
  function AfterLoss(b: Build): BuildState
  {
    if b.cancelRequestedAt.Some? then Cancelled else if b.attempt >= b.maxAttempts then Failed else Queued
  }

  function LostRow(b: Build, now: int): Build
  {
    var state := AfterLoss(b);
    b.(state := state, workerId := "", leaseToken := "", leaseExpiresAt := None, heartbeatAt := None,
       availableAt := now, errorClass := if state.Failed? then "worker_lost" else "",
       completedAt := if state.Queued? then None else Some(now), version := b.version + 1)
  }

  predicate RequeuedByLoss(db: Database, id: string, now: int)
  {
    id in db.builds && Stale(db.builds[id], now) && AfterLoss(db.builds[id]).Queued?
  }

  function Reclaim(db: Database, now: int): Database
  {
    db.(builds := map id | id in db.builds ::
          if Stale(db.builds[id], now) then LostRow(db.builds[id], now) else db.builds[id],
        variants := map key | key in db.variants ::
          if RequeuedByLoss(db, key.0, now) && db.variants[key].state.VariantRunning? then
            RequeuedVariant()(db.variants[key])
          else db.variants[key])
  }

  lemma NextInLineOrders(db: Database, p: Build -> bool)
    requires forall id :: id in db.builds ==> db.builds[id].id == id
    ensures Orders(db.builds, p, NextInLine())
  {
    forall a, b | a in db.builds && b in db.builds
      ensures a != b ==> NextInLine()(db.builds[a], db.builds[b]) || NextInLine()(db.builds[b], db.builds[a])
      ensures NextInLine()(db.builds[a], db.builds[b]) ==> !NextInLine()(db.builds[b], db.builds[a])
    {
      LessTotal(a, b);
      LessIrreflexive(a);
      if Less(a, b) {
        LessAsymmetric(a, b);
      }
    }
    forall a, b, c | a in db.builds && b in db.builds && c in db.builds
      ensures NextInLine()(db.builds[a], db.builds[b]) && NextInLine()(db.builds[b], db.builds[c]) ==>
        NextInLine()(db.builds[a], db.builds[c])
    {
      if Less(a, b) && Less(b, c) {
        LessTransitive(a, b, c);
      }
    }
  }
}
