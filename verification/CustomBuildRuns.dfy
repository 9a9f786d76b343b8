/** What every run of the custom build protocol keeps. */
module CustomBuildRuns {
  import opened Wrappers
  import opened Text
  import opened Tables
  import opened CustomBuilds

  datatype Event =
    | Creating(request: Request)
    | Claiming(worker: string, token: string, until: int)
    | Starting(id: string, token: string)
    | Beating(id: string, token: string, until: int)
    | StartingVariant(id: string, variant: string, token: string)
    | CompletingVariant(id: string, variant: string, token: string, outcome: Outcome)
    | Logging(id: string, variant: string, token: string, line: string)
    | Finalizing(id: string, token: string)
    | Cancelling(id: string, version: int, key: string)
    | Retrying(id: string, version: int, key: string)
    | Reclaiming

  function Committed(db: Database, r: Result<Database, BuildError>): Database
  {
    if r.Ok? then r.value else db
  }

  ghost function After(db: Database, e: Event, now: int): Database
  {
    match e
    case Creating(request) => Committed(db, Create(db, request, now))
    case Claiming(worker, token, until) => ClaimNext(db, worker, token, until, now)
    case Starting(id, token) => Committed(db, Start(db, id, token, now))
    case Beating(id, token, until) => Heartbeat(db, id, token, until, now)
    case StartingVariant(id, variant, token) => Committed(db, StartVariant(db, id, variant, token, now))
    case CompletingVariant(id, variant, token, outcome) =>
      Committed(db, CompleteVariant(db, id, variant, token, outcome, now))
    case Logging(id, variant, token, line) => Committed(db, AppendLog(db, id, variant, token, line, now))
    case Finalizing(id, token) => Committed(db, Finalize(db, id, token, now))
    case Cancelling(id, version, key) => Committed(db, Cancel(db, id, version, key, now))
    case Retrying(id, version, key) => Committed(db, Retry(db, id, version, key, now))
    case Reclaiming => Reclaim(db, now)
  }

  /** Claim tokens are fresh. */
  predicate Disciplined(db: Database, e: Event)
  {
    e.Claiming? ==> e.token != "" && e.token !in db.issuedTokens
  }

  // ---------- Builds ----------

  /**
   A queued build has budget left, no cancellation and no lease; a lease is held exactly while the
   build is in hand.
  */
  predicate BuildOk(b: Build, id: string, issued: set<string>, clock: int)
  {
    && b.id == id && 0 <= b.attempt <= b.maxAttempts && 0 < b.maxAttempts <= 10
    && (b.state.Queued? ==> b.attempt < b.maxAttempts && b.cancelRequestedAt.None? && b.availableAt <= clock)
    && (b.leaseToken != "" <==> InHand(b.state)) && (b.leaseToken != "" ==> b.leaseToken in issued)
  }

  ghost predicate BuildsOk(db: Database, clock: int)
  {
    forall id :: id in db.builds ==> BuildOk(db.builds[id], id, db.issuedTokens, clock)
  }

  predicate Claims(db: Database, after: Database, id: string)
  {
    id in db.builds && id in after.builds && db.builds[id].state.Queued? && after.builds[id].state.Claimed?
  }

  /** How one step may change a build. */
  predicate BuildStep(db: Database, after: Database, id: string)
    requires id in db.builds && id in after.builds
  {
    var b, c := db.builds[id], after.builds[id];
    && c.maxAttempts == b.maxAttempts
    && c.attempt == b.attempt + (if Claims(db, after, id) then 1 else 0)
    && (b.state.Completed? || b.state.Cancelled? ==> c == b)
    && (c.leaseToken == b.leaseToken || c.leaseToken == "" || c.leaseToken !in db.issuedTokens)
  }

  ghost predicate BuildSteps(db: Database, after: Database)
  {
    && db.issuedTokens <= after.issuedTokens
    && (forall id :: id in db.builds ==> id in after.builds && BuildStep(db, after, id))
    && (forall id :: id in after.builds && id !in db.builds ==>
      after.builds[id].attempt == 0 && after.builds[id].leaseToken == "")
  }

  /** At most this one build changed. */
  lemma OneBuildKeeps(db: Database, after: Database, id: string, clock: int, now: int)
    requires BuildsOk(db, clock) && clock <= now && id in db.builds && id in after.builds
    requires after.builds == db.builds[id := after.builds[id]]
    requires db.issuedTokens <= after.issuedTokens
    requires BuildOk(after.builds[id], id, after.issuedTokens, now) && BuildStep(db, after, id)
    ensures BuildsOk(after, now) && BuildSteps(db, after)
  {
  }

  lemma OkAt(db: Database, id: string, clock: int)
    requires BuildsOk(db, clock) && id in db.builds
    ensures BuildOk(db.builds[id], id, db.issuedTokens, clock)
  {
  }

  lemma SameBuildsKeep(db: Database, after: Database, clock: int, now: int)
    requires BuildsOk(db, clock) && clock <= now && after.builds == db.builds && after.issuedTokens == db.issuedTokens
    ensures BuildsOk(after, now) && BuildSteps(db, after)
  {
  }

  lemma CreateKeeps(db: Database, q: Request, now: int, clock: int)
    requires BuildsOk(db, clock) && clock <= now
    ensures BuildsOk(Committed(db, Create(db, q, now)), now) && BuildSteps(db, Committed(db, Create(db, q, now)))
  {
    hide ValidVariants;
    if Create(db, q, now).Ok? && Create(db, q, now).value != db {
      forall id | id in db.builds
        ensures BuildOk(db.builds[id], id, db.issuedTokens, now)
      {
        OkAt(db, id, clock);
      }
    }
  }

  lemma ClaimPicks(db: Database, now: int, clock: int)
    requires BuildsOk(db, clock)
    ensures NextBuild(db, now).Some? ==>
      NextBuild(db, now).value in db.builds && Claimable(db.builds[NextBuild(db, now).value], now)
    ensures NextBuild(db, now).Some? <==> exists id :: id in db.builds && Claimable(db.builds[id], now)
  {
    NextInLineOrders(db, ClaimableAt(now));
    FirstSome(db.builds, ClaimableAt(now), NextInLine());
    if id :| id in db.builds && Claimable(db.builds[id], now) {
      assert ClaimableAt(now)(db.builds[id]);
    }
  }

  lemma ClaimKeeps(db: Database, worker: string, token: string, until: int, now: int, clock: int)
    requires BuildsOk(db, clock) && clock <= now && token != "" && token !in db.issuedTokens
    ensures BuildsOk(ClaimNext(db, worker, token, until, now), now)
    ensures BuildSteps(db, ClaimNext(db, worker, token, until, now))
  {
    hide NextBuild, TrimSpace;
    ClaimPicks(db, now, clock);
    var after := ClaimNext(db, worker, token, until, now);
    if after != db {
      OneBuildKeeps(db, after, NextBuild(db, now).value, clock, now);
    } else {
      SameBuildsKeep(db, after, clock, now);
    }
  }

  lemma ReclaimKeeps(db: Database, now: int, clock: int)
    requires BuildsOk(db, clock) && clock <= now
    ensures BuildsOk(Reclaim(db, now), now) && BuildSteps(db, Reclaim(db, now))
  {
    forall id | id in db.builds
      ensures BuildOk(Reclaim(db, now).builds[id], id, db.issuedTokens, now) && BuildStep(db, Reclaim(db, now), id)
    {
      assert BuildOk(db.builds[id], id, db.issuedTokens, clock);
    }
  }

  lemma LeaseStepKeeps(db: Database, e: Event, now: int, clock: int)
    requires BuildsOk(db, clock) && clock <= now
    requires (e.Starting? || e.Beating? || e.StartingVariant? || e.CompletingVariant? || e.Logging?)
    ensures BuildsOk(After(db, e, now), now) && BuildSteps(db, After(db, e, now))
  {
    hide BuildsOk, BuildSteps, Bounded, LogBytes, LogCharacters, MaxSequence, Create, ClaimNext, Reclaim, Finalize,
        Cancel, Retry;
    var after := After(db, e, now);
    if after.builds != db.builds {
      OkAt(db, e.id, clock);
      OneBuildKeeps(db, after, e.id, clock, now);
    } else {
      SameBuildsKeep(db, after, clock, now);
    }
  }

  lemma FinalizeKeeps(db: Database, id: string, token: string, now: int, clock: int)
    requires BuildsOk(db, clock) && clock <= now
    ensures BuildsOk(Committed(db, Finalize(db, id, token, now)), now)
    ensures BuildSteps(db, Committed(db, Finalize(db, id, token, now)))
  {
    hide BuildsOk, BuildSteps, Restated, HasVariant;
    var after := Committed(db, Finalize(db, id, token, now));
    if Finalize(db, id, token, now).Ok? {
      OkAt(db, id, clock);
      OneBuildKeeps(db, after, id, clock, now);
    } else {
      SameBuildsKeep(db, after, clock, now);
    }
  }

  lemma CancelKeeps(db: Database, id: string, version: int, key: string, now: int, clock: int)
    requires BuildsOk(db, clock) && clock <= now
    ensures BuildsOk(Committed(db, Cancel(db, id, version, key, now)), now)
    ensures BuildSteps(db, Committed(db, Cancel(db, id, version, key, now)))
  {
    hide BuildsOk, BuildSteps, Restated, EarlierCommand, InState, CancelledVariant;
    var after := Committed(db, Cancel(db, id, version, key, now));
    if after.builds != db.builds {
      OkAt(db, id, clock);
      OneBuildKeeps(db, after, id, clock, now);
    } else {
      SameBuildsKeep(db, after, clock, now);
    }
  }

  lemma RetryKeeps(db: Database, id: string, version: int, key: string, now: int, clock: int)
    requires BuildsOk(db, clock) && clock <= now
    ensures BuildsOk(Committed(db, Retry(db, id, version, key, now)), now)
    ensures BuildSteps(db, Committed(db, Retry(db, id, version, key, now)))
  {
    hide BuildsOk, BuildSteps, Restated, EarlierCommand;
    var after := Committed(db, Retry(db, id, version, key, now));
    if after.builds != db.builds {
      OkAt(db, id, clock);
      OneBuildKeeps(db, after, id, clock, now);
    } else {
      SameBuildsKeep(db, after, clock, now);
    }
  }

  lemma StepKeeps(db: Database, e: Event, now: int, clock: int)
    requires BuildsOk(db, clock) && clock <= now && Disciplined(db, e)
    ensures BuildsOk(After(db, e, now), now) && BuildSteps(db, After(db, e, now))
  {
    hide BuildsOk, BuildSteps, Create, ClaimNext, Reclaim, Start, Heartbeat, StartVariant, CompleteVariant, AppendLog,
        Finalize, Cancel, Retry;
    if e.Creating? {
      CreateKeeps(db, e.request, now, clock);
    } else if e.Claiming? {
      ClaimKeeps(db, e.worker, e.token, e.until, now, clock);
    } else if e.Reclaiming? {
      ReclaimKeeps(db, now, clock);
    } else if e.Finalizing? {
      FinalizeKeeps(db, e.id, e.token, now, clock);
    } else if e.Cancelling? {
      CancelKeeps(db, e.id, e.version, e.key, now, clock);
    } else if e.Retrying? {
      RetryKeeps(db, e.id, e.version, e.key, now, clock);
    } else {
      LeaseStepKeeps(db, e, now, clock);
    }
  }

  // ---------- Variants ----------

  /**
   A completed variant stays as it is, and one of a completed build is completed; only cancelled
   builds have cancelled variants.
  */
  predicate VariantOk(db: Database, key: (string, string))
    requires key in db.variants
  {
    && key.0 in db.builds
    && (db.builds[key.0].state.Completed? ==> db.variants[key].state.VariantCompleted?)
    && (db.variants[key].state.VariantCancelled? ==> db.builds[key.0].state.Cancelled?)
  }

  ghost predicate VariantsOk(db: Database)
  {
    forall key :: key in db.variants ==> VariantOk(db, key)
  }

  ghost predicate VariantSteps(db: Database, after: Database)
  {
    forall key :: key in db.variants ==>
      key in after.variants && (db.variants[key].state.VariantCompleted? ==> after.variants[key] == db.variants[key])
  }

  lemma CreateKeepsVariants(db: Database, q: Request, now: int)
    requires VariantsOk(db)
    ensures VariantsOk(Committed(db, Create(db, q, now))) && VariantSteps(db, Committed(db, Create(db, q, now)))
  {
    hide ValidVariants;
    if Create(db, q, now).Ok? && q.id !in db.builds {
      assert forall v :: (q.id, v) in db.variants ==> VariantOk(db, (q.id, v));
    }
  }

  lemma ClaimKeepsVariants(db: Database, worker: string, token: string, until: int, now: int, clock: int)
    requires VariantsOk(db) && BuildsOk(db, clock)
    ensures VariantsOk(ClaimNext(db, worker, token, until, now))
    ensures VariantSteps(db, ClaimNext(db, worker, token, until, now))
  {
    hide NextBuild, TrimSpace, BuildsOk;
    ClaimPicks(db, now, clock);
  }

  lemma ReclaimKeepsVariants(db: Database, now: int)
    requires VariantsOk(db)
    ensures VariantsOk(Reclaim(db, now)) && VariantSteps(db, Reclaim(db, now))
  {
    forall key | key in db.variants
      ensures VariantOk(Reclaim(db, now), key)
    {
      assert VariantOk(db, key);
    }
  }

  predicate AllCompleted(db: Database, id: string)
  {
    forall key :: key in db.variants && key.0 == id ==> db.variants[key].state.VariantCompleted?
  }

  /** A build in hand finalizes as completed exactly when all its variants completed and nobody asked to cancel it. */
  lemma CompletedMeansAllCompleted(db: Database, id: string, token: string, at: int)
    requires VariantsOk(db) && Finalize(db, id, token, at).Ok?
    ensures Finalize(db, id, token, at).value.builds[id].state.Completed? <==>
      db.builds[id].cancelRequestedAt.None? && AllCompleted(db, id)
  {
    hide Restated;
    if !AllCompleted(db, id) {
      var key :| key in db.variants && key.0 == id && !db.variants[key].state.VariantCompleted?;
      assert VariantOk(db, key);
      assert HasVariant(db, id, db.variants[key].state);
    }
  }

  /** The variants stay; the build moves, and to completed only with all of them completed. */
  lemma SameVariantsKeep(db: Database, after: Database, id: string)
    requires VariantsOk(db) && after.variants == db.variants && id in db.builds && id in after.builds
    requires after.builds == db.builds[id := after.builds[id]]
    requires after.builds[id].state.Completed? ==> AllCompleted(db, id)
    requires db.builds[id].state.Cancelled? ==> after.builds[id].state.Cancelled?
    ensures VariantsOk(after) && VariantSteps(db, after)
  {
    forall key | key in after.variants
      ensures VariantOk(after, key)
    {
      assert VariantOk(db, key);
    }
  }

  lemma OtherBuildsKeepVariants(db: Database, after: Database)
    requires VariantsOk(db) && after.variants == db.variants && after.builds == db.builds
    ensures VariantsOk(after) && VariantSteps(db, after)
  {
    forall key | key in after.variants
      ensures VariantOk(after, key)
    {
      assert VariantOk(db, key);
    }
  }

  /** Variants that were not completed are restated, and cancelled only with their build. */
  lemma RestatedVariantsKeep(db: Database, after: Database, id: string, p: Variant -> bool, f: Variant -> Variant)
    requires VariantsOk(db) && after.variants == Restated(db.variants, id, p, f) && id in db.builds
    requires id in after.builds
    requires after.builds == db.builds[id := after.builds[id]] && !after.builds[id].state.Completed?
    requires forall v :: p(v) ==> !v.state.VariantCompleted?
    requires after.builds[id].state.Cancelled?
      || (!db.builds[id].state.Cancelled? && forall v :: !f(v).state.VariantCancelled?)
    ensures VariantsOk(after) && VariantSteps(db, after)
  {
    forall key | key in after.variants
      ensures VariantOk(after, key)
    {
      assert VariantOk(db, key);
    }
  }

  lemma StartingKeepsVariants(db: Database, e: Event, now: int)
    requires VariantsOk(db) && (e.Starting? || e.Beating? || e.Logging?)
    ensures VariantsOk(After(db, e, now)) && VariantSteps(db, After(db, e, now))
  {
    hide VariantsOk, VariantSteps, Bounded, LogBytes, LogCharacters, MaxSequence, LeaseRefusal, HasVariant, Restated;
    var after := After(db, e, now);
    if after.builds == db.builds {
      OtherBuildsKeepVariants(db, after);
    } else {
      SameVariantsKeep(db, after, e.id);
    }
  }

  /** One variant row of a build in hand moves on. */
  lemma OneVariantKeeps(db: Database, after: Database, key: (string, string))
    requires VariantsOk(db) && key in db.variants && key in after.variants && after.builds == db.builds
    requires after.variants == db.variants[key := after.variants[key]]
    requires key.0 in db.builds && InHand(db.builds[key.0].state)
    requires !db.variants[key].state.VariantCompleted? && !after.variants[key].state.VariantCancelled?
    ensures VariantsOk(after) && VariantSteps(db, after)
  {
    forall other | other in after.variants
      ensures VariantOk(after, other)
    {
      assert VariantOk(db, other);
    }
  }

  lemma WorkKeepsVariants(db: Database, e: Event, now: int)
    requires VariantsOk(db) && (e.StartingVariant? || e.CompletingVariant?)
    ensures VariantsOk(After(db, e, now)) && VariantSteps(db, After(db, e, now))
  {
    hide VariantsOk, VariantSteps, Bounded, LogBytes, LogCharacters, MaxSequence, HasVariant, Restated;
    var after := After(db, e, now);
    if after == db {
      OtherBuildsKeepVariants(db, after);
    } else {
      OneVariantKeeps(db, after, (e.id, e.variant));
    }
  }

  lemma FinalizeKeepsVariants(db: Database, id: string, token: string, at: int)
    requires VariantsOk(db)
    ensures VariantsOk(Committed(db, Finalize(db, id, token, at)))
    ensures VariantSteps(db, Committed(db, Finalize(db, id, token, at)))
  {
    hide VariantsOk, VariantSteps, Restated, HasVariant, AllCompleted;
    var after := Committed(db, Finalize(db, id, token, at));
    if Finalize(db, id, token, at).Err? {
      OtherBuildsKeepVariants(db, after);
    } else if db.builds[id].cancelRequestedAt.Some? {
      RestatedVariantsKeep(db, after, id, Unfinished(), CancelledVariant(at));
    } else {
      if after.builds[id].state.Completed? {
        CompletedMeansAllCompleted(db, id, token, at);
      }
      SameVariantsKeep(db, after, id);
    }
  }

  lemma CancelKeepsVariants(db: Database, id: string, version: int, key: string, at: int)
    requires VariantsOk(db)
    ensures VariantsOk(Committed(db, Cancel(db, id, version, key, at)))
    ensures VariantSteps(db, Committed(db, Cancel(db, id, version, key, at)))
  {
    hide VariantsOk, VariantSteps, Restated, AllCompleted, EarlierCommand;
    var after := Committed(db, Cancel(db, id, version, key, at));
    if after == db {
      OtherBuildsKeepVariants(db, after);
    } else if db.builds[id].state.Queued? {
      RestatedVariantsKeep(db, after, id, InState(VariantQueued), CancelledVariant(at));
    } else {
      SameVariantsKeep(db, after, id);
    }
  }

  lemma RetryKeepsVariants(db: Database, id: string, version: int, key: string, at: int)
    requires VariantsOk(db)
    ensures VariantsOk(Committed(db, Retry(db, id, version, key, at)))
    ensures VariantSteps(db, Committed(db, Retry(db, id, version, key, at)))
  {
    hide VariantsOk, VariantSteps, Restated, AllCompleted, EarlierCommand;
    var after := Committed(db, Retry(db, id, version, key, at));
    if after == db {
      OtherBuildsKeepVariants(db, after);
    } else {
      RestatedVariantsKeep(db, after, id, InState(VariantFailed), RetriedVariant());
    }
  }

  lemma StepKeepsVariants(db: Database, e: Event, now: int, clock: int)
    requires VariantsOk(db) && BuildsOk(db, clock)
    ensures VariantsOk(After(db, e, now)) && VariantSteps(db, After(db, e, now))
  {
    hide BuildsOk, VariantsOk, VariantSteps, Create, ClaimNext, Reclaim, Start, Heartbeat, StartVariant,
        CompleteVariant, AppendLog, Finalize, Cancel, Retry;
    match e
    case Creating(request) => CreateKeepsVariants(db, request, now);
    case Claiming(worker, token, until) => ClaimKeepsVariants(db, worker, token, until, now, clock);
    case Reclaiming => ReclaimKeepsVariants(db, now);
    case Finalizing(id, token) => FinalizeKeepsVariants(db, id, token, now);
    case Cancelling(id, version, key) => CancelKeepsVariants(db, id, version, key, now);
    case Retrying(id, version, key) => RetryKeepsVariants(db, id, version, key, now);
    case StartingVariant(_, _, _) => WorkKeepsVariants(db, e, now);
    case CompletingVariant(_, _, _, _) => WorkKeepsVariants(db, e, now);
    case _ => StartingKeepsVariants(db, e, now);
  }

  predicate AnyUnfinished(db: Database, id: string)
  {
    HasVariant(db, id, VariantQueued) || HasVariant(db, id, VariantRunning)
  }

  /**
   Finalizing leaves queued or running variants behind exactly when some other variant failed and
   nobody asked to cancel.
  */
  lemma UnfinishedAreLeft(db: Database, id: string, token: string, at: int)
    requires Finalize(db, id, token, at).Ok?
    ensures AnyUnfinished(Finalize(db, id, token, at).value, id) <==>
            db.builds[id].cancelRequestedAt.None? && HasVariant(db, id, VariantFailed) && AnyUnfinished(db, id)
  {
  }

  // ---------- Logs ----------

  /** Numbered 1 to n, and within the budgets the append checks: lines, and characters. */
  ghost predicate LogOk(logs: seq<Log>)
  {
    && |logs| <= MAX_LOG_LINES && LogCharacters(logs) <= MAX_LOG_BYTES
    && forall i :: 0 <= i < |logs| ==> logs[i].sequence == i + 1 && |logs[i].line| <= MAX_LINE
  }

  ghost predicate LogsOk(db: Database)
  {
    forall id :: id in db.logs ==> LogOk(db.logs[id])
  }

  lemma {:induction false} MaxIsLength(logs: seq<Log>)
    requires forall i :: 0 <= i < |logs| ==> logs[i].sequence == i + 1
    ensures MaxSequence(logs) == |logs|
  {
    if logs != [] {
      MaxIsLength(logs[..|logs| - 1]);
    }
  }

  lemma LogGrows(logs: seq<Log>, last: Log)
    ensures LogBytes(logs + [last]) == LogBytes(logs) + |last.line|
    ensures LogCharacters(logs + [last]) == LogCharacters(logs) + Characters(last.line)
  {
    assert (logs + [last])[..|logs|] == logs;
  }

  lemma EmptyLogMeasures()
    ensures LogBytes([]) == 0 && LogCharacters([]) == 0
  {
  }

  lemma EmptyLogOk()
    ensures LogOk([])
  {
  }

  lemma LongerLogOk(logs: seq<Log>, last: Log)
    requires LogOk(logs) && |logs| < MAX_LOG_LINES && LogCharacters(logs) + |last.line| <= MAX_LOG_BYTES
    requires last.sequence == MaxSequence(logs) + 1 && |last.line| <= MAX_LINE
    ensures LogOk(logs + [last])
  {
    hide LogBytes, LogCharacters, MaxSequence;
    MaxIsLength(logs);
    LogGrows(logs, last);
    CharactersAtMostBytes(last.line);
  }

  lemma AppendKeepsLogs(db: Database, id: string, variant: string, token: string, line: string, at: int)
    requires LogsOk(db)
    ensures LogsOk(Committed(db, AppendLog(db, id, variant, token, line, at)))
  {
    hide LogOk, LogBytes, LogCharacters, MaxSequence, LeaseRefusal;
    EmptyLogOk();
    if AppendLog(db, id, variant, token, line, at).Ok? {
      LongerLogOk(LogsOf(db, id), Log(MaxSequence(LogsOf(db, id)) + 1, variant, line));
    }
  }

  lemma StepKeepsLogs(db: Database, e: Event, now: int)
    requires LogsOk(db)
    ensures LogsOk(After(db, e, now))
  {
    hide LogsOk, Restated, HasVariant, NextBuild, Bounded, ValidRequest, LogBytes, LogCharacters, MaxSequence,
        RequeuedByLoss;
    if e.Logging? {
      AppendKeepsLogs(db, e.id, e.variant, e.token, e.line, now);
    } else {
      assert After(db, e, now).logs == db.logs;
      SameLogs(db, After(db, e, now));
    }
  }

  lemma SameLogs(db: Database, after: Database)
    requires LogsOk(db) && after.logs == db.logs
    ensures LogsOk(after)
  {
  }

  // ---------- The byte budget ----------

  /**
   An accepted append keeps the bytes of the log within the limit exactly when stored bytes and new
   line fit together.
  */
  lemma ByteBudgetKept(db: Database, id: string, variant: string, token: string, line: string, at: int)
    requires AppendLog(db, id, variant, token, line, at).Ok?
    ensures var after := AppendLog(db, id, variant, token, line, at).value;
      LogBytes(LogsOf(after, id)) <= MAX_LOG_BYTES <==> LogBytes(LogsOf(db, id)) + |line| <= MAX_LOG_BYTES
  {
    hide LogBytes, LogCharacters, MaxSequence, LeaseRefusal;
    LogGrows(LogsOf(db, id), Log(MaxSequence(LogsOf(db, id)) + 1, variant, line));
  }

  /** Characters never outnumber bytes, and match them exactly when every stored line is single-byte. */
  lemma {:induction false} LogCharactersAtMostBytes(logs: seq<Log>)
    ensures LogCharacters(logs) <= LogBytes(logs)
    ensures LogCharacters(logs) == LogBytes(logs) <==> forall i :: 0 <= i < |logs| ==> SingleByte(logs[i].line)
  {
    hide SingleByte;
    if logs != [] {
      var front, last := logs[..|logs| - 1], logs[|logs| - 1];
      LogCharactersAtMostBytes(front);
      CharactersAtMostBytes(last.line);
      assert forall i :: 0 <= i < |front| ==> front[i] == logs[i];
      assert (forall i :: 0 <= i < |logs| ==> SingleByte(logs[i].line))
        <==> (forall i :: 0 <= i < |front| ==> SingleByte(front[i].line)) && SingleByte(last.line);
    }
  }

  /** So while stored lines are single-byte, every accepted append stays within the byte limit. */
  lemma SingleByteLogsFit(db: Database, id: string, variant: string, token: string, line: string, at: int)
    requires AppendLog(db, id, variant, token, line, at).Ok?
    requires forall i :: 0 <= i < |LogsOf(db, id)| ==> SingleByte(LogsOf(db, id)[i].line)
    ensures LogBytes(LogsOf(AppendLog(db, id, variant, token, line, at).value, id)) <= MAX_LOG_BYTES
  {
    hide LogBytes, LogCharacters, MaxSequence, LeaseRefusal, SingleByte;
    LogCharactersAtMostBytes(LogsOf(db, id));
    ByteBudgetKept(db, id, variant, token, line, at);
  }

  /**
   Whether every line the log still accepts keeps its bytes within the limit shows in the stored lines
   alone: they are all single-byte, or there is room for a line of full length.
  */
  lemma AcceptedLinesFit(db: Database, id: string, variant: string, token: string, at: int)
    requires LeaseRefusal(db, id, token, at).None?
    requires |LogsOf(db, id)| < MAX_LOG_LINES && LogCharacters(LogsOf(db, id)) <= MAX_LOG_BYTES
    ensures (forall line :: AppendLog(db, id, variant, token, line, at).Ok? ==>
              LogBytes(LogsOf(AppendLog(db, id, variant, token, line, at).value, id)) <= MAX_LOG_BYTES)
      <==> (forall i :: 0 <= i < |LogsOf(db, id)| ==> SingleByte(LogsOf(db, id)[i].line))
           || LogBytes(LogsOf(db, id)) + MAX_LINE <= MAX_LOG_BYTES
  {
    hide LogBytes, LogCharacters, MaxSequence, LeaseRefusal, SingleByte;
    var logs := LogsOf(db, id);
    LogCharactersAtMostBytes(logs);
    forall line | AppendLog(db, id, variant, token, line, at).Ok?
      ensures LogBytes(LogsOf(AppendLog(db, id, variant, token, line, at).value, id)) == LogBytes(logs) + |line|
    {
      LogGrows(logs, Log(MaxSequence(logs) + 1, variant, line));
    }
    var room := MAX_LOG_BYTES - LogCharacters(logs);
    var longest := seq(if room < MAX_LINE then room else MAX_LINE, i => 'a');
    assert AppendLog(db, id, variant, token, longest, at).Ok?;
  }

  /** n characters of three bytes each. */
  function Wide(n: nat): string
  {
    if n == 0 then "" else Wide(n - 1) + [0xE2 as char, 0x82 as char, 0xAC as char]
  }

  lemma {:induction false} WideMeasures(n: nat)
    ensures |Wide(n)| == 3 * n && Characters(Wide(n)) == n
  {
    if n > 0 {
      var rest := Wide(n - 1);
      WideMeasures(n - 1);
      CharactersPush(rest, 0xE2 as char);
      CharactersPush(rest + [0xE2 as char], 0x82 as char);
      CharactersPush(rest + [0xE2 as char] + [0x82 as char], 0xAC as char);
      assert Wide(n) == rest + [0xE2 as char] + [0x82 as char] + [0xAC as char];
    }
  }

  lemma CharactersPush(s: string, c: char)
    ensures Characters(s + [c]) == Characters(s) + if IsContinuation(c) then 0 else 1
  {
    assert (s + [c])[..|s|] == s;
  }

  function WideLog(n: nat): seq<Log>
  {
    if n == 0 then [] else WideLog(n - 1) + [Log(n, "default", Wide(2730))]
  }

  lemma {:induction false} WideLogMeasures(n: nat)
    ensures |WideLog(n)| == n && LogBytes(WideLog(n)) == 8190 * n && LogCharacters(WideLog(n)) == 2730 * n
    ensures forall i :: 0 <= i < n ==> WideLog(n)[i].sequence == i + 1 && |WideLog(n)[i].line| <= MAX_LINE
  {
    hide LogBytes, LogCharacters, Wide, Characters;
    WideMeasures(2730);
    if n > 0 {
      WideLogMeasures(n - 1);
      LogGrows(WideLog(n - 1), Log(n, "default", Wide(2730)));
    } else {
      assert LogBytes([]) == 0 && LogCharacters([]) == 0 by {
        EmptyLogMeasures();
      }
    }
  }

  // ---------- Command keys ----------

  /** Commands belong to existing builds and are recorded once. */
  ghost predicate CommandsOk(db: Database)
  {
    forall id, key :: (id, key) in db.commands ==> id in db.builds
  }

  ghost predicate CommandsKept(db: Database, after: Database)
  {
    forall c :: c in db.commands ==> c in after.commands && after.commands[c] == db.commands[c]
  }

  lemma SameCommandsKeep(db: Database, after: Database)
    requires CommandsOk(db) && after.commands == db.commands && db.builds.Keys <= after.builds.Keys
    ensures CommandsOk(after) && CommandsKept(db, after)
  {
  }

  lemma NewCommandKeeps(db: Database, after: Database, id: string, key: string, state: BuildState)
    requires CommandsOk(db) && db.builds.Keys <= after.builds.Keys && id in after.builds
    requires (id, key) !in db.commands && after.commands == db.commands[(id, key) := state]
    ensures CommandsOk(after) && CommandsKept(db, after)
  {
  }

  lemma CreateKeepsCommands(db: Database, q: Request, now: int)
    requires CommandsOk(db)
    ensures CommandsOk(Committed(db, Create(db, q, now))) && CommandsKept(db, Committed(db, Create(db, q, now)))
  {
    hide ValidRequest, NewBuild;
    if q.id !in db.builds && Create(db, q, now).Ok? && Create(db, q, now).value != db {
      NewCommandKeeps(db, Created(db, q, now), q.id, q.idempotencyKey, Queued);
    }
  }

  lemma CommandStepKeeps(db: Database, e: Event, now: int)
    requires CommandsOk(db) && (e.Cancelling? || e.Retrying?)
    ensures CommandsOk(After(db, e, now)) && CommandsKept(db, After(db, e, now))
  {
    hide CommandsOk, CommandsKept, Restated, InState, CancelledVariant, RetriedVariant;
    var after := After(db, e, now);
    if after.commands == db.commands {
      SameCommandsKeep(db, after);
    } else {
      NewCommandKeeps(db, after, e.id, e.key, after.commands[(e.id, e.key)]);
    }
  }

  lemma OtherStepKeepsCommands(db: Database, e: Event, now: int)
    requires CommandsOk(db) && BuildSteps(db, After(db, e, now)) && !e.Creating? && !e.Cancelling? && !e.Retrying?
    ensures CommandsOk(After(db, e, now)) && CommandsKept(db, After(db, e, now))
  {
    hide Restated, HasVariant, NextBuild, Bounded, LogBytes, LogCharacters, MaxSequence, RequeuedByLoss, Create,
        Cancel, Retry, BuildStep;
    assert After(db, e, now).commands == db.commands;
  }

  /** A command whose key was used before changes nothing, whether it is replayed or refused. */
  lemma RepeatChangesNothing(db: Database, id: string, version: int, key: string, at: int)
    requires key != "" && (id, key) in db.commands
    ensures Committed(db, Cancel(db, id, version, key, at)) == db
    ensures Committed(db, Retry(db, id, version, key, at)) == db
  {
  }

  // ---------- Runs ----------

  datatype World = World(db: Database, clock: int)

  ghost predicate Next(w: World, e: Event, w': World)
  {
    w.clock <= w'.clock && Disciplined(w.db, e) && w'.db == After(w.db, e, w'.clock)
  }

  ghost predicate Run(ws: seq<World>, es: seq<Event>)
  {
    && |ws| == |es| + 1 && ws[0].db == Database(map[], map[], map[], map[], {})
    && forall i :: 0 <= i < |es| ==> Next(ws[i], es[i], ws[i + 1])
  }

  lemma {:induction false} RunKeeps(ws: seq<World>, es: seq<Event>, i: nat)
    requires Run(ws, es) && i < |ws|
    ensures BuildsOk(ws[i].db, ws[i].clock) && VariantsOk(ws[i].db) && LogsOk(ws[i].db)
    ensures i > 0 ==> BuildSteps(ws[i - 1].db, ws[i].db) && VariantSteps(ws[i - 1].db, ws[i].db)
  {
    hide After;
    if i > 0 {
      RunKeeps(ws, es, i - 1);
      assert Next(ws[i - 1], es[i - 1], ws[i]);
      StepKeeps(ws[i - 1].db, es[i - 1], ws[i].clock, ws[i - 1].clock);
      StepKeepsVariants(ws[i - 1].db, es[i - 1], ws[i].clock, ws[i - 1].clock);
      StepKeepsLogs(ws[i - 1].db, es[i - 1], ws[i].clock);
    }
  }

  lemma AfterCreating(db: Database, e: Event, now: int)
    requires e.Creating?
    ensures After(db, e, now) == Committed(db, Create(db, e.request, now))
  {
  }

  lemma {:induction false} RunKeepsCommands(ws: seq<World>, es: seq<Event>, i: nat)
    requires Run(ws, es) && i < |ws|
    ensures CommandsOk(ws[i].db)
    ensures i > 0 ==> CommandsKept(ws[i - 1].db, ws[i].db)
  {
    hide After, BuildSteps;
    if i > 0 {
      RunKeepsCommands(ws, es, i - 1);
      RunKeeps(ws, es, i);
      var e := es[i - 1];
      assert Next(ws[i - 1], e, ws[i]);
      if e.Creating? {
        CreateKeepsCommands(ws[i - 1].db, e.request, ws[i].clock);
        assert ws[i].db == Committed(ws[i - 1].db, Create(ws[i - 1].db, e.request, ws[i].clock)) by {
          AfterCreating(ws[i - 1].db, e, ws[i].clock);
        }
      } else if e.Cancelling? || e.Retrying? {
        CommandStepKeeps(ws[i - 1].db, e, ws[i].clock);
      } else {
        OtherStepKeepsCommands(ws[i - 1].db, e, ws[i].clock);
      }
    }
  }

  /** Once a keyed command of a build was accepted, no later cancellation or retry with that key changes anything. */
  lemma {:induction false} KeyedCommandOnce(ws: seq<World>, es: seq<Event>, i: nat, j: nat, id: string, key: string)
    requires Run(ws, es) && i <= j < |es| && key != "" && (id, key) in ws[i].db.commands
    requires (es[j].Cancelling? || es[j].Retrying?) && es[j].id == id && es[j].key == key
    ensures ws[j + 1].db == ws[j].db
  {
    CommandForever(ws, es, i, j, id, key);
    assert Next(ws[j], es[j], ws[j + 1]);
    RepeatChangesNothing(ws[j].db, id, es[j].version, key, ws[j + 1].clock);
  }

  lemma {:induction false} CommandForever(ws: seq<World>, es: seq<Event>, i: nat, j: nat, id: string, key: string)
    requires Run(ws, es) && i <= j < |ws| && (id, key) in ws[i].db.commands
    ensures (id, key) in ws[j].db.commands && ws[j].db.commands[(id, key)] == ws[i].db.commands[(id, key)]
    decreases j - i
  {
    hide After;
    if i < j {
      CommandForever(ws, es, i, j - 1, id, key);
      RunKeepsCommands(ws, es, j);
    }
  }

  /** In every state a build's log is numbered 1 to n and its characters, not its bytes, are within the limit. */
  lemma LogsAlwaysInBudget(ws: seq<World>, es: seq<Event>, i: nat, id: string)
    requires Run(ws, es) && i < |ws|
    ensures LogOk(LogsOf(ws[i].db, id))
  {
    hide After;
    RunKeeps(ws, es, i);
    EmptyLogOk();
  }

  /** A queued build is always claimable, so a claim never comes back empty-handed while one exists. */
  lemma QueuedIsClaimable(ws: seq<World>, es: seq<Event>, i: nat, id: string, now: int)
    requires Run(ws, es) && i < |ws| && id in ws[i].db.builds && ws[i].db.builds[id].state.Queued? && ws[i].clock <= now
    ensures Claimable(ws[i].db.builds[id], now) && NextBuild(ws[i].db, now).Some?
  {
    hide After;
    RunKeeps(ws, es, i);
    assert BuildOk(ws[i].db.builds[id], id, ws[i].db.issuedTokens, ws[i].clock);
    ClaimPicks(ws[i].db, now, ws[i].clock);
  }

  ghost function ClaimCount(ws: seq<World>, id: string, i: nat): nat
    requires i < |ws|
  {
    if i == 0 then 0 else ClaimCount(ws, id, i - 1) + if Claims(ws[i - 1].db, ws[i].db, id) then 1 else 0
  }

  /** Claims, over every retry and worker loss, are counted by the attempts and bounded by the budget. */
  lemma {:induction false} ClaimsBounded(ws: seq<World>, es: seq<Event>, id: string, i: nat)
    requires Run(ws, es) && i < |ws|
    ensures if id in ws[i].db.builds then
      ClaimCount(ws, id, i) == ws[i].db.builds[id].attempt <= ws[i].db.builds[id].maxAttempts <= 10
            else ClaimCount(ws, id, i) == 0
  {
    hide After;
    RunKeeps(ws, es, i);
    if i > 0 {
      ClaimsBounded(ws, es, id, i - 1);
      if id in ws[i - 1].db.builds {
        assert BuildStep(ws[i - 1].db, ws[i].db, id);
      }
    }
    if id in ws[i].db.builds {
      assert BuildOk(ws[i].db.builds[id], id, ws[i].db.issuedTokens, ws[i].clock);
    }
  }

  /** A completed variant keeps its whole row, digest and references included, whatever happens to its build. */
  lemma {:induction false} CompletedVariantForever(ws: seq<World>, es: seq<Event>, i: nat, j: nat,
      key: (string, string))
    requires Run(ws, es) && i <= j < |ws| && key in ws[i].db.variants && ws[i].db.variants[key].state.VariantCompleted?
    ensures key in ws[j].db.variants && ws[j].db.variants[key] == ws[i].db.variants[key]
    decreases j - i
  {
    hide After;
    if i < j {
      CompletedVariantForever(ws, es, i, j - 1, key);
      RunKeeps(ws, es, j);
    }
  }

  /** A completed build has only completed variants, and it and they stay so. */
  lemma {:induction false} CompletedBuildForever(ws: seq<World>, es: seq<Event>, i: nat, j: nat, id: string,
      variant: string)
    requires Run(ws, es) && i <= j < |ws| && id in ws[i].db.builds && ws[i].db.builds[id].state.Completed?
    ensures id in ws[j].db.builds && ws[j].db.builds[id] == ws[i].db.builds[id]
    ensures (id, variant) in ws[j].db.variants ==> ws[j].db.variants[(id, variant)].state.VariantCompleted?
    decreases j - i
  {
    hide After;
    RunKeeps(ws, es, j);
    if i < j {
      CompletedBuildForever(ws, es, i, j - 1, id, variant);
      assert BuildStep(ws[j - 1].db, ws[j].db, id);
    }
    if (id, variant) in ws[j].db.variants {
      assert VariantOk(ws[j].db, (id, variant));
    }
  }

  /** A cancelled build never comes back. */
  lemma {:induction false} CancelledForever(ws: seq<World>, es: seq<Event>, i: nat, j: nat, id: string)
    requires Run(ws, es) && i <= j < |ws| && id in ws[i].db.builds && ws[i].db.builds[id].state.Cancelled?
    ensures id in ws[j].db.builds && ws[j].db.builds[id] == ws[i].db.builds[id]
    decreases j - i
  {
    hide After;
    if i < j {
      CancelledForever(ws, es, i, j - 1, id);
      RunKeeps(ws, es, j);
      assert BuildStep(ws[j - 1].db, ws[j].db, id);
    }
  }

  // ---------- A log beyond its byte budget ----------

  const WIDE_REQUEST := Request("b", "k", "", ["default"], 3)

  /** One claimed build, with n full lines of three-byte characters logged. */
  function WideDatabase(n: nat): Database
  {
    var b := ClaimedRow(NewBuild(WIDE_REQUEST, 0), "w", "t", 1, 0);
    Database(map["b" := b], map[("b", "default") := NEW_VARIANT], map["b" := WideLog(n)], map[("b", "k") := Queued],
      {"t"})
  }

  const WIDE_START := Database(map["b" := NewBuild(WIDE_REQUEST, 0)], map[("b", "default") := NEW_VARIANT], map[],
                               map[("b", "k") := Queued], {})

  lemma WideCreated()
    ensures Create(Database(map[], map[], map[], map[], {}), WIDE_REQUEST, 0) == Ok(WIDE_START)
  {
    var created := Created(Database(map[], map[], map[], map[], {}), WIDE_REQUEST, 0);
    assert created.variants == map[("b", "default") := NEW_VARIANT];
  }

  lemma WideClaimed()
    ensures ClaimNext(WIDE_START, "w", "t", 1, 0) == WideDatabase(0).(logs := map[])
  {
    hide First;
    ClaimPicks(WIDE_START, 0, 0);
    assert Claimable(WIDE_START.builds["b"], 0);
  }

  lemma WideLogged()
    ensures AppendLog(WideDatabase(0).(logs := map[]), "b", "default", "t", Wide(2730), 0) == Ok(WideDatabase(1))
  {
    hide LogBytes, Wide, Characters;
    EmptyLogMeasures();
    WideMeasures(2730);
    assert WideLog(1) == [Log(1, "default", Wide(2730))];
  }

  lemma WideStart() returns (ws: seq<World>, es: seq<Event>)
    ensures Run(ws, es) && ws[|ws| - 1] == World(WideDatabase(1), 0)
  {
    hide LogBytes, Wide, WideDatabase, Create, ClaimNext, AppendLog;
    WideCreated();
    WideClaimed();
    WideLogged();
    ws := [World(Database(map[], map[], map[], map[], {}), 0), World(WIDE_START, 0),
           World(WideDatabase(0).(logs := map[]), 0), World(WideDatabase(1), 0)];
    es := [Creating(WIDE_REQUEST), Claiming("w", "t", 1), Logging("b", "default", "t", Wide(2730))];
  }

  lemma WideAppend(n: nat)
    requires 0 < n <= 512
    ensures AppendLog(WideDatabase(n), "b", "default", "t", Wide(2730), 0) == Ok(WideDatabase(n + 1))
  {
    hide LogBytes, LogCharacters, MaxSequence, Wide, Characters;
    WideLogMeasures(n);
    WideMeasures(2730);
    MaxIsLength(WideLog(n));
    var db := WideDatabase(n);
    assert LeaseRefusal(db, "b", "t", 0).None?;
    assert WideLog(n + 1) == WideLog(n) + [Log(n + 1, "default", Wide(2730))];
    assert AppendLog(db, "b", "default", "t", Wide(2730), 0).Ok?;
    assert db.logs["b" := WideLog(n + 1)] == map["b" := WideLog(n + 1)];
  }

  lemma {:induction false} WideRun(n: nat) returns (ws: seq<World>, es: seq<Event>)
    requires 0 < n <= 513
    ensures Run(ws, es) && ws[|ws| - 1] == World(WideDatabase(n), 0)
  {
    hide AppendLog, WideDatabase, Wide;
    if n == 1 {
      ws, es := WideStart();
    } else {
      ws, es := WideRun(n - 1);
      WideAppend(n - 1);
      var e := Logging("b", "default", "t", Wide(2730));
      assert Next(ws[|ws| - 1], e, World(WideDatabase(n), 0));
      ws, es := ws + [World(WideDatabase(n), 0)], es + [e];
    }
  }

  /** Lines of three-byte characters, each accepted, take a log of a run beyond its byte limit. */
  lemma WideLinesExceed() returns (ws: seq<World>, es: seq<Event>)
    ensures Run(ws, es) && LogBytes(LogsOf(ws[|ws| - 1].db, "b")) > MAX_LOG_BYTES
  {
    hide LogBytes, LogCharacters, WideLog, Run;
    ws, es := WideRun(513);
    WideLogMeasures(513);
  }

  // ---------- Fencing ----------

  predicate Carries(e: Event, id: string, token: string)
  {
    (e.Starting? || e.Beating? || e.StartingVariant? || e.CompletingVariant? || e.Logging? || e.Finalizing?)
      && e.id == id && e.token == token
  }

  ghost predicate Retired(db: Database, id: string, token: string)
  {
    token != "" && token in db.issuedTokens && (id in db.builds ==> db.builds[id].leaseToken != token)
  }

  lemma {:induction false} RetiredForever(ws: seq<World>, es: seq<Event>, i: nat, j: nat, id: string, token: string)
    requires Run(ws, es) && i <= j < |ws| && Retired(ws[i].db, id, token)
    ensures Retired(ws[j].db, id, token)
    decreases j - i
  {
    hide After;
    if i < j {
      RetiredForever(ws, es, i, j - 1, id, token);
      RunKeeps(ws, es, j);
      if id in ws[j - 1].db.builds {
        assert BuildStep(ws[j - 1].db, ws[j].db, id);
      }
    }
  }

  /** Once a build's lease was given up or reclaimed, no step carrying its token changes anything. */
  lemma Fenced(ws: seq<World>, es: seq<Event>, i: nat, j: nat, id: string, token: string)
    requires Run(ws, es) && i <= j < |es| && Retired(ws[i].db, id, token) && Carries(es[j], id, token)
    ensures ws[j + 1].db == ws[j].db
  {
    RetiredForever(ws, es, i, j, id, token);
    assert Next(ws[j], es[j], ws[j + 1]);
    StaleStepDoesNothing(ws[j].db, es[j], ws[j + 1].clock, id, token);
  }

  lemma StaleStepDoesNothing(db: Database, e: Event, now: int, id: string, token: string)
    requires token != "" && Carries(e, id, token) && (id in db.builds ==> db.builds[id].leaseToken != token)
    ensures After(db, e, now) == db
  {
    hide Restated, HasVariant, Bounded, LogBytes, LogCharacters, MaxSequence, Create, ClaimNext, Reclaim, Cancel, Retry;
  }
}
