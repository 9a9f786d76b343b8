/**
 Which variants a build keeps unfinished when it ends, and what that means once it is retried: over every
 run, the step that ended a build settles whether it has unfinished or running variants, and the way it
 was queued settles whether it holds a running one.
*/
module CustomBuildEndings {
  import opened Wrappers
  import opened Tables
  import opened CustomBuilds
  import opened CustomBuildRuns

  // ---------- The three ways a build ends ----------

  /** Only variants of failed builds that nobody asked to cancel stay running past finalization. */
  lemma RunningAreLeft(db: Database, id: string, token: string, at: int)
    requires Finalize(db, id, token, at).Ok?
    ensures HasVariant(Finalize(db, id, token, at).value, id, VariantRunning) <==>
      db.builds[id].cancelRequestedAt.None? && HasVariant(db, id, VariantFailed) && HasVariant(db, id, VariantRunning)
  {
  }

  /** Cancelling a queued build cancels its queued variants only. */
  lemma CancelLeaves(db: Database, id: string, version: int, key: string, at: int)
    requires id in db.builds && db.builds[id].state.Queued? && EarlierCommand(db, id, key, Cancelled).Unused?
    requires Cancel(db, id, version, key, at).Ok?
    ensures var after := Cancel(db, id, version, key, at).value;
      && (AnyUnfinished(after, id) <==> HasVariant(db, id, VariantRunning))
      && (HasVariant(after, id, VariantRunning) <==> HasVariant(db, id, VariantRunning))
  {
    hide EarlierCommand;
    var after := Cancel(db, id, version, key, at).value;
    assert after.variants == Restated(db.variants, id, InState(VariantQueued), CancelledVariant(at));
    if k :| k in db.variants && k.0 == id && db.variants[k].state.VariantRunning? {
      assert after.variants[k].state.VariantRunning?;
    }
  }

  /** Losing the worker ends a build with its variants as they are, or requeues it with none of them running. */
  lemma ReclaimLeaves(db: Database, now: int, id: string)
    requires id in db.builds && Stale(db.builds[id], now)
    ensures !AfterLoss(db.builds[id]).Queued? ==> (AnyUnfinished(Reclaim(db, now), id) <==> AnyUnfinished(db, id))
    ensures HasVariant(Reclaim(db, now), id, VariantRunning) <==>
      !AfterLoss(db.builds[id]).Queued? && HasVariant(db, id, VariantRunning)
  {
    hide Stale, AfterLoss, LostRow;
    var after := Reclaim(db, now);
    forall key | key in db.variants && key.0 == id
      ensures !AfterLoss(db.builds[id]).Queued? ==> after.variants[key] == db.variants[key]
      ensures AfterLoss(db.builds[id]).Queued? ==> !after.variants[key].state.VariantRunning?
    {
    }
    if !AfterLoss(db.builds[id]).Queued? {
      SameVariantsSame(db, after, id);
    }
  }

  ghost predicate SameVariants(db: Database, after: Database, id: string)
  {
    && (forall key: (string, string) :: key.0 == id ==> (key in db.variants <==> key in after.variants))
    && forall key :: key in db.variants && key.0 == id && key in after.variants ==>
         after.variants[key] == db.variants[key]
  }

  lemma SameVariantsSame(db: Database, after: Database, id: string)
    requires SameVariants(db, after, id)
    ensures forall s :: HasVariant(after, id, s) <==> HasVariant(db, id, s)
  {
    forall s
      ensures HasVariant(after, id, s) <==> HasVariant(db, id, s)
    {
      if key :| key in db.variants && key.0 == id && db.variants[key].state == s {
        assert after.variants[key].state == s;
      }
      if key :| key in after.variants && key.0 == id && after.variants[key].state == s {
        assert db.variants[key].state == s;
      }
    }
  }

  /** Whether the step that ends the build leaves variants queued or running. */
  predicate LeavesUnfinished(db: Database, e: Event, id: string)
    requires id in db.builds
  {
    match e
    case Finalizing(_, _) =>
      db.builds[id].cancelRequestedAt.None? && HasVariant(db, id, VariantFailed) && AnyUnfinished(db, id)
    case Cancelling(_, _, _) => HasVariant(db, id, VariantRunning)
    case _ => AnyUnfinished(db, id)
  }

  predicate LeavesRunning(db: Database, e: Event, id: string)
    requires id in db.builds
  {
    && HasVariant(db, id, VariantRunning)
    && (e.Finalizing? ==> db.builds[id].cancelRequestedAt.None? && HasVariant(db, id, VariantFailed))
  }

  ghost predicate Ends(db: Database, after: Database, id: string)
  {
    id in db.builds && id in after.builds && !Terminal(db.builds[id].state) && Terminal(after.builds[id].state)
  }

  ghost predicate EndsAs(db: Database, e: Event, after: Database, id: string)
    requires id in db.builds && id in after.builds
  {
    && (e.Finalizing? || e.Cancelling? || e.Reclaiming?)
    && (AnyUnfinished(after, id) <==> LeavesUnfinished(db, e, id))
    && (HasVariant(after, id, VariantRunning) <==> LeavesRunning(db, e, id))
    && (e.Cancelling? ==> after.builds[id].state.Cancelled?)
    && (e.Reclaiming? && !after.builds[id].state.Cancelled? ==>
          after.builds[id].attempt >= after.builds[id].maxAttempts)
  }

  lemma FinalizeEnds(db: Database, e: Event, now: int, id: string)
    requires e.Finalizing? && Ends(db, After(db, e, now), id)
    ensures EndsAs(db, e, After(db, e, now), id)
  {
    hide HasVariant, AnyUnfinished, Restated;
    assert e.id == id && Finalize(db, id, e.token, now).Ok?;
    UnfinishedAreLeft(db, id, e.token, now);
    RunningAreLeft(db, id, e.token, now);
  }

  lemma CancelEnds(db: Database, e: Event, now: int, id: string)
    requires e.Cancelling? && Ends(db, After(db, e, now), id)
    ensures EndsAs(db, e, After(db, e, now), id)
  {
    hide HasVariant, AnyUnfinished, Restated;
    assert e.id == id && db.builds[id].state.Queued? && EarlierCommand(db, id, e.key, Cancelled).Unused?;
    CancelLeaves(db, id, e.version, e.key, now);
  }

  lemma ReclaimEnds(db: Database, e: Event, now: int, id: string)
    requires e.Reclaiming? && Ends(db, After(db, e, now), id)
    ensures EndsAs(db, e, After(db, e, now), id)
  {
    hide HasVariant, AnyUnfinished;
    assert Stale(db.builds[id], now) && !AfterLoss(db.builds[id]).Queued?;
    ReclaimLeaves(db, now, id);
  }

  /** No other step ends a build. */
  lemma OthersEndNone(db: Database, e: Event, now: int, id: string, clock: int)
    requires BuildsOk(db, clock) && !e.Finalizing? && !e.Cancelling? && !e.Reclaiming?
    ensures !Ends(db, After(db, e, now), id)
  {
    hide BuildsOk, Restated, HasVariant, NextBuild, Bounded, LogBytes, LogCharacters, MaxSequence, LeaseRefusal,
        EarlierCommand;
    if e.Claiming? {
      ClaimPicks(db, now, clock);
    }
  }

  /** However a build ends, exactly when it keeps unfinished variants is settled by the tables before that step. */
  lemma EndingLeaves(db: Database, e: Event, now: int, id: string, clock: int)
    requires BuildsOk(db, clock) && Ends(db, After(db, e, now), id)
    ensures EndsAs(db, e, After(db, e, now), id)
  {
    hide After, Ends, EndsAs, BuildsOk;
    match e
    case Finalizing(_, _) => FinalizeEnds(db, e, now, id);
    case Cancelling(_, _, _) => CancelEnds(db, e, now, id);
    case Reclaiming => ReclaimEnds(db, e, now, id);
    case _ => OthersEndNone(db, e, now, id, clock);
  }

  // ---------- Builds nobody works on ----------

  predicate Rests(s: BuildState)
  {
    Terminal(s) || s.Queued?
  }

  /** A build that was and stays queued, or was and stays ended, keeps its row and its variants. */
  ghost predicate Resting(db: Database, after: Database, id: string)
  {
    && id in db.builds && id in after.builds
    && Rests(db.builds[id].state) && Rests(after.builds[id].state)
    && (db.builds[id].state.Queued? <==> after.builds[id].state.Queued?)
  }

  lemma WorkRests(db: Database, e: Event, now: int, id: string)
    requires Resting(db, After(db, e, now), id)
    requires e.Starting? || e.Beating? || e.StartingVariant? || e.CompletingVariant? || e.Logging?
    ensures After(db, e, now).builds[id] == db.builds[id] && SameVariants(db, After(db, e, now), id)
  {
    hide HasVariant, FinalState, Bounded, LogBytes, LogCharacters, MaxSequence, SameVariants;
    var after := After(db, e, now);
    if after.variants != db.variants {
      OneVariantMoves(db, after, (e.id, e.variant), id);
    } else {
      VariantsStay(db, after, id);
    }
  }

  lemma OneVariantMoves(db: Database, after: Database, key: (string, string), id: string)
    requires key.0 != id && key in after.variants && after.variants == db.variants[key := after.variants[key]]
    ensures SameVariants(db, after, id)
  {
  }

  /** A command on one build leaves the variants of the others alone. */
  lemma OthersKeepVariants(db: Database, after: Database, acted: string, p: Variant -> bool, f: Variant -> Variant,
      id: string)
    requires id != acted && after.variants == Restated(db.variants, acted, p, f)
    ensures SameVariants(db, after, id)
  {
  }

  lemma FinalizeRests(db: Database, e: Event, now: int, id: string)
    requires Resting(db, After(db, e, now), id) && e.Finalizing?
    ensures After(db, e, now).builds[id] == db.builds[id] && SameVariants(db, After(db, e, now), id)
  {
    hide HasVariant, FinalState, SameVariants, Restated;
    var after := After(db, e, now);
    if after.variants != db.variants {
      OthersKeepVariants(db, after, e.id, Unfinished(), CancelledVariant(now), id);
    } else {
      VariantsStay(db, after, id);
    }
  }

  lemma VariantsStay(db: Database, after: Database, id: string)
    requires after.variants == db.variants
    ensures SameVariants(db, after, id)
  {
  }

  lemma CancelRests(db: Database, e: Event, now: int, id: string)
    requires Resting(db, After(db, e, now), id) && e.Cancelling?
    ensures After(db, e, now).builds[id] == db.builds[id] && SameVariants(db, After(db, e, now), id)
  {
    hide HasVariant, EarlierCommand, SameVariants, Restated;
    var after := After(db, e, now);
    if after.variants != db.variants {
      OthersKeepVariants(db, after, e.id, InState(VariantQueued), CancelledVariant(now), id);
    } else {
      VariantsStay(db, after, id);
    }
  }

  lemma RetryRests(db: Database, e: Event, now: int, id: string)
    requires Resting(db, After(db, e, now), id) && e.Retrying?
    ensures After(db, e, now).builds[id] == db.builds[id] && SameVariants(db, After(db, e, now), id)
  {
    hide HasVariant, EarlierCommand, SameVariants, Restated;
    var after := After(db, e, now);
    if after.variants != db.variants {
      OthersKeepVariants(db, after, e.id, InState(VariantFailed), RetriedVariant(), id);
    } else {
      VariantsStay(db, after, id);
    }
  }

  lemma QueueRests(db: Database, e: Event, now: int, id: string, clock: int)
    requires BuildsOk(db, clock) && VariantsOk(db) && Resting(db, After(db, e, now), id)
    requires e.Creating? || e.Claiming? || e.Reclaiming?
    ensures After(db, e, now).builds[id] == db.builds[id] && SameVariants(db, After(db, e, now), id)
  {
    hide HasVariant, NextBuild, ValidRequest, BuildsOk;
    if e.Claiming? {
      ClaimPicks(db, now, clock);
    }
  }

  lemma RestingStays(db: Database, e: Event, now: int, id: string, clock: int)
    requires BuildsOk(db, clock) && VariantsOk(db) && Resting(db, After(db, e, now), id)
    ensures After(db, e, now).builds[id] == db.builds[id] && SameVariants(db, After(db, e, now), id)
  {
    hide After, Resting, BuildsOk, VariantsOk, SameVariants;
    if e.Creating? || e.Claiming? || e.Reclaiming? {
      QueueRests(db, e, now, id, clock);
    } else if e.Finalizing? {
      FinalizeRests(db, e, now, id);
    } else if e.Cancelling? {
      CancelRests(db, e, now, id);
    } else if e.Retrying? {
      RetryRests(db, e, now, id);
    } else {
      WorkRests(db, e, now, id);
    }
  }

  // ---------- Runs ----------

  /** The step that ended the build for good, as of state j. */
  ghost function EndedAt(ws: seq<World>, id: string, j: nat): nat
    requires j < |ws|
  {
    if j == 0 then 0
    else if id in ws[j - 1].db.builds && Terminal(ws[j - 1].db.builds[id].state) then EndedAt(ws, id, j - 1)
    else j - 1
  }

  /** Step i ended the build, and state j shows what it left. */
  ghost predicate EndedBy(ws: seq<World>, es: seq<Event>, i: nat, j: nat, id: string)
    requires i < j < |ws| == |es| + 1
  {
    && Ends(ws[i].db, ws[i + 1].db, id) && EndsAs(ws[i].db, es[i], ws[i + 1].db, id)
    && id in ws[j].db.builds && ws[j].db.builds[id] == ws[i + 1].db.builds[id]
    && (AnyUnfinished(ws[j].db, id) <==> LeavesUnfinished(ws[i].db, es[i], id))
    && (HasVariant(ws[j].db, id, VariantRunning) <==> LeavesRunning(ws[i].db, es[i], id))
  }

  /** An ended build has unfinished variants exactly when the step that ended it left them. */
  lemma {:induction false} EndedBuild(ws: seq<World>, es: seq<Event>, j: nat, id: string)
    requires Run(ws, es) && j < |ws| && id in ws[j].db.builds && Terminal(ws[j].db.builds[id].state)
    ensures EndedAt(ws, id, j) < j && EndedBy(ws, es, EndedAt(ws, id, j), j, id)
  {
    hide After, HasVariant, LeavesUnfinished, LeavesRunning, BuildsOk, VariantsOk, LogsOk, BuildSteps, VariantSteps,
        SameVariants;
    RunKeeps(ws, es, j);
    if j > 0 {
      var before, e := ws[j - 1], es[j - 1];
      RunKeeps(ws, es, j - 1);
      assert Next(before, e, ws[j]);
      if id !in before.db.builds {
        NewIsQueued(before.db, e, ws[j].clock, id, before.clock);
      } else if Terminal(before.db.builds[id].state) {
        EndedBuild(ws, es, j - 1, id);
        RestingStays(before.db, e, ws[j].clock, id, before.clock);
        SameVariantsSame(before.db, ws[j].db, id);
      } else {
        EndingLeaves(before.db, e, ws[j].clock, id, before.clock);
      }
    }
  }

  /** A build enters the table queued, and with it its queued variants. */
  lemma NewIsQueued(db: Database, e: Event, now: int, id: string, clock: int)
    requires BuildsOk(db, clock) && VariantsOk(db) && id !in db.builds && id in After(db, e, now).builds
    ensures After(db, e, now).builds[id].state.Queued? && !HasVariant(After(db, e, now), id, VariantRunning)
    ensures e.Creating?
  {
    hide After, BuildsOk, VariantsOk, HasVariant;
    if e.Creating? {
      CreatedIsQueued(db, e, now, id);
    } else {
      OthersAddNone(db, e, now, clock);
    }
  }

  lemma CreatedIsQueued(db: Database, e: Event, now: int, id: string)
    requires VariantsOk(db) && e.Creating? && id !in db.builds && id in After(db, e, now).builds
    ensures After(db, e, now).builds[id].state.Queued? && !HasVariant(After(db, e, now), id, VariantRunning)
  {
    hide ValidRequest;
  }

  lemma OthersAddNone(db: Database, e: Event, now: int, clock: int)
    requires BuildsOk(db, clock) && !e.Creating?
    ensures After(db, e, now).builds.Keys == db.builds.Keys
  {
    hide BuildsOk, Restated, HasVariant, NextBuild, Bounded, LogBytes, LogCharacters, MaxSequence, LeaseRefusal,
        EarlierCommand, FinalState;
    if e.Claiming? {
      ClaimPicks(db, now, clock);
    }
  }

  // ---------- Queued builds ----------

  /** The step puts the build in the queue. */
  ghost predicate Queues(db: Database, after: Database, id: string)
  {
    && id in after.builds && after.builds[id].state.Queued?
    && (id in db.builds ==> !db.builds[id].state.Queued?)
  }

  ghost predicate QueuesAs(db: Database, e: Event, after: Database, id: string)
  {
    && (HasVariant(after, id, VariantRunning) <==>
          e.Retrying? && id in db.builds && HasVariant(db, id, VariantRunning))
    && (e.Retrying? ==>
          && id in db.builds && Terminal(db.builds[id].state) && !db.builds[id].state.Cancelled?
          && db.builds[id].attempt < db.builds[id].maxAttempts)
  }

  /** A retry restarts failed variants only: one that runs goes on running. */
  lemma RetryQueues(db: Database, e: Event, now: int, id: string)
    requires e.Retrying? && Queues(db, After(db, e, now), id)
    ensures QueuesAs(db, e, After(db, e, now), id)
  {
    hide EarlierCommand;
    var after := After(db, e, now);
    assert e.id == id && after.variants == Restated(db.variants, id, InState(VariantFailed), RetriedVariant());
    if key :| key in db.variants && key.0 == id && db.variants[key].state.VariantRunning? {
      assert after.variants[key].state.VariantRunning?;
    }
  }

  lemma ReclaimQueues(db: Database, e: Event, now: int, id: string)
    requires e.Reclaiming? && Queues(db, After(db, e, now), id)
    ensures QueuesAs(db, e, After(db, e, now), id)
  {
    hide HasVariant;
    assert Stale(db.builds[id], now) && AfterLoss(db.builds[id]).Queued?;
    ReclaimLeaves(db, now, id);
  }

  lemma OthersQueueNone(db: Database, e: Event, now: int, id: string, clock: int)
    requires BuildsOk(db, clock) && !e.Retrying? && !e.Reclaiming? && id in db.builds
    ensures !Queues(db, After(db, e, now), id)
  {
    hide BuildsOk, Restated, HasVariant, NextBuild, Bounded, LogBytes, LogCharacters, MaxSequence, LeaseRefusal,
        EarlierCommand;
    if e.Claiming? {
      ClaimPicks(db, now, clock);
    }
  }

  /** The step that queued the build, as of state j. */
  ghost function QueuedAt(ws: seq<World>, id: string, j: nat): nat
    requires j < |ws|
  {
    if j == 0 then 0
    else if id in ws[j - 1].db.builds && ws[j - 1].db.builds[id].state.Queued? then QueuedAt(ws, id, j - 1)
    else j - 1
  }

  ghost predicate QueuedBy(ws: seq<World>, es: seq<Event>, i: nat, j: nat, id: string)
    requires i < j < |ws| == |es| + 1
  {
    && Queues(ws[i].db, ws[i + 1].db, id) && QueuesAs(ws[i].db, es[i], ws[i + 1].db, id)
    && (HasVariant(ws[j].db, id, VariantRunning) <==>
          es[i].Retrying? && id in ws[i].db.builds && HasVariant(ws[i].db, id, VariantRunning))
  }

  lemma {:induction false} QueuedBuild(ws: seq<World>, es: seq<Event>, j: nat, id: string)
    requires Run(ws, es) && j < |ws| && id in ws[j].db.builds && ws[j].db.builds[id].state.Queued?
    ensures QueuedAt(ws, id, j) < j && QueuedBy(ws, es, QueuedAt(ws, id, j), j, id)
  {
    hide After, HasVariant, BuildsOk, VariantsOk, LogsOk, BuildSteps, VariantSteps, SameVariants;
    RunKeeps(ws, es, j);
    if j > 0 {
      var before, e := ws[j - 1], es[j - 1];
      RunKeeps(ws, es, j - 1);
      assert Next(before, e, ws[j]);
      if id in before.db.builds && before.db.builds[id].state.Queued? {
        QueuedBuild(ws, es, j - 1, id);
        RestingStays(before.db, e, ws[j].clock, id, before.clock);
        SameVariantsSame(before.db, ws[j].db, id);
      } else if id !in before.db.builds {
        NewIsQueued(before.db, e, ws[j].clock, id, before.clock);
      } else if e.Retrying? {
        RetryQueues(before.db, e, ws[j].clock, id);
      } else if e.Reclaiming? {
        ReclaimQueues(before.db, e, ws[j].clock, id);
      } else {
        OthersQueueNone(before.db, e, ws[j].clock, id, before.clock);
      }
    }
  }

  /** The build went back to the queue from an end that finalization gave it with variants failed and others running. */
  ghost predicate RetriedTooEarly(ws: seq<World>, es: seq<Event>, j: nat, id: string)
    requires j < |ws| == |es| + 1
  {
    var i := QueuedAt(ws, id, j);
    && i < |es| && es[i].Retrying?
    && var k := EndedAt(ws, id, i);
    && k < |es| && es[k].Finalizing? && id in ws[k].db.builds && ws[k].db.builds[id].cancelRequestedAt.None?
    && HasVariant(ws[k].db, id, VariantFailed) && HasVariant(ws[k].db, id, VariantRunning)
  }

  /** A queued build holds a running variant exactly when it was finalized with one and then retried. */
  lemma QueuedRunsNothing(ws: seq<World>, es: seq<Event>, j: nat, id: string)
    requires Run(ws, es) && j < |ws| && id in ws[j].db.builds && ws[j].db.builds[id].state.Queued?
    ensures HasVariant(ws[j].db, id, VariantRunning) <==> RetriedTooEarly(ws, es, j, id)
  {
    hide After, HasVariant, LeavesUnfinished;
    QueuedBuild(ws, es, j, id);
    var i := QueuedAt(ws, id, j);
    if es[i].Retrying? {
      EndedBuild(ws, es, i, id);
    }
  }

  // ---------- Two runs ----------

  const EMPTY := Database(map[], map[], map[], map[], {})
  const RUNNING_VARIANT := NEW_VARIANT.(state := VariantRunning, startedAt := Some(0), version := 2)
  const ONE_TRY := Request("b", "k", "", ["default"], 1)
  const BOTH := Request("b", "k", "", ["default", "jvm"], 3)

  /** The tables with the one build "b". */
  function Single(b: Build, variants: map<(string, string), Variant>, tokens: set<string>): Database
  {
    Database(map["b" := b], variants, map[], map[("b", "k") := Queued], tokens)
  }

  lemma SingleClaimed(b: Build, variants: map<(string, string), Variant>, tokens: set<string>, token: string)
    requires BuildOk(b, "b", tokens, 0) && Claimable(b, 0)
    ensures After(Single(b, variants, tokens), Claiming("w", token, 1), 0)
      == Single(ClaimedRow(b, "w", token, 1, 0), variants, tokens + {token})
  {
    hide First;
    var db := Single(b, variants, tokens);
    ClaimPicks(db, 0, 0);
    assert Claimable(db.builds["b"], 0);
  }

  lemma SingleStarted(b: Build, variants: map<(string, string), Variant>, tokens: set<string>, variant: string)
    requires b.leaseToken == "t" && b.leaseExpiresAt == Some(1) && InHand(b.state) && b.cancelRequestedAt.None?
    requires ("b", variant) in variants && variants[("b", variant)] == NEW_VARIANT
    ensures After(Single(b, variants, tokens), StartingVariant("b", variant, "t"), 0)
      == Single(b, variants[("b", variant) := RUNNING_VARIANT], tokens)
  {
  }

  lemma OneTryCreated()
    ensures After(EMPTY, Creating(ONE_TRY), 0)
      == Single(NewBuild(ONE_TRY, 0), map[("b", "default") := NEW_VARIANT], {})
  {
    assert Created(EMPTY, ONE_TRY, 0).variants == map[("b", "default") := NEW_VARIANT];
  }

  lemma OneTryLost()
    ensures var b := ClaimedRow(NewBuild(ONE_TRY, 0), "w", "t", 1, 0);
      var db := Single(b, map[("b", "default") := RUNNING_VARIANT], {"t"});
      Reclaim(db, 1) == Single(LostRow(b, 1), map[("b", "default") := RUNNING_VARIANT], {"t"})
  {
  }

  const LOST_BUILD := ClaimedRow(NewBuild(ONE_TRY, 0), "w", "t", 1, 0)
  const ONE_QUEUED := map[("b", "default") := NEW_VARIANT]
  const ONE_RUNNING := map[("b", "default") := RUNNING_VARIANT]

  /** The worker of the last attempt is lost: the build fails with a variant running and none failed. */
  lemma LostWhileRunning() returns (ws: seq<World>, es: seq<Event>)
    ensures Run(ws, es) && |ws| == 5 && "b" in ws[4].db.builds && ws[4].db.builds["b"].state.Failed?
    ensures HasVariant(ws[4].db, "b", VariantRunning) && !HasVariant(ws[4].db, "b", VariantFailed)
  {
    hide Create, ClaimNext, StartVariant, Reclaim;
    ws := [World(EMPTY, 0), World(Single(NewBuild(ONE_TRY, 0), ONE_QUEUED, {}), 0),
           World(Single(LOST_BUILD, ONE_QUEUED, {"t"}), 0), World(Single(LOST_BUILD, ONE_RUNNING, {"t"}), 0),
           World(Single(LostRow(LOST_BUILD, 1), ONE_RUNNING, {"t"}), 1)];
    es := [Creating(ONE_TRY), Claiming("w", "t", 1), StartingVariant("b", "default", "t"), Reclaiming];
    OneTryCreated();
    assert Next(ws[0], es[0], ws[1]);
    SingleClaimed(NewBuild(ONE_TRY, 0), ONE_QUEUED, {}, "t");
    assert {} + {"t"} == {"t"};
    assert Next(ws[1], es[1], ws[2]);
    SingleStarted(LOST_BUILD, ONE_QUEUED, {"t"}, "default");
    assert ONE_QUEUED[("b", "default") := RUNNING_VARIANT] == ONE_RUNNING;
    assert Next(ws[2], es[2], ws[3]);
    OneTryLost();
    assert Next(ws[3], es[3], ws[4]);
    assert ONE_RUNNING[("b", "default")].state.VariantRunning?;
  }

  const WORKED_BUILD := ClaimedRow(NewBuild(BOTH, 0), "w", "t", 1, 0)
  const FAILED_BUILD := Released(WORKED_BUILD, Failed, 0)
  const RETRIED_BUILD := FAILED_BUILD.(state := Queued, errorClass := "", completedAt := None,
                                       version := FAILED_BUILD.version + 1)
  const BROKEN := Outcome([], "", false, false, "x")
  const FAILED_VARIANT := Variant(VariantFailed, [], "", false, false, Bounded("x", 64), Some(0), Some(0), 3)

  function Pair(standard: Variant, jvm: Variant): map<(string, string), Variant>
  {
    map[("b", "default") := standard, ("b", "jvm") := jvm]
  }

  lemma BothCreated()
    ensures After(EMPTY, Creating(BOTH), 0) == Single(NewBuild(BOTH, 0), Pair(NEW_VARIANT, NEW_VARIANT), {})
  {
    assert Created(EMPTY, BOTH, 0).variants == Pair(NEW_VARIANT, NEW_VARIANT);
  }

  lemma BothClaimed()
    ensures Disciplined(Single(NewBuild(BOTH, 0), Pair(NEW_VARIANT, NEW_VARIANT), {}), Claiming("w", "t", 1))
    ensures After(Single(NewBuild(BOTH, 0), Pair(NEW_VARIANT, NEW_VARIANT), {}), Claiming("w", "t", 1), 0)
      == Single(WORKED_BUILD, Pair(NEW_VARIANT, NEW_VARIANT), {"t"})
  {
    hide After;
    SingleClaimed(NewBuild(BOTH, 0), Pair(NEW_VARIANT, NEW_VARIANT), {}, "t");
    assert {} + {"t"} == {"t"};
  }

  lemma BothStarted()
    ensures After(Single(WORKED_BUILD, Pair(NEW_VARIANT, NEW_VARIANT), {"t"}), StartingVariant("b", "default", "t"), 0)
      == Single(WORKED_BUILD, Pair(RUNNING_VARIANT, NEW_VARIANT), {"t"})
    ensures After(Single(WORKED_BUILD, Pair(RUNNING_VARIANT, NEW_VARIANT), {"t"}), StartingVariant("b", "jvm", "t"), 0)
      == Single(WORKED_BUILD, Pair(RUNNING_VARIANT, RUNNING_VARIANT), {"t"})
  {
    hide After;
    var none, one := Pair(NEW_VARIANT, NEW_VARIANT), Pair(RUNNING_VARIANT, NEW_VARIANT);
    SingleStarted(WORKED_BUILD, none, {"t"}, "default");
    SingleStarted(WORKED_BUILD, one, {"t"}, "jvm");
    assert none[("b", "default") := RUNNING_VARIANT] == one;
    assert one[("b", "jvm") := RUNNING_VARIANT] == Pair(RUNNING_VARIANT, RUNNING_VARIANT);
  }

  lemma JvmFailed()
    ensures After(Single(WORKED_BUILD, Pair(RUNNING_VARIANT, RUNNING_VARIANT), {"t"}),
                  CompletingVariant("b", "jvm", "t", BROKEN), 0)
      == Single(WORKED_BUILD, Pair(RUNNING_VARIANT, FAILED_VARIANT), {"t"})
  {
    hide Bounded;
  }

  lemma BothFinalized()
    ensures After(Single(WORKED_BUILD, Pair(RUNNING_VARIANT, FAILED_VARIANT), {"t"}), Finalizing("b", "t"), 0)
      == Single(FAILED_BUILD, Pair(RUNNING_VARIANT, FAILED_VARIANT), {"t"})
  {
    hide Bounded, Finalize;
    var db := Single(WORKED_BUILD, Pair(RUNNING_VARIANT, FAILED_VARIANT), {"t"});
    assert db.variants[("b", "jvm")].state.VariantFailed?;
    assert FinalState(db, "b", false) == Some(Failed) by {
      assert HasVariant(db, "b", VariantFailed) && !HasVariant(db, "b", VariantCompleted);
    }
    JustFailed(db);
  }

  lemma JustFailed(db: Database)
    requires "b" in db.builds && db.builds["b"] == WORKED_BUILD && FinalState(db, "b", false) == Some(Failed)
    ensures Finalize(db, "b", "t", 0) == Ok(WithBuild(db, "b", FAILED_BUILD))
  {
    hide FinalState;
  }

  lemma BothRetried()
    ensures After(Single(FAILED_BUILD, Pair(RUNNING_VARIANT, FAILED_VARIANT), {"t"}),
                  Retrying("b", FAILED_BUILD.version, ""), 0)
      == Single(RETRIED_BUILD, Pair(RUNNING_VARIANT, RetriedVariant()(FAILED_VARIANT)), {"t"})
  {
    hide Bounded;
  }

  /** The retried build as the next worker finds it. */
  lemma RetriedClaimed()
    ensures var restarted := Pair(RUNNING_VARIANT, RetriedVariant()(FAILED_VARIANT));
      var before, after := Single(RETRIED_BUILD, restarted, {"t"}),
                           Single(ClaimedRow(RETRIED_BUILD, "w", "u", 1, 0), restarted, {"t", "u"});
      && Disciplined(before, Claiming("w", "u", 1)) && After(before, Claiming("w", "u", 1), 0) == after
      && "b" in before.builds && before.builds["b"].state.Queued? && LeaseRefusal(after, "b", "u", 0).None?
      && ("b", "default") in before.variants && before.variants[("b", "default")].state.VariantRunning?
      && ("b", "default") in after.variants && after.variants[("b", "default")].state.VariantRunning?
  {
    hide After, Bounded;
    SingleClaimed(RETRIED_BUILD, Pair(RUNNING_VARIANT, RetriedVariant()(FAILED_VARIANT)), {"t"}, "u");
    assert {"t"} + {"u"} == {"t", "u"};
  }

  /**
   Finalized with one variant failed and the other running, then retried: the queue holds a running
   variant, and the next claim cannot start it.
  */
  lemma RetriedWhileRunning() returns (ws: seq<World>, es: seq<Event>)
    ensures Run(ws, es) && |ws| == 9 && ("b", "default") in ws[7].db.variants
    ensures "b" in ws[7].db.builds && ws[7].db.builds["b"].state.Queued?
    ensures ws[7].db.variants[("b", "default")].state.VariantRunning?
    ensures LeaseRefusal(ws[8].db, "b", "u", 0).None?
    ensures StartVariant(ws[8].db, "b", "default", "u", 0) == Err(VersionConflict)
  {
    hide After, Single, Pair, StartVariant, LeaseRefusal, Bounded;
    var restarted := Pair(RUNNING_VARIANT, RetriedVariant()(FAILED_VARIANT));
    ws := [World(EMPTY, 0), World(Single(NewBuild(BOTH, 0), Pair(NEW_VARIANT, NEW_VARIANT), {}), 0),
           World(Single(WORKED_BUILD, Pair(NEW_VARIANT, NEW_VARIANT), {"t"}), 0),
           World(Single(WORKED_BUILD, Pair(RUNNING_VARIANT, NEW_VARIANT), {"t"}), 0),
           World(Single(WORKED_BUILD, Pair(RUNNING_VARIANT, RUNNING_VARIANT), {"t"}), 0),
           World(Single(WORKED_BUILD, Pair(RUNNING_VARIANT, FAILED_VARIANT), {"t"}), 0),
           World(Single(FAILED_BUILD, Pair(RUNNING_VARIANT, FAILED_VARIANT), {"t"}), 0),
           World(Single(RETRIED_BUILD, restarted, {"t"}), 0),
           World(Single(ClaimedRow(RETRIED_BUILD, "w", "u", 1, 0), restarted, {"t", "u"}), 0)];
    es := [Creating(BOTH), Claiming("w", "t", 1), StartingVariant("b", "default", "t"),
           StartingVariant("b", "jvm", "t"), CompletingVariant("b", "jvm", "t", BROKEN), Finalizing("b", "t"),
           Retrying("b", FAILED_BUILD.version, ""), Claiming("w", "u", 1)];
    BothCreated();
    assert Next(ws[0], es[0], ws[1]);
    BothClaimed();
    assert Next(ws[1], es[1], ws[2]);
    BothStarted();
    assert Next(ws[2], es[2], ws[3]) && Next(ws[3], es[3], ws[4]);
    JvmFailed();
    assert Next(ws[4], es[4], ws[5]);
    BothFinalized();
    assert Next(ws[5], es[5], ws[6]);
    BothRetried();
    assert Next(ws[6], es[6], ws[7]);
    RetriedClaimed();
    assert Next(ws[7], es[7], ws[8]);
    RunningNeverStarts(ws[8].db, "b", "default", "u", 0);
  }

  /** A worker with the lease may complete a running variant, but not start it. */
  lemma RunningNeverStarts(db: Database, id: string, variant: string, token: string, at: int)
    requires LeaseRefusal(db, id, token, at).None? && (id, variant) in db.variants
    requires db.variants[(id, variant)].state.VariantRunning?
    ensures StartVariant(db, id, variant, token, at) == Err(VersionConflict)
    ensures forall outcome :: CompleteVariant(db, id, variant, token, outcome, at).Ok?
  {
    hide Bounded;
  }
}
