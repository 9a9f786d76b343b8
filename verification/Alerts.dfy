/** Operational alerts: one reconcile makes the open alerts of a policy scope equal to its current conditions. */
module Alerts {
  import opened Wrappers
  import opened Text

  datatype Kind = MissedDiscovery | StaleStableRelease | QueueBacklog | LeaseChurn | RepeatedGateFailure | MirrorDrift
    | RolloutFailure | SignatureHealth | Unsupported(name: string)

  datatype Severity = Warning | Critical | OtherSeverity(name: string)

  /** Stands for the digest of the four texts, taken to be injective. */
  datatype Fingerprint = Fingerprint(scope: string, kind: Kind, scopeType: string, scopeId: string)

  datatype Condition = Condition(fingerprint: Fingerprint, kind: Kind, severity: Severity, scopeType: string,
      scopeId: string, summary: string, evidence: string)

  datatype State = Open | Resolved

  datatype Alert = Alert(
    fingerprint: Fingerprint, kind: Kind, severity: Severity, state: State, scopeType: string, scopeId: string,
    summary: string, evidence: string,
    policyId: string, policyScope: string, policyRevision: string, triggerCount: int, generation: int, version: int,
    firstTriggeredAt: int, lastTriggeredAt: int, resolvedAt: Option<int>, createdAt: int, updatedAt: int)

  datatype EventType = AlertOpened | AlertReopened | AlertResolved

  /** The idempotency key of a lifecycle event. */
  datatype EventKey = EventKey(fingerprint: Fingerprint, generation: int, eventType: EventType)

  datatype Database = Database(alerts: map<Fingerprint, Alert>, events: multiset<EventKey>)

  datatype Request = Request(scope: string, policyId: string, revision: string)

  /** What an evaluation found: the kinds it looked at and the conditions that hold. */
  datatype Signals = Signals(evaluated: set<Kind>, conditions: map<Fingerprint, Condition>)

  datatype Counts = Counts(openWarning: nat, openCritical: nat, resolved: nat)

  datatype Summary = Summary(openedCount: nat, reopenedCount: nat, resolvedCount: nat, active: Counts)

  // ---------- Conditions ----------

  const MAX_SUMMARY_BYTES := 500
  const MAX_EVIDENCE_BYTES := 4096

  predicate ValidKind(k: Kind)
  {
    !k.Unsupported?
  }

  predicate ValidCondition(scope: string, kind: Kind, severity: Severity, scopeType: string, scopeId: string,
      summary: string, evidence: string)
  {
    && TrimSpace(scope) != "" && ValidKind(kind) && !severity.OtherSeverity? && TrimSpace(scopeType) != ""
    && TrimSpace(scopeId) != ""
    && 0 < |TrimSpace(summary)| <= MAX_SUMMARY_BYTES && |evidence| <= MAX_EVIDENCE_BYTES
  }

  /** evidence is the encoded text. */
  function NewCondition(scope: string, kind: Kind, severity: Severity, scopeType: string, scopeId: string,
      summary: string, evidence: string): Option<Condition>
  {
    if ValidCondition(scope, kind, severity, scopeType, scopeId, summary, evidence) then
      Some(Condition(Fingerprint(TrimSpace(scope), kind, TrimSpace(scopeType), TrimSpace(scopeId)), kind, severity,
                     TrimSpace(scopeType), TrimSpace(scopeId), TrimSpace(summary), evidence))
    else None
  }

  /** The condition is keyed by its own fingerprint, for this scope. */
  predicate Keyed(c: Condition, fp: Fingerprint, scope: string)
  {
    && c.fingerprint == fp && fp.scope == scope && c.kind == fp.kind && c.scopeType == fp.scopeType
    && c.scopeId == fp.scopeId && !c.severity.OtherSeverity?
  }

  ghost predicate WellKeyed(conditions: map<Fingerprint, Condition>, scope: string)
  {
    forall fp :: fp in conditions ==> Keyed(conditions[fp], fp, scope)
  }

  /** Adding an accepted condition under its fingerprint keeps the signals well keyed. */
  lemma AddingKeepsKeyed(conditions: map<Fingerprint, Condition>, scope: string, kind: Kind, severity: Severity,
      scopeType: string, scopeId: string, summary: string, evidence: string)
    requires WellKeyed(conditions, TrimSpace(scope))
    requires NewCondition(scope, kind, severity, scopeType, scopeId, summary, evidence).Some?
    ensures var c := NewCondition(scope, kind, severity, scopeType, scopeId, summary, evidence).value;
      WellKeyed(conditions[c.fingerprint := c], TrimSpace(scope))
  {
    hide TrimSpace;
  }

  // ---------- Reconcile ----------

  function OpenedAlert(c: Condition, r: Request, now: int): Alert
  {
    Alert(c.fingerprint, c.kind, c.severity, Open, c.scopeType, c.scopeId, c.summary, c.evidence, r.policyId, r.scope,
          r.revision, 1, 1, 1, now, now, None, now, now)
  }

  function RefreshedAlert(a: Alert, c: Condition, r: Request, now: int): Alert
  {
    a.(state := Open, generation := if a.state.Resolved? then a.generation + 1 else a.generation,
       severity := c.severity, summary := c.summary, evidence := c.evidence, policyId := r.policyId,
       policyRevision := r.revision, triggerCount := a.triggerCount + 1, version := a.version + 1,
       lastTriggeredAt := now, resolvedAt := None, updatedAt := now)
  }

  function ResolvedAlert(a: Alert, now: int): Alert
  {
    a.(state := Resolved, resolvedAt := Some(now), version := a.version + 1, updatedAt := now)
  }

  /** An open alert of the scope whose kind was evaluated and whose condition no longer holds. */
  predicate Expires(a: Alert, r: Request, s: Signals)
  {
    a.policyScope == r.scope && a.state.Open? && a.kind in s.evaluated && a.fingerprint !in s.conditions
  }

  function AlertAfter(alerts: map<Fingerprint, Alert>, r: Request, s: Signals, now: int, fp: Fingerprint): Alert
    requires fp in alerts || fp in s.conditions
  {
    if fp in s.conditions then
      if fp in alerts then RefreshedAlert(alerts[fp], s.conditions[fp], r, now)
      else OpenedAlert(s.conditions[fp], r, now)
    else if Expires(alerts[fp], r, s) then ResolvedAlert(alerts[fp], now)
    else alerts[fp]
  }

  function AlertsAfter(alerts: map<Fingerprint, Alert>, r: Request, s: Signals, now: int): map<Fingerprint, Alert>
  {
    map fp | fp in alerts.Keys + s.conditions.Keys :: AlertAfter(alerts, r, s, now, fp)
  }

  function OpenedBy(alerts: map<Fingerprint, Alert>, s: Signals): set<Fingerprint>
  {
    set fp | fp in s.conditions && fp !in alerts
  }

  function ReopenedBy(alerts: map<Fingerprint, Alert>, s: Signals): set<Fingerprint>
  {
    set fp | fp in s.conditions && fp in alerts && alerts[fp].state.Resolved?
  }

  function ResolvedBy(alerts: map<Fingerprint, Alert>, r: Request, s: Signals): set<Fingerprint>
  {
    set fp | fp in alerts && Expires(alerts[fp], r, s)
  }

  function OpenKeys(fps: set<Fingerprint>): set<EventKey>
  {
    set fp | fp in fps :: EventKey(fp, 1, AlertOpened)
  }

  function ReopenKeys(alerts: map<Fingerprint, Alert>, fps: set<Fingerprint>): set<EventKey>
  {
    set fp | fp in fps && fp in alerts :: EventKey(fp, alerts[fp].generation + 1, AlertReopened)
  }

  function ResolveKeys(alerts: map<Fingerprint, Alert>, fps: set<Fingerprint>): set<EventKey>
  {
    set fp | fp in fps && fp in alerts :: EventKey(fp, alerts[fp].generation, AlertResolved)
  }

  function OpenEvents(alerts: map<Fingerprint, Alert>, s: Signals): set<EventKey>
  {
    OpenKeys(OpenedBy(alerts, s))
  }

  function ReopenEvents(alerts: map<Fingerprint, Alert>, s: Signals): set<EventKey>
  {
    ReopenKeys(alerts, ReopenedBy(alerts, s))
  }

  function ResolveEvents(alerts: map<Fingerprint, Alert>, r: Request, s: Signals): set<EventKey>
  {
    ResolveKeys(alerts, ResolvedBy(alerts, r, s))
  }

  function Reconcile(db: Database, r: Request, s: Signals, now: int): Database
  {
    Database(AlertsAfter(db.alerts, r, s, now),
             db.events + multiset(OpenEvents(db.alerts, s)) + multiset(ReopenEvents(db.alerts, s))
               + multiset(ResolveEvents(db.alerts, r, s)))
  }

  /** Open alerts of one severity. */
  function OpenWith(alerts: map<Fingerprint, Alert>, severity: Severity): set<Fingerprint>
  {
    set fp | fp in alerts && alerts[fp].state.Open? && alerts[fp].severity == severity
  }

  function ResolvedIn(alerts: map<Fingerprint, Alert>): set<Fingerprint>
  {
    set fp | fp in alerts && alerts[fp].state.Resolved?
  }

  function CountsOf(alerts: map<Fingerprint, Alert>): Counts
  {
    Counts(|OpenWith(alerts, Warning)|, |OpenWith(alerts, Critical)|, |ResolvedIn(alerts)|)
  }

  function SummaryOf(db: Database, r: Request, s: Signals, now: int): Summary
  {
    Summary(|OpenedBy(db.alerts, s)|, |ReopenedBy(db.alerts, s)|, |ResolvedBy(db.alerts, r, s)|,
            CountsOf(AlertsAfter(db.alerts, r, s, now)))
  }

  // ---------- What a reconcile achieves ----------

  predicate AlertOk(a: Alert, fp: Fingerprint)
  {
    a.fingerprint == fp && a.policyScope == fp.scope && a.kind == fp.kind && a.generation >= 1
  }

  ghost predicate AlertsOk(alerts: map<Fingerprint, Alert>)
  {
    forall fp :: fp in alerts ==> AlertOk(alerts[fp], fp)
  }

  lemma ReconcileKeepsAlerts(db: Database, r: Request, s: Signals, now: int)
    requires AlertsOk(db.alerts) && WellKeyed(s.conditions, r.scope)
    ensures AlertsOk(Reconcile(db, r, s, now).alerts)
  {
  }

  predicate IsOpen(alerts: map<Fingerprint, Alert>, fp: Fingerprint)
  {
    fp in alerts && alerts[fp].state.Open?
  }

  /**
   For each evaluated kind of the scope the open alerts are exactly the conditions; every condition
   has an open alert.
  */
  lemma OpenIsActive(db: Database, r: Request, s: Signals, now: int, fp: Fingerprint)
    requires AlertsOk(db.alerts) && WellKeyed(s.conditions, r.scope) && fp.scope == r.scope
    ensures fp.kind in s.evaluated ==> (IsOpen(Reconcile(db, r, s, now).alerts, fp) <==> fp in s.conditions)
    ensures fp in s.conditions ==> IsOpen(Reconcile(db, r, s, now).alerts, fp)
  {
    assert fp in db.alerts ==> AlertOk(db.alerts[fp], fp);
    assert fp in s.conditions ==> Keyed(s.conditions[fp], fp, r.scope);
  }

  /** Kinds that were not evaluated, and other scopes, keep their alerts as they are. */
  lemma OthersUntouched(db: Database, r: Request, s: Signals, now: int, fp: Fingerprint)
    requires AlertsOk(db.alerts) && WellKeyed(s.conditions, r.scope)
    requires forall c :: c in s.conditions ==> s.conditions[c].kind in s.evaluated
    requires fp.scope != r.scope || fp.kind !in s.evaluated
    ensures fp in Reconcile(db, r, s, now).alerts <==> fp in db.alerts
    ensures fp in db.alerts ==> Reconcile(db, r, s, now).alerts[fp] == db.alerts[fp]
  {
    assert fp in s.conditions ==> Keyed(s.conditions[fp], fp, r.scope);
  }

  function OpenSet(alerts: map<Fingerprint, Alert>): set<Fingerprint>
  {
    set fp | fp in alerts && alerts[fp].state.Open?
  }

  /** Opened plus reopened minus resolved is the change in open alerts. */
  lemma OpenAlertsBalance(db: Database, r: Request, s: Signals, now: int)
    requires AlertsOk(db.alerts)
    ensures var summary := SummaryOf(db, r, s, now);
      |OpenSet(Reconcile(db, r, s, now).alerts)| - |OpenSet(db.alerts)|
        == summary.openedCount + summary.reopenedCount - summary.resolvedCount
  {
    hide Reconcile, OpenedBy, ReopenedBy, ResolvedBy, OpenSet;
    var before, after := OpenSet(db.alerts), OpenSet(Reconcile(db, r, s, now).alerts);
    var come, back, gone := OpenedBy(db.alerts, s), ReopenedBy(db.alerts, s), ResolvedBy(db.alerts, r, s);
    forall fp
      ensures fp in after <==> fp in (before - gone) + (come + back)
    {
      OpenAfter(db, r, s, now, fp);
    }
    OpenSetsApart(db.alerts, r, s);
    SetBalance(before, after, come, back, gone);
  }

  lemma OpenSetsApart(alerts: map<Fingerprint, Alert>, r: Request, s: Signals)
    ensures ResolvedBy(alerts, r, s) <= OpenSet(alerts) && OpenSet(alerts) !! OpenedBy(alerts, s)
    ensures OpenSet(alerts) !! ReopenedBy(alerts, s) && OpenedBy(alerts, s) !! ReopenedBy(alerts, s)
  {
  }

  /** An alert is open afterwards when it was opened, reopened, or was open and not resolved. */
  lemma OpenAfter(db: Database, r: Request, s: Signals, now: int, fp: Fingerprint)
    requires AlertsOk(db.alerts)
    ensures fp in OpenSet(Reconcile(db, r, s, now).alerts) <==>
            || (fp in OpenSet(db.alerts) && fp !in ResolvedBy(db.alerts, r, s))
            || fp in OpenedBy(db.alerts, s) || fp in ReopenedBy(db.alerts, s)
  {
    assert fp in db.alerts ==> AlertOk(db.alerts[fp], fp);
  }

  predicate Counted(a: Alert)
  {
    a.state.Resolved? || a.severity.Warning? || a.severity.Critical?
  }

  /** The counts add up to all alerts exactly when no open alert has an unknown severity. */
  lemma CountsAddUp(alerts: map<Fingerprint, Alert>)
    ensures var c := CountsOf(alerts);
      c.openWarning + c.openCritical + c.resolved == |alerts| <==> forall fp :: fp in alerts ==> Counted(alerts[fp])
  {
    hide OpenWith, ResolvedIn, Counted;
    CountsApart(alerts);
    var w, c, done := OpenWith(alerts, Warning), OpenWith(alerts, Critical), ResolvedIn(alerts);
    var all := w + c + done;
    assert |all| == |w| + |c| + |done| by {
      assert |w + c| == |w| + |c|;
    }
    if fp :| fp in alerts && !Counted(alerts[fp]) {
      Smaller(all, alerts.Keys - {fp});
    } else {
      assert all == alerts.Keys;
    }
  }

  lemma CountsApart(alerts: map<Fingerprint, Alert>)
    ensures OpenWith(alerts, Warning) !! OpenWith(alerts, Critical)
    ensures OpenWith(alerts, Warning) + OpenWith(alerts, Critical) !! ResolvedIn(alerts)
    ensures forall fp :: fp in OpenWith(alerts, Warning) + OpenWith(alerts, Critical) + ResolvedIn(alerts) <==>
              fp in alerts && Counted(alerts[fp])
  {
  }

  lemma Smaller(a: set<Fingerprint>, b: set<Fingerprint>)
    requires a <= b
    ensures |a| <= |b|
  {
    assert b == a + (b - a);
  }

  lemma SetBalance(before: set<Fingerprint>, after: set<Fingerprint>, come: set<Fingerprint>, back: set<Fingerprint>,
      gone: set<Fingerprint>)
    requires after == (before - gone) + (come + back) && gone <= before
    requires before !! come && before !! back && come !! back
    ensures |after| == |before| - |gone| + |come| + |back|
  {
    assert before == (before - gone) + gone;
    assert (before - gone) !! (come + back);
  }

  // ---------- Lifecycle events over runs ----------

  /**
   Which lifecycle events an alert has had: each generation opened once, and each but possibly the
   present one resolved once.
  */
  predicate Expected(alerts: map<Fingerprint, Alert>, key: EventKey)
  {
    && key.fingerprint in alerts
    && var a := alerts[key.fingerprint];
    match key.eventType
    case AlertOpened => key.generation == 1
    case AlertReopened => 2 <= key.generation <= a.generation
    case AlertResolved => 1 <= key.generation < a.generation || (key.generation == a.generation && a.state.Resolved?)
  }

  /** The log holds exactly the expected events, each once. */
  ghost predicate Logged(db: Database)
  {
    forall key :: db.events[key] == if Expected(db.alerts, key) then 1 else 0
  }

  /** Whether this reconcile emits the event. */
  lemma EventsOf(db: Database, r: Request, s: Signals, key: EventKey)
    ensures key in OpenEvents(db.alerts, s) <==>
      key.eventType.AlertOpened? && key.generation == 1 && key.fingerprint in OpenedBy(db.alerts, s)
    ensures key in ReopenEvents(db.alerts, s) <==>
            key.eventType.AlertReopened? && key.fingerprint in ReopenedBy(db.alerts, s)
              && key.generation == db.alerts[key.fingerprint].generation + 1
    ensures key in ResolveEvents(db.alerts, r, s) <==>
            key.eventType.AlertResolved? && key.fingerprint in ResolvedBy(db.alerts, r, s)
              && key.generation == db.alerts[key.fingerprint].generation
  {
  }

  predicate Emits(alerts: map<Fingerprint, Alert>, r: Request, s: Signals, key: EventKey)
  {
    key in OpenEvents(alerts, s) || key in ReopenEvents(alerts, s) || key in ResolveEvents(alerts, r, s)
  }

  lemma AlertAt(alerts: map<Fingerprint, Alert>, r: Request, s: Signals, now: int, fp: Fingerprint)
    requires AlertsOk(alerts)
    ensures fp in AlertsAfter(alerts, r, s, now) <==> fp in alerts || fp in s.conditions
    ensures fp in AlertsAfter(alerts, r, s, now) ==>
      AlertsAfter(alerts, r, s, now)[fp] == AlertAfter(alerts, r, s, now, fp)
    ensures fp in alerts ==> alerts[fp].generation >= 1 && alerts[fp].fingerprint == fp
  {
    hide AlertAfter;
    if fp in alerts {
      assert AlertOk(alerts[fp], fp);
    }
  }

  lemma OpeningExpected(db: Database, r: Request, s: Signals, now: int, key: EventKey)
    requires AlertsOk(db.alerts) && key.eventType.AlertOpened?
    ensures Expected(AlertsAfter(db.alerts, r, s, now), key) <==>
      Expected(db.alerts, key) || Emits(db.alerts, r, s, key)
    ensures !Expected(db.alerts, key) || !Emits(db.alerts, r, s, key)
  {
    hide AlertsOk, AlertsAfter, OpenEvents, ReopenEvents, ResolveEvents;
    AlertAt(db.alerts, r, s, now, key.fingerprint);
    EventsOf(db, r, s, key);
  }

  lemma ReopeningExpected(db: Database, r: Request, s: Signals, now: int, key: EventKey)
    requires AlertsOk(db.alerts) && key.eventType.AlertReopened?
    ensures Expected(AlertsAfter(db.alerts, r, s, now), key) <==>
      Expected(db.alerts, key) || Emits(db.alerts, r, s, key)
    ensures !Expected(db.alerts, key) || !Emits(db.alerts, r, s, key)
  {
    hide AlertsOk, AlertsAfter, OpenEvents, ReopenEvents, ResolveEvents;
    AlertAt(db.alerts, r, s, now, key.fingerprint);
    EventsOf(db, r, s, key);
  }

  lemma ResolutionExpected(db: Database, r: Request, s: Signals, now: int, key: EventKey)
    requires AlertsOk(db.alerts) && key.eventType.AlertResolved?
    ensures Expected(AlertsAfter(db.alerts, r, s, now), key) <==>
      Expected(db.alerts, key) || Emits(db.alerts, r, s, key)
    ensures !Expected(db.alerts, key) || !Emits(db.alerts, r, s, key)
  {
    hide AlertsOk, AlertsAfter, OpenEvents, ReopenEvents, ResolveEvents;
    AlertAt(db.alerts, r, s, now, key.fingerprint);
    EventsOf(db, r, s, key);
  }

  /** Each emitted event is appended once: no two of the three sets hold the same key. */
  lemma EventCount(db: Database, r: Request, s: Signals, now: int, key: EventKey)
    ensures Reconcile(db, r, s, now).events[key] == db.events[key] + if Emits(db.alerts, r, s, key) then 1 else 0
  {
    hide OpenEvents, ReopenEvents, ResolveEvents, AlertsAfter;
    EventsOf(db, r, s, key);
  }

  lemma ReconcileKeepsLog(db: Database, r: Request, s: Signals, now: int)
    requires AlertsOk(db.alerts) && Logged(db)
    ensures Logged(Reconcile(db, r, s, now))
  {
    hide AlertsOk, AlertsAfter, Emits, Expected, OpenEvents, ReopenEvents, ResolveEvents;
    var after := Reconcile(db, r, s, now);
    forall key: EventKey
      ensures after.events[key] == if Expected(after.alerts, key) then 1 else 0
    {
      assert db.events[key] == if Expected(db.alerts, key) then 1 else 0;
      EventCount(db, r, s, now, key);
      match key.eventType
      case AlertOpened => OpeningExpected(db, r, s, now, key);
      case AlertReopened => ReopeningExpected(db, r, s, now, key);
      case AlertResolved => ResolutionExpected(db, r, s, now, key);
    }
  }

  datatype Evaluation = Evaluation(request: Request, signals: Signals, now: int)

  ghost predicate Run(dbs: seq<Database>, es: seq<Evaluation>)
  {
    && |dbs| == |es| + 1 && dbs[0] == Database(map[], multiset{})
    && forall i :: 0 <= i < |es| ==> WellKeyed(es[i].signals.conditions, es[i].request.scope)
                                     && dbs[i + 1] == Reconcile(dbs[i], es[i].request, es[i].signals, es[i].now)
  }

  lemma {:induction false} RunKeeps(dbs: seq<Database>, es: seq<Evaluation>, i: nat)
    requires Run(dbs, es) && i < |dbs|
    ensures AlertsOk(dbs[i].alerts) && Logged(dbs[i])
  {
    hide Reconcile, AlertsOk, Logged;
    if i == 0 {
      NothingLogged();
    } else {
      RunKeeps(dbs, es, i - 1);
      var e := es[i - 1];
      assert dbs[i] == Reconcile(dbs[i - 1], e.request, e.signals, e.now);
      ReconcileKeepsAlerts(dbs[i - 1], e.request, e.signals, e.now);
      ReconcileKeepsLog(dbs[i - 1], e.request, e.signals, e.now);
    }
  }

  lemma NothingLogged()
    ensures AlertsOk(map[]) && Logged(Database(map[], multiset{}))
  {
  }

  /** Every open alert has a severity the counts know. */
  ghost predicate AllCounted(alerts: map<Fingerprint, Alert>)
  {
    forall fp :: fp in alerts ==> Counted(alerts[fp])
  }

  lemma ReconcileKeepsCounted(db: Database, r: Request, s: Signals, now: int)
    requires WellKeyed(s.conditions, r.scope) && AllCounted(db.alerts)
    ensures AllCounted(Reconcile(db, r, s, now).alerts)
  {
    forall fp | fp in Reconcile(db, r, s, now).alerts
      ensures Counted(Reconcile(db, r, s, now).alerts[fp])
    {
      assert fp in s.conditions ==> Keyed(s.conditions[fp], fp, r.scope);
      assert fp in db.alerts ==> Counted(db.alerts[fp]);
    }
  }

  lemma {:induction false} RunKeepsCounted(dbs: seq<Database>, es: seq<Evaluation>, i: nat)
    requires Run(dbs, es) && i < |dbs|
    ensures AllCounted(dbs[i].alerts)
  {
    hide Reconcile;
    if i > 0 {
      RunKeepsCounted(dbs, es, i - 1);
      var e := es[i - 1];
      assert dbs[i] == Reconcile(dbs[i - 1], e.request, e.signals, e.now);
      ReconcileKeepsCounted(dbs[i - 1], e.request, e.signals, e.now);
    }
  }

  /** In every state of every run the active counts add up to all alerts. */
  lemma CountsAlwaysAddUp(dbs: seq<Database>, es: seq<Evaluation>, i: nat)
    requires Run(dbs, es) && i < |dbs|
    ensures var c := CountsOf(dbs[i].alerts); c.openWarning + c.openCritical + c.resolved == |dbs[i].alerts|
  {
    hide Run;
    RunKeepsCounted(dbs, es, i);
    CountsAddUp(dbs[i].alerts);
  }

  /** No lifecycle event key is ever issued twice. */
  lemma KeysNeverRepeat(dbs: seq<Database>, es: seq<Evaluation>, i: nat, key: EventKey)
    requires Run(dbs, es) && i < |dbs|
    ensures dbs[i].events[key] <= 1
  {
    hide Run;
    RunKeeps(dbs, es, i);
  }

  /** Openings of the alert with a generation up to n, as recorded in the log. */
  function Openings(events: multiset<EventKey>, fp: Fingerprint, n: nat): nat
  {
    if n == 0 then 0
    else Openings(events, fp, n - 1) + events[EventKey(fp, n, AlertOpened)] + events[EventKey(fp, n, AlertReopened)]
  }

  lemma {:induction false} OpeningsCounted(db: Database, fp: Fingerprint, n: nat)
    requires Logged(db) && fp in db.alerts && AlertOk(db.alerts[fp], fp)
    ensures Openings(db.events, fp, n) == if n < db.alerts[fp].generation then n else db.alerts[fp].generation
  {
    hide Logged;
    if n > 0 {
      OpeningsCounted(db, fp, n - 1);
      LogTells(db, EventKey(fp, n, AlertOpened));
      LogTells(db, EventKey(fp, n, AlertReopened));
    }
  }

  lemma LogTells(db: Database, key: EventKey)
    requires Logged(db)
    ensures db.events[key] == if Expected(db.alerts, key) then 1 else 0
  {
  }

  /** An alert's generation is the number of times it was opened or reopened, however far one looks. */
  lemma GenerationIsOpenings(dbs: seq<Database>, es: seq<Evaluation>, i: nat, fp: Fingerprint, n: nat)
    requires Run(dbs, es) && i < |dbs| && fp in dbs[i].alerts && n >= dbs[i].alerts[fp].generation
    ensures Openings(dbs[i].events, fp, n) == dbs[i].alerts[fp].generation
  {
    hide Run, Logged;
    RunKeeps(dbs, es, i);
    assert AlertOk(dbs[i].alerts[fp], fp);
    OpeningsCounted(dbs[i], fp, n);
  }

  // ---------- The repository ----------

  class Repository {
    var alerts: map<Fingerprint, Alert>
    var events: multiset<EventKey>

    function State(): Database
      reads this
    {
      Database(alerts, events)
    }

    /** alertCountsQuery over all scopes: open alerts of any other severity are not counted. */
    static method CountAlerts(alerts: map<Fingerprint, Alert>) returns (counts: Counts)
      ensures counts == CountsOf(alerts)
    {
      var todo := alerts.Keys;
      ghost var warnings, criticals, done: set<Fingerprint> := {}, {}, {};
      counts := Counts(0, 0, 0);
      while todo != {}
        invariant todo <= alerts.Keys
        invariant forall fp :: fp in warnings <==> fp in OpenWith(alerts, Warning) && fp !in todo
        invariant forall fp :: fp in criticals <==> fp in OpenWith(alerts, Critical) && fp !in todo
        invariant forall fp :: fp in done <==> fp in ResolvedIn(alerts) && fp !in todo
        invariant counts == Counts(|warnings|, |criticals|, |done|)
        decreases todo
      {
        var fp :| fp in todo;
        if alerts[fp].state.Resolved? {
          counts, done := counts.(resolved := counts.resolved + 1), done + {fp};
        } else if alerts[fp].severity.Warning? {
          counts, warnings := counts.(openWarning := counts.openWarning + 1), warnings + {fp};
        } else if alerts[fp].severity.Critical? {
          counts, criticals := counts.(openCritical := counts.openCritical + 1), criticals + {fp};
        }
        todo := todo - {fp};
      }
      assert warnings == OpenWith(alerts, Warning) && criticals == OpenWith(alerts, Critical);
      assert done == ResolvedIn(alerts);
    }

    /** Conditions and alerts are visited in no particular order. */
    method ReconcileScannerAlerts(r: Request, s: Signals, now: int) returns (summary: Summary)
      requires AlertsOk(alerts) && WellKeyed(s.conditions, r.scope)
      modifies this
      ensures State() == Reconcile(old(State()), r, s, now) && summary == SummaryOf(old(State()), r, s, now)
    {
      hide OpenEvents, ReopenEvents, ResolveEvents, Activated, Settled, AlertsAfter, OpenedBy, ReopenedBy, ResolvedBy,
          WellKeyed, AlertsOk;
      var activated, openEvents, openedCount, reopenedCount := ActivateAll(alerts, r, s, now);
      var settled, resolveEvents, resolvedCount := ResolveAll(alerts, activated, r, s, now);
      events := events + openEvents + resolveEvents;
      AfterBothLoops(alerts, settled, r, s, now);
      alerts := settled;
      var active := CountAlerts(settled);
      summary := Summary(openedCount, reopenedCount, resolvedCount, active);
    }

    static method ActivateAll(alerts: map<Fingerprint, Alert>, r: Request, s: Signals, now: int)
      returns (out: map<Fingerprint, Alert>, issued: multiset<EventKey>, openedCount: nat, reopenedCount: nat)
      requires AlertsOk(alerts) && WellKeyed(s.conditions, r.scope)
      ensures out == Activated(alerts, r, s, now, s.conditions.Keys)
      ensures issued == multiset(OpenEvents(alerts, s)) + multiset(ReopenEvents(alerts, s))
      ensures openedCount == |OpenedBy(alerts, s)| && reopenedCount == |ReopenedBy(alerts, s)|
    {
      hide OpenedAlert, RefreshedAlert, Activating, OpenedBy, ReopenedBy, OpenKeys, ReopenKeys;
      var existing := set fp | fp in alerts && alerts[fp].policyScope == r.scope;
      var todo := s.conditions.Keys;
      out, issued, openedCount, reopenedCount := alerts, multiset{}, 0, 0;
      ghost var done: set<Fingerprint> := {};
      NothingActivated(alerts, r, s, now);
      while todo != {}
        invariant todo <= s.conditions.Keys && done == s.conditions.Keys - todo
        invariant Activating(alerts, r, s, now, done, out, issued, openedCount, reopenedCount)
        decreases todo
      {
        var fp :| fp in todo;
        var condition := s.conditions[fp];
        assert Keyed(condition, fp, r.scope) && (fp in alerts ==> AlertOk(alerts[fp], fp));
        if fp !in existing {
          OpensOne(alerts, r, s, now, done, out, issued, openedCount, reopenedCount, fp);
          out := out[fp := OpenedAlert(condition, r, now)];
          issued := issued + multiset{EventKey(fp, 1, AlertOpened)};
          openedCount := openedCount + 1;
        } else {
          var current := alerts[fp];
          if current.state.Resolved? {
            ReopensOne(alerts, r, s, now, done, out, issued, openedCount, reopenedCount, fp);
            issued := issued + multiset{EventKey(fp, current.generation + 1, AlertReopened)};
            reopenedCount := reopenedCount + 1;
          } else {
            RefreshesOne(alerts, r, s, now, done, out, issued, openedCount, reopenedCount, fp);
          }
          out := out[fp := RefreshedAlert(current, condition, r, now)];
        }
        todo, done := todo - {fp}, done + {fp};
      }
      AllActivated(alerts, r, s, now, done, out, issued, openedCount, reopenedCount);
    }

    /** Alerts of the scope that were open when the evaluation started and are no longer active. */
    static method ResolveAll(alerts: map<Fingerprint, Alert>, activated: map<Fingerprint, Alert>, r: Request,
        s: Signals, now: int)
      returns (out: map<Fingerprint, Alert>, issued: multiset<EventKey>, resolvedCount: nat)
      requires AlertsOk(alerts) && WellKeyed(s.conditions, r.scope)
      requires activated == Activated(alerts, r, s, now, s.conditions.Keys)
      ensures out == Settled(activated, ResolvedBy(alerts, r, s), now)
      ensures issued == multiset(ResolveEvents(alerts, r, s)) && resolvedCount == |ResolvedBy(alerts, r, s)|
    {
      hide OpenedAlert, RefreshedAlert, ResolvedAlert, Activated, Settled, ResolveKeys, ResolvedBy, AlertsOk,
          WellKeyed, Resolving;
      var todo := set fp | fp in alerts && alerts[fp].policyScope == r.scope;
      ghost var existing := todo;
      out, issued, resolvedCount := activated, multiset{}, 0;
      ghost var done: set<Fingerprint> := {};
      NothingSettled(alerts, activated, r, s, now);
      while todo != {}
        invariant todo <= existing && done == existing - todo
        invariant Resolving(alerts, activated, r, s, now, done, out, issued, resolvedCount)
        decreases todo
      {
        var fp :| fp in todo;
        ResolvesOne(alerts, activated, r, s, now, done, out, issued, resolvedCount, fp);
        todo, done := todo - {fp}, done + {fp};
        if !activated[fp].state.Open? || alerts[fp].kind !in s.evaluated || fp in s.conditions {
          continue;
        }
        out := out[fp := ResolvedAlert(activated[fp], now)];
        issued := issued + multiset{EventKey(fp, alerts[fp].generation, AlertResolved)};
        resolvedCount := resolvedCount + 1;
      }
      AllResolved(alerts, activated, r, s, now, done, out, issued, resolvedCount);
    }
  }

  /** A further fingerprint brings one further event key. */
  lemma KeysGrow(alerts: map<Fingerprint, Alert>, fps: set<Fingerprint>, fp: Fingerprint)
    requires fp !in fps
    ensures multiset(OpenKeys(fps + {fp})) == multiset(OpenKeys(fps)) + multiset{EventKey(fp, 1, AlertOpened)}
    ensures fp in alerts ==>
      multiset(ReopenKeys(alerts, fps + {fp}))
        == multiset(ReopenKeys(alerts, fps)) + multiset{EventKey(fp, alerts[fp].generation + 1, AlertReopened)}
    ensures fp in alerts ==>
      multiset(ResolveKeys(alerts, fps + {fp}))
        == multiset(ResolveKeys(alerts, fps)) + multiset{EventKey(fp, alerts[fp].generation, AlertResolved)}
  {
    assert OpenKeys(fps + {fp}) == OpenKeys(fps) + {EventKey(fp, 1, AlertOpened)};
    if fp in alerts {
      assert ReopenKeys(alerts, fps + {fp})
        == ReopenKeys(alerts, fps) + {EventKey(fp, alerts[fp].generation + 1, AlertReopened)};
      assert ResolveKeys(alerts, fps + {fp})
        == ResolveKeys(alerts, fps) + {EventKey(fp, alerts[fp].generation, AlertResolved)};
    }
  }

  /** What the first loop has done once the conditions in `done` were visited. */
  ghost predicate Activating(alerts: map<Fingerprint, Alert>, r: Request, s: Signals, now: int, done: set<Fingerprint>,
      out: map<Fingerprint, Alert>, issued: multiset<EventKey>, openedCount: nat, reopenedCount: nat)
  {
    var come, back := OpenedBy(alerts, s) * done, ReopenedBy(alerts, s) * done;
    && out == Activated(alerts, r, s, now, done)
    && issued == multiset(OpenKeys(come)) + multiset(ReopenKeys(alerts, back))
    && openedCount == |come| && reopenedCount == |back|
  }

  lemma NothingActivated(alerts: map<Fingerprint, Alert>, r: Request, s: Signals, now: int)
    ensures Activating(alerts, r, s, now, {}, alerts, multiset{}, 0, 0)
  {
    assert OpenedBy(alerts, s) * {} == {} && ReopenedBy(alerts, s) * {} == {};
    assert OpenKeys({}) == {} && ReopenKeys(alerts, {}) == {};
  }

  lemma AllActivated(alerts: map<Fingerprint, Alert>, r: Request, s: Signals, now: int, done: set<Fingerprint>,
      out: map<Fingerprint, Alert>, issued: multiset<EventKey>, openedCount: nat, reopenedCount: nat)
    requires Activating(alerts, r, s, now, done, out, issued, openedCount, reopenedCount) && done == s.conditions.Keys
    ensures out == Activated(alerts, r, s, now, s.conditions.Keys)
    ensures issued == multiset(OpenEvents(alerts, s)) + multiset(ReopenEvents(alerts, s))
    ensures openedCount == |OpenedBy(alerts, s)| && reopenedCount == |ReopenedBy(alerts, s)|
  {
    hide Activated, OpenKeys, ReopenKeys;
    assert OpenedBy(alerts, s) * done == OpenedBy(alerts, s) && ReopenedBy(alerts, s) * done == ReopenedBy(alerts, s);
  }

  /** One more condition opens a new alert, */
  lemma OpensOne(alerts: map<Fingerprint, Alert>, r: Request, s: Signals, now: int, done: set<Fingerprint>,
      out: map<Fingerprint, Alert>, issued: multiset<EventKey>, openedCount: nat, reopenedCount: nat, fp: Fingerprint)
    requires Activating(alerts, r, s, now, done, out, issued, openedCount, reopenedCount) && fp in s.conditions
    requires fp !in done
    requires fp !in alerts
    ensures Activating(alerts, r, s, now, done + {fp}, out[fp := OpenedAlert(s.conditions[fp], r, now)],
                       issued + multiset{EventKey(fp, 1, AlertOpened)}, openedCount + 1, reopenedCount)
  {
    hide OpenedAlert, RefreshedAlert, OpenKeys, ReopenKeys, Activated, OpenedBy, ReopenedBy;
    var come, back := OpenedBy(alerts, s) * done, ReopenedBy(alerts, s) * done;
    Activation(alerts, r, s, now, done, fp);
    KeysGrow(alerts, come, fp);
    SetsGrow(alerts, s, done, fp);
    assert ReopenedBy(alerts, s) * (done + {fp}) == back;
    Shift(multiset(OpenKeys(come)), multiset(ReopenKeys(alerts, back)), EventKey(fp, 1, AlertOpened));
  }

  /** reopens a resolved one, */
  lemma ReopensOne(alerts: map<Fingerprint, Alert>, r: Request, s: Signals, now: int, done: set<Fingerprint>,
      out: map<Fingerprint, Alert>, issued: multiset<EventKey>, openedCount: nat, reopenedCount: nat, fp: Fingerprint)
    requires Activating(alerts, r, s, now, done, out, issued, openedCount, reopenedCount) && fp in s.conditions
    requires fp !in done
    requires fp in alerts && alerts[fp].state.Resolved?
    ensures Activating(alerts, r, s, now, done + {fp}, out[fp := RefreshedAlert(alerts[fp], s.conditions[fp], r, now)],
                       issued + multiset{EventKey(fp, alerts[fp].generation + 1, AlertReopened)}, openedCount,
                       reopenedCount + 1)
  {
    hide OpenedAlert, RefreshedAlert, OpenKeys, ReopenKeys, Activated, OpenedBy, ReopenedBy;
    var come, back := OpenedBy(alerts, s) * done, ReopenedBy(alerts, s) * done;
    Activation(alerts, r, s, now, done, fp);
    KeysGrow(alerts, back, fp);
    SetsGrow(alerts, s, done, fp);
    assert OpenedBy(alerts, s) * (done + {fp}) == come;
    Shift(multiset(OpenKeys(come)), multiset(ReopenKeys(alerts, back)),
      EventKey(fp, alerts[fp].generation + 1, AlertReopened));
  }

  /** or refreshes an open one. */
  lemma RefreshesOne(alerts: map<Fingerprint, Alert>, r: Request, s: Signals, now: int, done: set<Fingerprint>,
      out: map<Fingerprint, Alert>, issued: multiset<EventKey>, openedCount: nat, reopenedCount: nat, fp: Fingerprint)
    requires Activating(alerts, r, s, now, done, out, issued, openedCount, reopenedCount) && fp in s.conditions
    requires fp !in done
    requires fp in alerts && alerts[fp].state.Open?
    ensures Activating(alerts, r, s, now, done + {fp}, out[fp := RefreshedAlert(alerts[fp], s.conditions[fp], r, now)],
      issued, openedCount, reopenedCount)
  {
    hide OpenedAlert, RefreshedAlert, OpenKeys, ReopenKeys, Activated, OpenedBy, ReopenedBy;
    Activation(alerts, r, s, now, done, fp);
    SetsGrow(alerts, s, done, fp);
    assert OpenedBy(alerts, s) * (done + {fp}) == OpenedBy(alerts, s) * done;
    assert ReopenedBy(alerts, s) * (done + {fp}) == ReopenedBy(alerts, s) * done;
  }

  lemma SetsGrow(alerts: map<Fingerprint, Alert>, s: Signals, done: set<Fingerprint>, fp: Fingerprint)
    requires fp in s.conditions
    ensures OpenedBy(alerts, s) * (done + {fp}) == (OpenedBy(alerts, s) * done) + if fp !in alerts then {fp} else {}
    ensures ReopenedBy(alerts, s) * (done + {fp}) == (ReopenedBy(alerts, s) * done)
      + if fp in alerts && alerts[fp].state.Resolved? then {fp} else {}
  {
  }

  lemma Shift(a: multiset<EventKey>, b: multiset<EventKey>, key: EventKey)
    ensures a + b + multiset{key} == (a + multiset{key}) + b == a + (b + multiset{key})
  {
  }

  lemma Activation(alerts: map<Fingerprint, Alert>, r: Request, s: Signals, now: int, done: set<Fingerprint>,
      fp: Fingerprint)
    requires fp in s.conditions
    ensures Activated(alerts, r, s, now, done + {fp}) == Activated(alerts, r, s, now, done)[fp :=
              if fp in alerts then RefreshedAlert(alerts[fp], s.conditions[fp], r, now)
              else OpenedAlert(s.conditions[fp], r, now)]
  {
    hide OpenedAlert, RefreshedAlert;
  }

  /** What the second loop has done once the alerts in `done` were visited. */
  ghost predicate Resolving(alerts: map<Fingerprint, Alert>, activated: map<Fingerprint, Alert>, r: Request,
      s: Signals, now: int, done: set<Fingerprint>, out: map<Fingerprint, Alert>, issued: multiset<EventKey>,
      resolvedCount: nat)
  {
    var gone := ResolvedBy(alerts, r, s) * done;
    out == Settled(activated, gone, now) && issued == multiset(ResolveKeys(alerts, gone)) && resolvedCount == |gone|
  }

  lemma NothingSettled(alerts: map<Fingerprint, Alert>, activated: map<Fingerprint, Alert>, r: Request, s: Signals,
      now: int)
    ensures Resolving(alerts, activated, r, s, now, {}, activated, multiset{}, 0)
  {
    assert ResolvedBy(alerts, r, s) * {} == {} && ResolveKeys(alerts, {}) == {};
  }

  lemma AllResolved(alerts: map<Fingerprint, Alert>, activated: map<Fingerprint, Alert>, r: Request, s: Signals,
      now: int, done: set<Fingerprint>, out: map<Fingerprint, Alert>, issued: multiset<EventKey>, resolvedCount: nat)
    requires Resolving(alerts, activated, r, s, now, done, out, issued, resolvedCount)
    requires done == set fp | fp in alerts && alerts[fp].policyScope == r.scope
    ensures out == Settled(activated, ResolvedBy(alerts, r, s), now)
    ensures issued == multiset(ResolveEvents(alerts, r, s)) && resolvedCount == |ResolvedBy(alerts, r, s)|
  {
    hide Settled, ResolveKeys;
    assert ResolvedBy(alerts, r, s) * done == ResolvedBy(alerts, r, s);
  }

  lemma ResolvesOne(alerts: map<Fingerprint, Alert>, activated: map<Fingerprint, Alert>, r: Request, s: Signals,
      now: int, done: set<Fingerprint>, out: map<Fingerprint, Alert>, issued: multiset<EventKey>, resolvedCount: nat,
      fp: Fingerprint)
    requires AlertsOk(alerts) && fp in alerts && alerts[fp].policyScope == r.scope && fp !in done
    requires activated == Activated(alerts, r, s, now, s.conditions.Keys)
    requires Resolving(alerts, activated, r, s, now, done, out, issued, resolvedCount)
    ensures fp in activated
    ensures activated[fp].state.Open? && alerts[fp].kind in s.evaluated && fp !in s.conditions ==>
      Resolving(alerts, activated, r, s, now, done + {fp}, out[fp := ResolvedAlert(activated[fp], now)],
                issued + multiset{EventKey(fp, alerts[fp].generation, AlertResolved)}, resolvedCount + 1)
    ensures !(activated[fp].state.Open? && alerts[fp].kind in s.evaluated && fp !in s.conditions) ==>
      Resolving(alerts, activated, r, s, now, done + {fp}, out, issued, resolvedCount)
  {
    hide Activated, Settled, Resolving, ResolveKeys, ResolvedBy, ResolvedAlert, AlertsOk;
    Settling(alerts, activated, r, s, now, ResolvedBy(alerts, r, s) * done, fp);
    if fp in ResolvedBy(alerts, r, s) {
      ResolvesHit(alerts, activated, r, s, now, done, out, issued, resolvedCount, fp);
    } else {
      ResolvesMiss(alerts, activated, r, s, now, done, out, issued, resolvedCount, fp);
    }
  }

  lemma ResolvesHit(alerts: map<Fingerprint, Alert>, activated: map<Fingerprint, Alert>, r: Request, s: Signals,
      now: int, done: set<Fingerprint>, out: map<Fingerprint, Alert>, issued: multiset<EventKey>, resolvedCount: nat,
      fp: Fingerprint)
    requires fp in alerts && fp in activated && fp !in done && fp in ResolvedBy(alerts, r, s)
    requires Resolving(alerts, activated, r, s, now, done, out, issued, resolvedCount)
    requires var gone := ResolvedBy(alerts, r, s) * done;
      Settled(activated, gone + {fp}, now) == Settled(activated, gone, now)[fp := ResolvedAlert(activated[fp], now)]
    ensures Resolving(alerts, activated, r, s, now, done + {fp}, out[fp := ResolvedAlert(activated[fp], now)],
                      issued + multiset{EventKey(fp, alerts[fp].generation, AlertResolved)}, resolvedCount + 1)
  {
    hide Settled, ResolveKeys, ResolvedBy, ResolvedAlert;
    KeysGrow(alerts, ResolvedBy(alerts, r, s) * done, fp);
    assert ResolvedBy(alerts, r, s) * (done + {fp}) == (ResolvedBy(alerts, r, s) * done) + {fp};
  }

  lemma ResolvesMiss(alerts: map<Fingerprint, Alert>, activated: map<Fingerprint, Alert>, r: Request, s: Signals,
      now: int, done: set<Fingerprint>, out: map<Fingerprint, Alert>, issued: multiset<EventKey>, resolvedCount: nat,
      fp: Fingerprint)
    requires fp !in ResolvedBy(alerts, r, s)
    requires Resolving(alerts, activated, r, s, now, done, out, issued, resolvedCount)
    ensures Resolving(alerts, activated, r, s, now, done + {fp}, out, issued, resolvedCount)
  {
    hide Settled, ResolveKeys, ResolvedBy;
    assert ResolvedBy(alerts, r, s) * (done + {fp}) == ResolvedBy(alerts, r, s) * done;
  }

  lemma Settling(alerts: map<Fingerprint, Alert>, activated: map<Fingerprint, Alert>, r: Request, s: Signals, now: int,
      gone: set<Fingerprint>, fp: Fingerprint)
    requires AlertsOk(alerts) && fp in alerts && alerts[fp].policyScope == r.scope
    requires activated == Activated(alerts, r, s, now, s.conditions.Keys)
    ensures fp in activated
    ensures Settled(activated, gone + {fp}, now)
         == Settled(activated, gone, now)[fp := ResolvedAlert(activated[fp], now)]
    ensures fp in ResolvedBy(alerts, r, s) <==>
      activated[fp].state.Open? && alerts[fp].kind in s.evaluated && fp !in s.conditions
  {
    hide OpenedAlert, ResolvedAlert;
    assert AlertOk(alerts[fp], fp);
  }

  /** The alerts once the conditions in `done` have been applied. */
  function Activated(alerts: map<Fingerprint, Alert>, r: Request, s: Signals, now: int,
      done: set<Fingerprint>): map<Fingerprint, Alert>
  {
    map fp | fp in alerts.Keys + (s.conditions.Keys * done) ::
      if fp in s.conditions && fp in done then
        if fp in alerts then RefreshedAlert(alerts[fp], s.conditions[fp], r, now)
        else OpenedAlert(s.conditions[fp], r, now)
      else alerts[fp]
  }

  /** The alerts once those in `done` have been resolved. */
  function Settled(alerts: map<Fingerprint, Alert>, done: set<Fingerprint>, now: int): map<Fingerprint, Alert>
  {
    map fp | fp in alerts :: if fp in done then ResolvedAlert(alerts[fp], now) else alerts[fp]
  }

  lemma AfterBothLoops(alerts: map<Fingerprint, Alert>, settled: map<Fingerprint, Alert>, r: Request, s: Signals,
      now: int)
    requires AlertsOk(alerts)
    requires settled == Settled(Activated(alerts, r, s, now, s.conditions.Keys), ResolvedBy(alerts, r, s), now)
    ensures settled == AlertsAfter(alerts, r, s, now)
  {
    hide OpenedAlert, RefreshedAlert, ResolvedAlert;
    assert forall fp :: fp in alerts ==> AlertOk(alerts[fp], fp);
  }
}
