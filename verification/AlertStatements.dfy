/** A reconcile in columns: the rows, the events and the numbers it leaves. */
module AlertStatements {
  import opened Wrappers
  import opened Text
  import opened Alerts

  // ---------- Conditions ----------

  /** What is accepted as a condition, and how it is stored. */
  lemma ConditionExactly(scope: string, kind: Kind, severity: Severity, scopeType: string, scopeId: string,
      summary: string, evidence: string)
    ensures NewCondition(scope, kind, severity, scopeType, scopeId, summary, evidence)
      == var area, areaType, areaId, text := TrimSpace(scope), TrimSpace(scopeType), TrimSpace(scopeId),
           TrimSpace(summary);
         if area == "" || areaType == "" || areaId == "" || text == "" || |text| > 500 || |evidence| > 4096
            || severity !in {Warning, Critical}
            || kind !in {MissedDiscovery, StaleStableRelease, QueueBacklog, LeaseChurn, RepeatedGateFailure,
                         MirrorDrift, RolloutFailure, SignatureHealth}
         then None
         else Some(Condition(Fingerprint(area, kind, areaType, areaId), kind, severity, areaType, areaId, text,
                             evidence))
  {
    hide TrimSpace;
  }

  // ---------- The alerts afterwards ----------

  /** The row of a condition that had no alert. */
  predicate JustOpened(a: Alert, c: Condition, r: Request, now: int)
  {
    && a.fingerprint == c.fingerprint && a.kind == c.kind && a.scopeType == c.scopeType && a.scopeId == c.scopeId
    && a.policyScope == r.scope && a.triggerCount == 1 && a.generation == 1 && a.version == 1
    && a.firstTriggeredAt == now && a.createdAt == now
  }

  /** The row of a condition whose alert was stored before: its identity and origin stay, its counters advance. */
  predicate Repeated(before: Alert, a: Alert)
  {
    && a.fingerprint == before.fingerprint && a.kind == before.kind
    && a.scopeType == before.scopeType && a.scopeId == before.scopeId && a.policyScope == before.policyScope
    && a.firstTriggeredAt == before.firstTriggeredAt && a.createdAt == before.createdAt
    && a.triggerCount == before.triggerCount + 1 && a.version == before.version + 1
    && a.generation == if before.state == Open then before.generation else before.generation + 1
  }

  /** The row says what the condition says, under the policy of the request, as of now. */
  predicate Says(a: Alert, c: Condition, r: Request, now: int)
  {
    && a.state == Open && a.resolvedAt == None
    && a.severity == c.severity && a.summary == c.summary && a.evidence == c.evidence
    && a.policyId == r.policyId && a.policyRevision == r.revision
    && a.lastTriggeredAt == now && a.updatedAt == now
  }

  /** Every condition has an open alert that says what the condition says. */
  lemma ConditionsAreTold(db: Database, r: Request, s: Signals, now: int, fp: Fingerprint)
    requires fp in s.conditions
    ensures fp in Reconcile(db, r, s, now).alerts
    ensures Says(Reconcile(db, r, s, now).alerts[fp], s.conditions[fp], r, now)
    ensures fp !in db.alerts ==> JustOpened(Reconcile(db, r, s, now).alerts[fp], s.conditions[fp], r, now)
    ensures fp in db.alerts ==> Repeated(db.alerts[fp], Reconcile(db, r, s, now).alerts[fp])
  {
  }

  /** Open, of the request's scope, and of a kind that was looked at. */
  predicate InQuestion(a: Alert, r: Request, s: Signals)
  {
    a.state == Open && a.policyScope == r.scope && a.kind in s.evaluated
  }

  /** An alert without a condition is resolved when it was in question, and otherwise left as it is. */
  lemma OthersAreSettled(db: Database, r: Request, s: Signals, now: int, fp: Fingerprint)
    requires AlertsOk(db.alerts) && fp !in s.conditions
    ensures fp in Reconcile(db, r, s, now).alerts <==> fp in db.alerts
    ensures fp in db.alerts ==>
      var before := db.alerts[fp];
      Reconcile(db, r, s, now).alerts[fp]
      == if InQuestion(before, r, s) then
           before.(state := Resolved, resolvedAt := Some(now), updatedAt := now, version := before.version + 1)
         else before
  {
    assert fp in db.alerts ==> AlertOk(db.alerts[fp], fp);
  }

  /** The open alerts of the scope and the kinds looked at that have the severity. */
  function OpenOf(alerts: map<Fingerprint, Alert>, r: Request, s: Signals, severity: Severity): set<Fingerprint>
  {
    set fp | fp in alerts && InQuestion(alerts[fp], r, s) && alerts[fp].severity == severity
  }

  function ConditionsOf(s: Signals, severity: Severity): set<Fingerprint>
  {
    set fp | fp in s.conditions && s.conditions[fp].kind in s.evaluated && s.conditions[fp].severity == severity
  }

  /** For the scope and the kinds looked at, the open alerts of a severity are exactly the conditions of it. */
  lemma OpenBySeverity(db: Database, r: Request, s: Signals, now: int, severity: Severity)
    requires AlertsOk(db.alerts) && WellKeyed(s.conditions, r.scope)
    ensures OpenOf(Reconcile(db, r, s, now).alerts, r, s, severity) == ConditionsOf(s, severity)
  {
    hide Reconcile, AlertsOk, WellKeyed;
    ReconcileKeepsAlerts(db, r, s, now);
    var after := Reconcile(db, r, s, now).alerts;
    forall fp
      ensures fp in OpenOf(after, r, s, severity) <==> fp in ConditionsOf(s, severity)
    {
      if fp in s.conditions {
        ConditionsAreTold(db, r, s, now, fp);
        KeysTell(after, s, r, fp);
      } else {
        OthersAreSettled(db, r, s, now, fp);
      }
    }
  }

  lemma KeysTell(alerts: map<Fingerprint, Alert>, s: Signals, r: Request, fp: Fingerprint)
    requires AlertsOk(alerts) && WellKeyed(s.conditions, r.scope) && fp in alerts && fp in s.conditions
    ensures alerts[fp].kind == s.conditions[fp].kind && alerts[fp].policyScope == r.scope
  {
    assert AlertOk(alerts[fp], fp) && Keyed(s.conditions[fp], fp, r.scope);
  }

  /** After every evaluation of every run the alerts in question tell exactly its conditions. */
  lemma AlwaysTold(dbs: seq<Database>, es: seq<Evaluation>, i: nat, fp: Fingerprint, severity: Severity)
    requires Run(dbs, es) && i < |es|
    ensures var e, after := es[i], dbs[i + 1].alerts;
      && OpenOf(after, e.request, e.signals, severity) == ConditionsOf(e.signals, severity)
      && (fp in e.signals.conditions ==>
            fp in after && Says(after[fp], e.signals.conditions[fp], e.request, e.now))
  {
    hide Reconcile, AlertsOk, Logged, OpenOf, ConditionsOf;
    RunKeeps(dbs, es, i);
    var e := es[i];
    assert dbs[i + 1] == Reconcile(dbs[i], e.request, e.signals, e.now);
    OpenBySeverity(dbs[i], e.request, e.signals, e.now, severity);
    if fp in e.signals.conditions {
      ConditionsAreTold(dbs[i], e.request, e.signals, e.now, fp);
    }
  }

  /** The identity columns of an alert are those its fingerprint was made of. */
  predicate OwnIdentity(a: Alert, fp: Fingerprint)
  {
    && a.fingerprint == fp && a.policyScope == fp.scope && a.kind == fp.kind
    && a.scopeType == fp.scopeType && a.scopeId == fp.scopeId
  }

  /** In every state of every run each row has the identity it is stored under. */
  lemma {:induction false} AlwaysOwnIdentity(dbs: seq<Database>, es: seq<Evaluation>, i: nat, fp: Fingerprint)
    requires Run(dbs, es) && i < |dbs| && fp in dbs[i].alerts
    ensures OwnIdentity(dbs[i].alerts[fp], fp)
  {
    hide Reconcile, AlertsOk, Logged;
    if i > 0 {
      var e, before := es[i - 1], dbs[i - 1];
      assert dbs[i] == Reconcile(before, e.request, e.signals, e.now);
      RunKeeps(dbs, es, i - 1);
      if fp in before.alerts {
        AlwaysOwnIdentity(dbs, es, i - 1, fp);
      }
      if fp in e.signals.conditions {
        ConditionsAreTold(before, e.request, e.signals, e.now, fp);
        assert Keyed(e.signals.conditions[fp], fp, e.request.scope);
      } else {
        OthersAreSettled(before, e.request, e.signals, e.now, fp);
      }
    }
  }

  // ---------- Events and numbers ----------

  /** The event a reconcile appends for a fingerprint, if any. */
  function EventFor(alerts: map<Fingerprint, Alert>, r: Request, s: Signals, fp: Fingerprint): Option<EventKey>
  {
    if fp in s.conditions then
      if fp !in alerts then Some(EventKey(fp, 1, AlertOpened))
      else if alerts[fp].state == Open then None
      else Some(EventKey(fp, alerts[fp].generation + 1, AlertReopened))
    else if fp in alerts && InQuestion(alerts[fp], r, s) then
      Some(EventKey(fp, alerts[fp].generation, AlertResolved))
    else None
  }

  /** Each event is appended once and no other is. */
  lemma EventsExactly(db: Database, r: Request, s: Signals, now: int, key: EventKey)
    requires AlertsOk(db.alerts)
    ensures Reconcile(db, r, s, now).events[key]
         == db.events[key] + if EventFor(db.alerts, r, s, key.fingerprint) == Some(key) then 1 else 0
  {
    hide Reconcile, OpenEvents, ReopenEvents, ResolveEvents, AlertsOk;
    EventCount(db, r, s, now, key);
    EventsOf(db, r, s, key);
    FingerprintKept(db.alerts, key.fingerprint);
  }

  lemma FingerprintKept(alerts: map<Fingerprint, Alert>, fp: Fingerprint)
    requires AlertsOk(alerts)
    ensures fp in alerts ==> alerts[fp].fingerprint == fp
  {
    assert fp in alerts ==> AlertOk(alerts[fp], fp);
  }

  function OpenWithin(alerts: map<Fingerprint, Alert>, severity: Severity): set<Fingerprint>
  {
    set fp | fp in alerts && alerts[fp].state == Open && alerts[fp].severity == severity
  }

  /** The numbers reported are those of the fingerprints opened, reopened and resolved, and of the rows left. */
  lemma SummaryExactly(db: Database, r: Request, s: Signals, now: int)
    requires AlertsOk(db.alerts)
    ensures var summary, after := SummaryOf(db, r, s, now), Reconcile(db, r, s, now).alerts;
      && summary.openedCount == |s.conditions.Keys - db.alerts.Keys|
      && summary.reopenedCount == |set fp | fp in s.conditions && fp in db.alerts && db.alerts[fp].state != Open|
      && summary.resolvedCount == |set fp | fp in db.alerts && fp !in s.conditions && InQuestion(db.alerts[fp], r, s)|
      && summary.active.openWarning == |OpenWithin(after, Warning)|
      && summary.active.openCritical == |OpenWithin(after, Critical)|
      && summary.active.resolved == |set fp | fp in after && after[fp].state != Open|
  {
    hide AlertsAfter, AlertsOk;
    var after := Reconcile(db, r, s, now).alerts;
    forall fp
      ensures fp in db.alerts ==> db.alerts[fp].fingerprint == fp
    {
      FingerprintKept(db.alerts, fp);
    }
    assert OpenedBy(db.alerts, s) == s.conditions.Keys - db.alerts.Keys;
    assert ReopenedBy(db.alerts, s) == set fp | fp in s.conditions && fp in db.alerts && db.alerts[fp].state != Open;
    assert ResolvedBy(db.alerts, r, s)
      == set fp | fp in db.alerts && fp !in s.conditions && InQuestion(db.alerts[fp], r, s);
    assert ResolvedIn(after) == set fp | fp in after && after[fp].state != Open;
    assert OpenWith(after, Warning) == OpenWithin(after, Warning);
    assert OpenWith(after, Critical) == OpenWithin(after, Critical);
  }
}
