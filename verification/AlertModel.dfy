/**
 The alert engine seen as a state machine over persisted alert records, in-memory trackers and
 dispatched notices (internal/hub/alerts/engine.go). Times are integers in milliseconds; the outcome
 of every database write is part of the event, so a run may fail any save it likes.
 */
module AlertModel {
  import opened Sequences
  import opened Wrappers

  const COOLDOWN_PERIOD: int := 5 * 60 * 1000
  const SEED_LIMIT: nat := 1000
  const ZERO_TIME: int := 0

  type Id = string

  /** A rule together with the subject it is evaluated against: an agent id, or a check id. */
  datatype Key = Key(ruleId: string, subjectId: string)

  datatype Level = OK | Warning | Critical | Resolved

  datatype Tracker = Tracker(
    level: Level,
    fired: bool,
    firstBreachAt: int,
    firedAt: int,
    lastNotifiedAt: Option<int>,
    activeAlertId: Id,
    silenced: bool)

  const IDLE := Tracker(OK, false, ZERO_TIME, ZERO_TIME, None, "", false)

  datatype Status = Firing | Closed

  datatype Alert = Alert(
    ruleId: string,
    agentId: string,
    checkId: string,
    status: Status,
    firedAt: int,
    resolvedAt: Option<int>,
    silenced: bool,
    acknowledged: bool,
    escalatedAt: Option<int>)

  /** What reached a notifier: the notify callback with the record's status, or the escalate callback. */
  datatype Notice =
    | Notified(alertId: Id, at: int, status: Status)
    | Escalated(alertId: Id, at: int)

  datatype Rule = Rule(id: string, metricType: string, escalationAfter: real)

  /** Which database writes of one evaluation succeed, and the id a successful insert is given. */
  datatype Saves = Saves(newId: Id, create: bool, refresh: bool, resolve: bool, escalate: bool)

  /** One call of updateState. */
  datatype Observation = Observation(
    rule: Rule,
    subject: string,
    breaching: bool,
    severity: string,
    duration: int,
    silenced: bool,
    now: int,
    saves: Saves)

  datatype Event =
    | Observed(o: Observation)
    | Acked(id: Id)
    | Unacked(id: Id)
    | Restarted(rows: seq<Id>, warningRules: set<string>)

  datatype World = World(alerts: map<Id, Alert>, trackers: map<Key, Tracker>, notices: seq<Notice>)

  const EMPTY := World(map[], map[], [])

  predicate IsCheckMetricType(metricType: string) {
    metricType == "check_down" || metricType == "cert_expiry"
  }

  function KeyOf(o: Observation): Key {
    Key(o.rule.id, o.subject)
  }

  function AlertKey(a: Alert): Key {
    Key(a.ruleId, if a.agentId != "" then a.agentId else a.checkId)
  }

  function TrackerAt(w: World, key: Key): Tracker {
    if key in w.trackers then w.trackers[key] else IDLE
  }

  function LevelFor(severity: string): Level {
    if severity == "warning" then Warning else Critical
  }

  function NewAlert(o: Observation): Alert {
    var isCheck := IsCheckMetricType(o.rule.metricType);
    Alert(o.rule.id, if isCheck then "" else o.subject, if isCheck then o.subject else "",
          Firing, o.now, None, o.silenced, false, None)
  }

  // ---- one evaluation ---------------------------------------------------------------------------

  predicate RenotifyDue(t: Tracker, now: int) {
    t.silenced || t.lastNotifiedAt.None? || now - t.lastNotifiedAt.value >= COOLDOWN_PERIOD
  }

  /** escalation_after is a number of seconds that the source truncates to a whole number. */
  function EscalationDelay(rule: Rule): int {
    rule.escalationAfter.Floor * 1000
  }

  predicate EscalationDue(a: Alert, firedAt: int, o: Observation) {
    o.rule.escalationAfter > 0.0 && a.escalatedAt.None? && o.now - firedAt >= EscalationDelay(o.rule)
  }

  /** What one evaluation does: the tracker it leaves, the record it writes (if any), the notices it sends. */
  datatype Effect = Effect(tracker: Tracker, write: Option<(Id, Alert)>, notices: seq<Notice>)

  function Quiet(t: Tracker): Effect {
    Effect(t, None, [])
  }

  /** An evaluation reads nothing but its tracker and the record that tracker points at. */
  function Evaluate(t: Tracker, record: Option<Alert>, o: Observation): Effect {
    if !o.breaching then
      if t.level.Warning? || t.level.Critical? then EndBreach(t, record, o) else Quiet(t)
    else if t.level.OK? || t.level.Resolved? then
      Quiet(t.(firstBreachAt := o.now, level := Warning, fired := false, silenced := false))
    else if !t.fired then
      if o.now - t.firstBreachAt < o.duration then Quiet(t) else Fire(t.(level := LevelFor(o.severity)), o)
    else if t.activeAlertId != "" && record.Some? && o.saves.refresh then
      StillFiring(t, record.value.(silenced := o.silenced), o)
    else Quiet(t)
  }

  function EndBreach(t: Tracker, record: Option<Alert>, o: Observation): Effect {
    if t.activeAlertId != "" && record.Some? && o.saves.resolve then
      Effect(IDLE, Some((t.activeAlertId, record.value.(status := Closed, resolvedAt := Some(o.now)))),
             [Notified(t.activeAlertId, o.now, Closed)])
    else Quiet(IDLE)
  }

  function Fire(t: Tracker, o: Observation): Effect {
    if !o.saves.create then Quiet(t)
    else
      Effect(t.(activeAlertId := o.saves.newId, fired := true, firedAt := o.now, silenced := o.silenced,
                lastNotifiedAt := if o.silenced then t.lastNotifiedAt else Some(o.now)),
             Some((o.saves.newId, NewAlert(o))),
             if o.silenced then [] else [Notified(o.saves.newId, o.now, Firing)])
  }

  function StillFiring(t: Tracker, a: Alert, o: Observation): Effect {
    var id := t.activeAlertId;
    if o.silenced then Effect(t.(silenced := true), Some((id, a)), [])
    else if a.acknowledged then Effect(t.(silenced := false), Some((id, a)), [])
    else
      var due := RenotifyDue(t, o.now);
      var t' := t.(silenced := false, lastNotifiedAt := if due then Some(o.now) else t.lastNotifiedAt);
      var again := if due then [Notified(id, o.now, a.status)] else [];
      if EscalationDue(a, t.firedAt, o) && o.saves.escalate then
        Effect(t', Some((id, a.(escalatedAt := Some(o.now)))), again + [Escalated(id, o.now)])
      else Effect(t', Some((id, a)), again)
  }

  function ActiveRecord(w: World, t: Tracker): Option<Alert> {
    if t.activeAlertId in w.alerts then Some(w.alerts[t.activeAlertId]) else None
  }

  function EffectOf(w: World, o: Observation): Effect {
    var t := TrackerAt(w, KeyOf(o));
    Evaluate(t, ActiveRecord(w, t), o)
  }

  function Apply(w: World, key: Key, e: Effect): World {
    World(if e.write.Some? then w.alerts[e.write.value.0 := e.write.value.1] else w.alerts,
          w.trackers[key := e.tracker],
          w.notices + e.notices)
  }

  function ObserveStep(w: World, o: Observation): World {
    Apply(w, KeyOf(o), EffectOf(w, o))
  }

  // ---- acknowledgement and restart --------------------------------------------------------------

  function AckStep(w: World, id: Id, acknowledged: bool): World {
    if id in w.alerts then w.(alerts := w.alerts[id := w.alerts[id].(acknowledged := acknowledged)]) else w
  }

  function Seeded(a: Alert, id: Id, warningRules: set<string>): Tracker {
    Tracker(if a.ruleId in warningRules then Warning else Critical, true, a.firedAt, a.firedAt,
            if a.silenced then None else Some(a.firedAt), id, a.silenced)
  }

  predicate Seedable(a: Alert) {
    a.ruleId != "" && AlertKey(a).subjectId != ""
  }

  /** The trackers seedState builds from the rows its query returned, in row order. */
  function SeedRows(alerts: map<Id, Alert>, rows: seq<Id>, warningRules: set<string>): (trackers: map<Key, Tracker>)
    requires forall i :: 0 <= i < |rows| ==> rows[i] in alerts
  {
    if rows == [] then map[]
    else
      var before := SeedRows(alerts, Front(rows), warningRules);
      var id := Last(rows);
      if Seedable(alerts[id]) then before[AlertKey(alerts[id]) := Seeded(alerts[id], id, warningRules)] else before
  }

  // ---- runs -------------------------------------------------------------------------------------

  predicate IsFiring(w: World, id: Id) {
    id in w.alerts && w.alerts[id].status == Firing
  }

  /** What the environment guarantees: inserts get fresh nonempty ids, stored rules and subjects have
      nonempty ids, and the seed query returns distinct firing rows (none at all when it fails). */
  ghost predicate Enabled(w: World, ev: Event) {
    match ev
    case Observed(o) =>
      && o.rule.id != "" && o.subject != ""
      && (o.saves.create ==> o.saves.newId != "" && o.saves.newId !in w.alerts)
    case Restarted(rows, _) =>
      && |rows| <= SEED_LIMIT
      && (forall i, j :: 0 <= i < j < |rows| ==> rows[i] != rows[j])
      && (forall i :: 0 <= i < |rows| ==> IsFiring(w, rows[i]))
    case _ => true
  }

  ghost function Step(w: World, ev: Event): World
    requires Enabled(w, ev)
  {
    match ev
    case Observed(o) => ObserveStep(w, o)
    case Acked(id) => AckStep(w, id, true)
    case Unacked(id) => AckStep(w, id, false)
    case Restarted(rows, warningRules) => w.(trackers := SeedRows(w.alerts, rows, warningRules))
  }

  ghost predicate ValidRun(w: World, evs: seq<Event>)
    decreases |evs|, 0
  {
    evs == [] || (ValidRun(w, Front(evs)) && Enabled(Run(w, Front(evs)), Last(evs)))
  }

  ghost function Run(w: World, evs: seq<Event>): World
    requires ValidRun(w, evs)
    decreases |evs|, 1
  {
    if evs == [] then w else Step(Run(w, Front(evs)), Last(evs))
  }
}
