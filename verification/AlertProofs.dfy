/** What holds in every reachable state of the alert engine, and over whole runs. */
module AlertProofs {
  import opened Sequences
  import opened Wrappers
  import opened AlertModel

  // ---- the invariant that survives every failure ------------------------------------------------

  ghost predicate TrackerSound(w: World, key: Key, t: Tracker) {
    && t.level != Resolved
    && (t.level == OK ==> t == IDLE)
    && (t.fired ==>
          && t.activeAlertId != "" && IsFiring(w, t.activeAlertId)
          && AlertKey(w.alerts[t.activeAlertId]) == key
          && t.firedAt == w.alerts[t.activeAlertId].firedAt)
    && (!t.fired ==> t.activeAlertId == "" && t.lastNotifiedAt == None && !t.silenced)
  }

  /** Every tracker that says "fired" points at a firing record of its own rule and subject. */
  ghost predicate Sound(w: World) {
    && (forall key {:trigger TrackerSound(w, key, w.trackers[key])} ::
          key in w.trackers ==> TrackerSound(w, key, w.trackers[key]))
    && (forall id <- w.alerts :: id != "" && Seedable(w.alerts[id]))
  }

  lemma ObserveKeepsSound(w: World, o: Observation)
    requires Sound(w) && Enabled(w, Observed(o))
    ensures Sound(ObserveStep(w, o))
  {
    var w' := ObserveStep(w, o);
    RecordsStaySeedable(w, o);
    forall key | key in w'.trackers ensures TrackerSound(w', key, w'.trackers[key]) {
      if key == KeyOf(o) {
        ObservedTrackerSound(w, o);
      } else {
        OtherTrackerSound(w, o, key);
      }
    }
  }

  lemma RecordsStaySeedable(w: World, o: Observation)
    requires Sound(w) && Enabled(w, Observed(o))
    ensures forall id <- ObserveStep(w, o).alerts :: id != "" && Seedable(ObserveStep(w, o).alerts[id])
  {
    assert TrackerSound(w, KeyOf(o), TrackerAt(w, KeyOf(o)));
  }

  lemma ObservedTrackerSound(w: World, o: Observation)
    requires TrackerSound(w, KeyOf(o), TrackerAt(w, KeyOf(o))) && Enabled(w, Observed(o))
    ensures TrackerSound(ObserveStep(w, o), KeyOf(o), ObserveStep(w, o).trackers[KeyOf(o)])
  {
  }

  /** An evaluation writes to no record that another key's tracker points at. */
  lemma OtherTrackerSound(w: World, o: Observation, key: Key)
    requires Sound(w) && Enabled(w, Observed(o)) && key in w.trackers && key != KeyOf(o)
    ensures TrackerSound(ObserveStep(w, o), key, w.trackers[key])
  {
    assert TrackerSound(w, KeyOf(o), TrackerAt(w, KeyOf(o)));
    assert TrackerSound(w, key, w.trackers[key]);
  }

  ghost predicate AllFiring(w: World, rows: seq<Id>) {
    forall i :: 0 <= i < |rows| ==> IsFiring(w, rows[i])
  }

  lemma {:induction false} SeedRowsSound(w: World, rows: seq<Id>, warningRules: set<string>, key: Key)
    requires Sound(w) && AllFiring(w, rows)
    requires key in SeedRows(w.alerts, rows, warningRules)
    ensures var t := SeedRows(w.alerts, rows, warningRules)[key];
            TrackerSound(w, key, t) && t.fired && t.activeAlertId in rows
  {
    var id := Last(rows);
    if Seedable(w.alerts[id]) && AlertKey(w.alerts[id]) == key {
      assert IsFiring(w, id);
    } else {
      SeedRowsSound(w, Front(rows), warningRules, key);
    }
  }

  lemma StepKeepsSound(w: World, ev: Event)
    requires Sound(w) && Enabled(w, ev)
    ensures Sound(Step(w, ev))
  {
    match ev {
      case Observed(o) => ObserveKeepsSound(w, o);
      case Restarted(rows, warningRules) =>
        var w' := Step(w, ev);
        forall key <- w'.trackers ensures TrackerSound(w', key, w'.trackers[key]) {
          SeedRowsSound(w, rows, warningRules, key);
        }
      case _ =>
        var w' := Step(w, ev);
        forall key <- w'.trackers ensures TrackerSound(w', key, w'.trackers[key]) {
          assert TrackerSound(w, key, w.trackers[key]);
        }
    }
  }

  lemma {:induction false} RunIsSound(w: World, evs: seq<Event>)
    requires Sound(w) && ValidRun(w, evs)
    ensures Sound(Run(w, evs))
  {
    if evs != [] {
      RunIsSound(w, Front(evs));
      StepKeepsSound(Run(w, Front(evs)), Last(evs));
    }
  }

  // ---- exactly one firing record per open incident ----------------------------------------------

  ghost function FiringIds(w: World, key: Key): set<Id> {
    set id <- w.alerts | IsFiring(w, id) && AlertKey(w.alerts[id]) == key
  }

  /** The firing records of a key are exactly the tracked one while fired, and none otherwise. */
  ghost predicate Consistent(w: World) {
    forall key: Key ::
      FiringIds(w, key) == if TrackerAt(w, key).fired then {TrackerAt(w, key).activeAlertId} else {}
  }

  /** The steps that lose track of a firing record: the non-breaching evaluation whose resolve save
      fails, and the restart whose seed query leaves a firing record out (it failed, or hit its limit). */
  ghost predicate Loses(w: World, ev: Event) {
    match ev
    case Observed(o) => !o.breaching && TrackerAt(w, KeyOf(o)).fired && !o.saves.resolve
    case Restarted(rows, _) => exists id <- w.alerts :: IsFiring(w, id) && id !in rows
    case _ => false
  }

  /** The same thing record by record, which is easier to carry through a step. */
  ghost predicate Tracked(w: World, id: Id)
    requires id in w.alerts
  {
    IsFiring(w, id) ==>
      TrackerAt(w, AlertKey(w.alerts[id])).fired && TrackerAt(w, AlertKey(w.alerts[id])).activeAlertId == id
  }

  lemma ConsistentIsTracked(w: World)
    requires Sound(w)
    ensures Consistent(w) <==> forall id <- w.alerts :: Tracked(w, id)
  {
    if Consistent(w) {
      forall id <- w.alerts ensures Tracked(w, id) {
        assert IsFiring(w, id) ==> id in FiringIds(w, AlertKey(w.alerts[id]));
      }
    }
    if forall id <- w.alerts :: Tracked(w, id) {
      forall key: Key
        ensures FiringIds(w, key) == if TrackerAt(w, key).fired then {TrackerAt(w, key).activeAlertId} else {}
      {
        assert forall id <- FiringIds(w, key) :: Tracked(w, id);
        if key in w.trackers {
          assert TrackerSound(w, key, w.trackers[key]);
        }
      }
    }
  }

  lemma ObserveConsistency(w: World, o: Observation)
    requires Sound(w) && Enabled(w, Observed(o)) && Consistent(w)
    ensures Consistent(ObserveStep(w, o)) <==> !Loses(w, Observed(o))
  {
    var w', k := ObserveStep(w, o), KeyOf(o);
    ConsistentIsTracked(w);
    ObserveKeepsSound(w, o);
    ConsistentIsTracked(w');
    assert TrackerSound(w, k, TrackerAt(w, k));
    if Loses(w, Observed(o)) {
      assert !Tracked(w', w.trackers[k].activeAlertId);
    } else {
      ObserveKeepsTracked(w, o);
    }
  }

  lemma ObserveKeepsTracked(w: World, o: Observation)
    requires Sound(w) && Enabled(w, Observed(o)) && !Loses(w, Observed(o))
    requires forall id <- w.alerts :: Tracked(w, id)
    ensures forall id <- ObserveStep(w, o).alerts :: Tracked(ObserveStep(w, o), id)
  {
    var w', e := ObserveStep(w, o), EffectOf(w, o);
    forall id | id in w'.alerts ensures Tracked(w', id) {
      if e.write.Some? && e.write.value.0 == id {
        WrittenIsTracked(w, o);
      } else {
        UnwrittenIsTracked(w, o, id);
      }
    }
  }

  lemma WrittenIsTracked(w: World, o: Observation)
    requires TrackerSound(w, KeyOf(o), TrackerAt(w, KeyOf(o))) && Enabled(w, Observed(o)) && EffectOf(w, o).write.Some?
    ensures Tracked(ObserveStep(w, o), EffectOf(w, o).write.value.0)
  {
  }

  lemma UnwrittenIsTracked(w: World, o: Observation, id: Id)
    requires TrackerSound(w, KeyOf(o), TrackerAt(w, KeyOf(o))) && Enabled(w, Observed(o)) && !Loses(w, Observed(o))
    requires id in w.alerts && Tracked(w, id)
    requires EffectOf(w, o).write.Some? ==> EffectOf(w, o).write.value.0 != id
    ensures Tracked(ObserveStep(w, o), id)
  {
  }

  lemma {:induction false} SeedRowsCovers(w: World, rows: seq<Id>, warningRules: set<string>, id: Id)
    requires Sound(w) && (forall r <- w.alerts :: Tracked(w, r))
    requires AllFiring(w, rows)
    requires id in rows
    ensures var seeded := SeedRows(w.alerts, rows, warningRules);
            var key := AlertKey(w.alerts[id]);
            key in seeded && seeded[key].fired && seeded[key].activeAlertId == id
  {
    if id in Front(rows) {
      SeedRowsCovers(w, Front(rows), warningRules, id);
      assert Tracked(w, id) && Tracked(w, Last(rows));
    }
  }

  /** No later one of the rows is of the same key. */
  ghost predicate IsLastRow(alerts: map<Id, Alert>, rows: seq<Id>, i: nat)
    requires forall j :: 0 <= j < |rows| ==> rows[j] in alerts
  {
    i < |rows| && Seedable(alerts[rows[i]]) &&
      forall j :: i < j < |rows| && Seedable(alerts[rows[j]]) ==> AlertKey(alerts[rows[j]]) != AlertKey(alerts[rows[i]])
  }

  /** Of several rows of one key a new process takes the last, with the level its rule has. */
  lemma {:induction false} SeedTakesLast(w: World, rows: seq<Id>, warningRules: set<string>, i: nat)
    requires AllFiring(w, rows) && IsLastRow(w.alerts, rows, i)
    ensures var seeded, a := SeedRows(w.alerts, rows, warningRules), w.alerts[rows[i]];
            && AlertKey(a) in seeded && seeded[AlertKey(a)].activeAlertId == rows[i]
            && seeded[AlertKey(a)].level == if a.ruleId in warningRules then Warning else Critical
  {
    if i < |rows| - 1 {
      assert rows[|rows| - 1] == Last(rows) && Front(rows)[i] == rows[i];
      SeedTakesLast(w, Front(rows), warningRules, i);
    }
  }

  lemma RestartConsistency(w: World, rows: seq<Id>, warningRules: set<string>)
    requires Sound(w) && Enabled(w, Restarted(rows, warningRules)) && Consistent(w)
    ensures Consistent(Step(w, Restarted(rows, warningRules))) <==> !Loses(w, Restarted(rows, warningRules))
  {
    var ev := Restarted(rows, warningRules);
    var w' := Step(w, ev);
    hide Consistent, SeedRows;
    ConsistentIsTracked(w);
    StepKeepsSound(w, ev);
    ConsistentIsTracked(w');
    if !Loses(w, ev) {
      forall id <- w'.alerts ensures Tracked(w', id) {
        if IsFiring(w', id) {
          assert IsFiring(w, id);
          SeedRowsCovers(w, rows, warningRules, id);
        }
      }
    } else {
      var id :| id in w.alerts && IsFiring(w, id) && id !in rows;
      LeftOutIsLost(w, rows, warningRules, id);
    }
  }

  lemma LeftOutIsLost(w: World, rows: seq<Id>, warningRules: set<string>, id: Id)
    requires Sound(w) && Enabled(w, Restarted(rows, warningRules)) && IsFiring(w, id) && id !in rows
    ensures !Tracked(Step(w, Restarted(rows, warningRules)), id)
  {
    var key := AlertKey(w.alerts[id]);
    if key in SeedRows(w.alerts, rows, warningRules) {
      SeedRowsSound(w, rows, warningRules, key);
    }
  }

  /** A step keeps "one record per open incident" exactly when it is not one of the losing steps. */
  lemma StepConsistency(w: World, ev: Event)
    requires Sound(w) && Enabled(w, ev) && Consistent(w)
    ensures Consistent(Step(w, ev)) <==> !Loses(w, ev)
  {
    match ev {
      case Observed(o) => ObserveConsistency(w, o);
      case Restarted(rows, warningRules) => RestartConsistency(w, rows, warningRules);
      case Acked(id) => AckConsistency(w, id, true);
      case Unacked(id) => AckConsistency(w, id, false);
    }
  }

  lemma AckConsistency(w: World, id: Id, acknowledged: bool)
    requires Consistent(w)
    ensures Consistent(AckStep(w, id, acknowledged))
  {
    var w' := AckStep(w, id, acknowledged);
    forall key: Key
      ensures FiringIds(w', key) == if TrackerAt(w', key).fired then {TrackerAt(w', key).activeAlertId} else {}
    {
      assert FiringIds(w', key) == FiringIds(w, key);
    }
  }

  ghost predicate LosslessRun(w: World, evs: seq<Event>)
    requires ValidRun(w, evs)
  {
    evs == [] || (LosslessRun(w, Front(evs)) && !Loses(Run(w, Front(evs)), Last(evs)))
  }

  /** In every state reached from an empty hub by a run without a losing step, whatever else failed. */
  lemma {:induction false} OneOpenRecordPerIncident(evs: seq<Event>)
    requires ValidRun(EMPTY, evs) && LosslessRun(EMPTY, evs)
    ensures Consistent(Run(EMPTY, evs))
    ensures forall key: Key :: |FiringIds(Run(EMPTY, evs), key)| <= 1
  {
    if evs == [] {
      assert forall key: Key :: FiringIds(EMPTY, key) == {};
    } else {
      OneOpenRecordPerIncident(Front(evs));
      RunIsSound(EMPTY, Front(evs));
      StepConsistency(Run(EMPTY, Front(evs)), Last(evs));
    }
    var w := Run(EMPTY, evs);
    forall key: Key ensures |FiringIds(w, key)| <= 1 {
      assert FiringIds(w, key) == (if TrackerAt(w, key).fired then {TrackerAt(w, key).activeAlertId} else {});
    }
  }

  /** The seed query can only leave a row out by failing or by reaching its limit. */
  lemma SeedWithinLimit(w: World, firing: seq<Id>, warningRules: set<string>)
    requires |firing| <= 1000
    requires forall i, j :: 0 <= i < j < |firing| ==> firing[i] != firing[j]
    requires forall id :: id in firing <==> IsFiring(w, id)
    ensures Enabled(w, Restarted(firing, warningRules)) && !Loses(w, Restarted(firing, warningRules))
  {
  }

  const CPU_RULE := Rule("r", "cpu", 0.0)

  function Sample(breaching: bool, now: int, newId: Id, resolve: bool): Observation {
    Observation(CPU_RULE, "a", breaching, "critical", 0, false, now, Saves(newId, true, true, resolve, true))
  }

  /** A breach that fires, then clears while its resolve save fails. */
  lemma IncidentLeftOpen() returns (evs: seq<Event>, w: World)
    ensures ValidRun(EMPTY, evs) && w == Run(EMPTY, evs)
    ensures w.alerts.Keys == {"x"} && IsFiring(w, "x") && AlertKey(w.alerts["x"]) == Key("r", "a")
    ensures TrackerAt(w, Key("r", "a")) == IDLE
  {
    var evs1, w1 := AfterOne(EMPTY, [], Observed(Sample(true, 0, "x", true)));
    var evs2, w2 := AfterOne(EMPTY, evs1, Observed(Sample(true, 1, "x", true)));
    evs, w := AfterOne(EMPTY, evs2, Observed(Sample(false, 2, "y", false)));
  }

  /** One failed resolve save is enough for two open records of one rule and subject. */
  lemma FailedResolveLeavesTwoOpenRecords()
    ensures exists evs: seq<Event>, key: Key ::
              ValidRun(EMPTY, evs) && |FiringIds(Run(EMPTY, evs), key)| == 2
  {
    var evs, w := IncidentLeftOpen();
    var evs1, w1 := AfterOne(EMPTY, evs, Observed(Sample(true, 3, "y", true)));
    var evs2, w2 := AfterOne(EMPTY, evs1, Observed(Sample(true, 4, "y", true)));
    assert w2.alerts.Keys == {"x", "y"};
    assert FiringIds(w2, Key("r", "a")) == {"x", "y"};
    assert |FiringIds(w2, Key("r", "a"))| == 2;
  }

  lemma AfterOne(w: World, evs: seq<Event>, ev: Event) returns (longer: seq<Event>, w': World)
    requires ValidRun(w, evs) && Enabled(Run(w, evs), ev)
    ensures longer == evs + [ev] && ValidRun(w, longer) && w' == Run(w, longer) == Step(Run(w, evs), ev)
  {
    longer := evs + [ev];
    assert Front(longer) == evs;
    w' := Run(w, longer);
  }

  // ---- the life of one record -------------------------------------------------------------------

  /** What never changes about a stored record, and what changes at most once. */
  ghost predicate Evolves(a: Alert, b: Alert) {
    && AlertKey(a) == AlertKey(b) && a.firedAt == b.firedAt
    && (a.status == Closed ==> b.status == Closed && b.resolvedAt == a.resolvedAt)
    && (a.escalatedAt.Some? ==> b.escalatedAt == a.escalatedAt)
  }

  /** What an evaluation writes is its own record, moved on, or a new one. */
  lemma EvaluationEvolves(t: Tracker, record: Option<Alert>, o: Observation)
    requires if t.fired then record.Some? && record.value.status == Firing else t.activeAlertId == ""
    ensures var e := Evaluate(t, record, o);
            e.write.Some? ==>
              || (record.Some? && e.write.value.0 == t.activeAlertId && Evolves(record.value, e.write.value.1))
              || (o.saves.create && e.write.value.0 == o.saves.newId)
  {
  }

  lemma StepEvolves(w: World, ev: Event, id: Id)
    requires Sound(w) && Enabled(w, ev) && id in w.alerts
    ensures id in Step(w, ev).alerts && Evolves(w.alerts[id], Step(w, ev).alerts[id])
  {
    hide Evaluate;
    match ev {
      case Observed(o) =>
        var t := TrackerAt(w, KeyOf(o));
        assert TrackerSound(w, KeyOf(o), t);
        EvaluationEvolves(t, ActiveRecord(w, t), o);
      case _ =>
    }
  }

  /** Over any run, with any failures and restarts: resolved at most once and never firing again. */
  lemma {:induction false} RecordsEvolve(w: World, evs: seq<Event>, id: Id)
    requires Sound(w) && ValidRun(w, evs) && id in w.alerts
    ensures id in Run(w, evs).alerts && Evolves(w.alerts[id], Run(w, evs).alerts[id])
  {
    if evs != [] {
      RecordsEvolve(w, Front(evs), id);
      RunIsSound(w, Front(evs));
      StepEvolves(Run(w, Front(evs)), Last(evs), id);
    }
  }

  // ---- who is told what -------------------------------------------------------------------------

  function Added(w: World, w': World): seq<Notice>
    requires |w.notices| <= |w'.notices|
  {
    w'.notices[|w.notices|..]
  }

  lemma AddedIsEffect(w: World, ev: Event)
    requires Enabled(w, ev)
    ensures w.notices <= Step(w, ev).notices
    ensures Added(w, Step(w, ev)) == if ev.Observed? then EffectOf(w, ev.o).notices else []
  {
  }

  predicate IsFiringNotice(n: Notice, id: Id) {
    n.Notified? && n.alertId == id && n.status == Firing
  }

  /** An evaluation that opens an incident and stores this record for it. */
  predicate Opening(w: World, o: Observation, id: Id) {
    var t := TrackerAt(w, KeyOf(o));
    && (t.level.Warning? || t.level.Critical?) && !t.fired
    && o.now - t.firstBreachAt >= o.duration && o.saves.create && o.saves.newId == id
  }

  /** An evaluation that finds the record of its incident still firing and saves it. */
  predicate Refreshing(w: World, o: Observation, id: Id) {
    IsFiring(w, id) && TrackerAt(w, KeyOf(o)).activeAlertId == id && o.saves.refresh
  }

  lemma EvaluationNotifies(t: Tracker, record: Option<Alert>, o: Observation, id: Id, at: int)
    requires t.fired ==> record.Some? && record.value.status == Firing
    requires t.level != Resolved && (t.level == OK ==> !t.fired) && (t.fired <==> t.activeAlertId != "")
    ensures Notified(id, at, Firing) in Evaluate(t, record, o).notices <==>
            && o.breaching && !o.silenced && at == o.now
            && ((t.level != OK && !t.fired && o.now - t.firstBreachAt >= o.duration && o.saves.create
                 && o.saves.newId == id)
                || (t.fired && t.activeAlertId == id && o.saves.refresh && !record.value.acknowledged
                    && (t.silenced || t.lastNotifiedAt.None? || at - t.lastNotifiedAt.value >= 300_000)))
  {
  }

  /** When exactly an event sends a firing notice. */
  lemma NotifiesExactlyWhen(w: World, ev: Event, id: Id, at: int)
    requires Sound(w) && Enabled(w, ev)
    ensures w.notices <= Step(w, ev).notices
    ensures Notified(id, at, Firing) in Added(w, Step(w, ev)) <==>
            && ev.Observed? && ev.o.breaching && !ev.o.silenced && at == ev.o.now
            && var t := TrackerAt(w, KeyOf(ev.o));
               || Opening(w, ev.o, id)
               || (Refreshing(w, ev.o, id) && !w.alerts[id].acknowledged
                   && (t.silenced || t.lastNotifiedAt.None? || at - t.lastNotifiedAt.value >= 300_000))
  {
    hide Evaluate;
    AddedIsEffect(w, ev);
    if ev.Observed? {
      var t := TrackerAt(w, KeyOf(ev.o));
      assert TrackerSound(w, KeyOf(ev.o), t);
      EvaluationNotifies(t, ActiveRecord(w, t), ev.o, id, at);
    }
  }

  /** When exactly an event sends a resolution notice; whether the alert is silenced plays no part. */
  lemma ResolvesExactlyWhen(w: World, ev: Event, id: Id, at: int)
    requires Sound(w) && Enabled(w, ev)
    ensures w.notices <= Step(w, ev).notices
    ensures Notified(id, at, Closed) in Added(w, Step(w, ev)) <==>
            && ev.Observed? && !ev.o.breaching && at == ev.o.now && ev.o.saves.resolve
            && IsFiring(w, id) && TrackerAt(w, KeyOf(ev.o)).activeAlertId == id
  {
    AddedIsEffect(w, ev);
    if ev.Observed? {
      assert TrackerSound(w, KeyOf(ev.o), TrackerAt(w, KeyOf(ev.o)));
    }
  }

  // ---- escalation -------------------------------------------------------------------------------

  lemma EvaluationEscalates(t: Tracker, record: Option<Alert>, o: Observation, id: Id, at: int)
    requires t.fired ==> record.Some? && record.value.status == Firing && record.value.firedAt == t.firedAt
    requires t.level != Resolved && (t.level == OK ==> !t.fired) && (t.fired <==> t.activeAlertId != "")
    ensures Escalated(id, at) in Evaluate(t, record, o).notices <==>
            && o.breaching && !o.silenced && at == o.now && t.fired && t.activeAlertId == id && o.saves.refresh
            && !record.value.acknowledged && EscalationDue(record.value, record.value.firedAt, o) && o.saves.escalate
  {
  }

  /** When exactly an event escalates an alert, where escalation_after is at least so many whole seconds and less
      than one more. */
  lemma EscalatesExactlyWhen(w: World, ev: Event, id: Id, at: int, seconds: int)
    requires Sound(w) && Enabled(w, ev)
    requires ev.Observed? ==> seconds as real <= ev.o.rule.escalationAfter < (seconds + 1) as real
    ensures w.notices <= Step(w, ev).notices
    ensures Escalated(id, at) in Added(w, Step(w, ev)) <==>
            && ev.Observed? && ev.o.breaching && !ev.o.silenced && at == ev.o.now
            && Refreshing(w, ev.o, id) && !w.alerts[id].acknowledged && w.alerts[id].escalatedAt.None?
            && ev.o.rule.escalationAfter > 0.0
            && at - w.alerts[id].firedAt >= seconds * 1000
            && ev.o.saves.escalate
  {
    hide Evaluate;
    AddedIsEffect(w, ev);
    if ev.Observed? {
      var t := TrackerAt(w, KeyOf(ev.o));
      assert TrackerSound(w, KeyOf(ev.o), t);
      EvaluationEscalates(t, ActiveRecord(w, t), ev.o, id, at);
    }
  }

  // ---- acknowledgement --------------------------------------------------------------------------

  /** Says that the alert is firing, or has been for too long. */
  predicate Raises(n: Notice, id: Id) {
    n.alertId == id && (n.Escalated? || n.status == Firing)
  }

  ghost predicate Acknowledged(w: World, id: Id) {
    id in w.alerts && w.alerts[id].acknowledged
  }

  lemma StepKeepsAcknowledged(w: World, ev: Event, id: Id)
    requires Sound(w) && Enabled(w, ev) && Acknowledged(w, id) && ev != Unacked(id)
    ensures Acknowledged(Step(w, ev), id)
  {
    if ev.Observed? {
      assert TrackerSound(w, KeyOf(ev.o), TrackerAt(w, KeyOf(ev.o)));
    }
  }

  lemma StepStaysQuiet(w: World, ev: Event, id: Id)
    requires Sound(w) && Enabled(w, ev) && Acknowledged(w, id) && ev != Unacked(id)
    ensures Acknowledged(Step(w, ev), id) && w.notices <= Step(w, ev).notices
    ensures forall n <- Added(w, Step(w, ev)) :: !Raises(n, id)
  {
    StepKeepsAcknowledged(w, ev, id);
    AddedIsEffect(w, ev);
    hide Step;
    forall n <- Added(w, Step(w, ev)) ensures !Raises(n, id) {
      if n.Escalated? {
        EscalatesExactlyWhen(w, ev, n.alertId, n.at, if ev.Observed? then ev.o.rule.escalationAfter.Floor else 0);
      } else {
        NotifiesExactlyWhen(w, ev, n.alertId, n.at);
      }
    }
  }

  /** Until somebody takes the acknowledgement back an acknowledged alert is neither announced nor escalated, over
      any run with any failures and restarts. */
  lemma {:induction false} AcknowledgedStaysQuiet(w: World, evs: seq<Event>, id: Id)
    requires Sound(w) && Acknowledged(w, id) && ValidRun(w, evs) && Unacked(id) !in evs
    ensures Acknowledged(Run(w, evs), id) && w.notices <= Run(w, evs).notices
    ensures forall n <- Added(w, Run(w, evs)) :: !Raises(n, id)
  {
    if evs != [] {
      var v := Run(w, Front(evs));
      AcknowledgedStaysQuiet(w, Front(evs), id);
      RunIsSound(w, Front(evs));
      assert Last(evs) in evs;
      StepStaysQuiet(v, Last(evs), id);
      assert Added(w, Run(w, evs)) == Added(w, v) + Added(v, Run(w, evs));
    }
  }

  // ---- told once --------------------------------------------------------------------------------

  /** The notices a record is marked for: that it was escalated, and that it is over. */
  datatype Kind = Escalation | Resolution

  predicate IsOf(n: Notice, id: Id, kind: Kind) {
    n.alertId == id && if kind.Escalation? then n.Escalated? else n.Notified? && n.status == Closed
  }

  predicate Marked(a: Alert, kind: Kind) {
    if kind.Escalation? then a.escalatedAt.Some? else a.status == Closed
  }

  function Count(notices: seq<Notice>, id: Id, kind: Kind): nat {
    if notices == [] then 0
    else Count(Front(notices), id, kind) + if IsOf(Last(notices), id, kind) then 1 else 0
  }

  ghost predicate ToldOnce(w: World, id: Id, kind: Kind) {
    Count(w.notices, id, kind) == if id in w.alerts && Marked(w.alerts[id], kind) then 1 else 0
  }

  lemma {:induction false} CountAppend(notices: seq<Notice>, more: seq<Notice>, id: Id, kind: Kind)
    ensures Count(notices + more, id, kind) == Count(notices, id, kind) + Count(more, id, kind)
  {
    if more == [] {
      assert notices + more == notices;
    } else {
      assert Front(notices + more) == notices + Front(more);
      CountAppend(notices, Front(more), id, kind);
    }
  }

  /** How many notices of the kind one evaluation sends, which never are two. */
  function Tells(notices: seq<Notice>, id: Id, kind: Kind): nat {
    if notices != [] && IsOf(Last(notices), id, kind) then 1 else 0
  }

  lemma CountShort(notices: seq<Notice>, id: Id, kind: Kind)
    requires |notices| <= 2 && (|notices| == 2 ==> !IsOf(notices[0], id, kind))
    ensures Count(notices, id, kind) == Tells(notices, id, kind)
  {
  }

  /** An evaluation that tells of a record is the one that marks it. */
  lemma TellingIsMarked(t: Tracker, record: Option<Alert>, o: Observation, id: Id, kind: Kind)
    requires o.saves.create ==> o.saves.newId != t.activeAlertId
    requires if t.fired then record.Some? ==> record.value.status == Firing else t.activeAlertId == ""
    ensures var e := Evaluate(t, record, o);
            && |e.notices| <= 2 && (|e.notices| == 2 ==> !IsOf(e.notices[0], id, kind))
            && (Tells(e.notices, id, kind) == 1 ==> e.write.Some? && e.write.value.0 == id)
            && (e.write.Some? ==> (record.Some? && e.write.value.0 == t.activeAlertId)
                                  || (o.saves.create && e.write.value.0 == o.saves.newId))
            && (e.write.Some? && e.write.value.0 == id ==>
                  var before := id == t.activeAlertId && record.Some? && Marked(record.value, kind);
                  if Tells(e.notices, id, kind) == 1 then !before && Marked(e.write.value.1, kind)
                  else Marked(e.write.value.1, kind) == before)
  {
  }

  lemma StepTellsOnce(w: World, ev: Event, id: Id, kind: Kind)
    requires Sound(w) && Enabled(w, ev) && ToldOnce(w, id, kind)
    ensures ToldOnce(Step(w, ev), id, kind)
  {
    if ev.Observed? {
      ObserveTellsOnce(w, ev.o, id, kind);
    }
  }

  lemma ObserveTellsOnce(w: World, o: Observation, id: Id, kind: Kind)
    requires Sound(w) && Enabled(w, Observed(o)) && ToldOnce(w, id, kind)
    ensures ToldOnce(ObserveStep(w, o), id, kind)
  {
    hide Evaluate, Count, Marked, IsOf;
    var t := TrackerAt(w, KeyOf(o));
    var e := EffectOf(w, o);
    assert TrackerSound(w, KeyOf(o), t);
    TellingIsMarked(t, ActiveRecord(w, t), o, id, kind);
    CountAppend(w.notices, e.notices, id, kind);
    CountShort(e.notices, id, kind);
  }

  /** Each record is escalated at most once, and announced as resolved at most once, over all runs, restarts
      included: once exactly when it says that it was escalated, or that it is resolved. */
  lemma {:induction false} ToldExactlyOnce(evs: seq<Event>, id: Id, kind: Kind)
    requires ValidRun(EMPTY, evs)
    ensures ToldOnce(Run(EMPTY, evs), id, kind)
  {
    if evs != [] {
      ToldExactlyOnce(Front(evs), id, kind);
      RunIsSound(EMPTY, Front(evs));
      StepTellsOnce(Run(EMPTY, Front(evs)), Last(evs), id, kind);
    }
  }
}
