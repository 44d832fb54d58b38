/** What the records and the trackers of the alert engine remember of the events, and what follows for notices. */
module AlertMemory {
  import opened Sequences
  import opened Wrappers
  import opened AlertModel
  import opened AlertProofs
  import opened AlertHistory

  // ---- acknowledgement --------------------------------------------------------------------------

  /** Whether the last of the events that acknowledge a stored alert or take that back acknowledged it. */
  ghost predicate AckedLast(evs: seq<Event>, id: Id)
    requires ValidRun(EMPTY, evs)
  {
    evs != [] &&
      match Last(evs)
      case Acked(i) => if i == id then id in Run(EMPTY, Front(evs)).alerts else AckedLast(Front(evs), id)
      case Unacked(i) => i != id && AckedLast(Front(evs), id)
      case _ => AckedLast(Front(evs), id)
  }

  lemma ObserveKeepsAcks(w: World, o: Observation, id: Id)
    requires Sound(w) && Enabled(w, Observed(o))
    ensures Acknowledged(ObserveStep(w, o), id) <==> Acknowledged(w, id)
    ensures id in w.alerts ==> id in ObserveStep(w, o).alerts
  {
    assert TrackerSound(w, KeyOf(o), TrackerAt(w, KeyOf(o)));
  }

  /** Nothing but an acknowledgement, or taking it back, changes whether an alert is acknowledged. */
  lemma {:induction false} AcknowledgedFollowsEvents(evs: seq<Event>, id: Id)
    requires ValidRun(EMPTY, evs)
    ensures Acknowledged(Run(EMPTY, evs), id) <==> AckedLast(evs, id)
  {
    if evs != [] {
      AcknowledgedFollowsEvents(Front(evs), id);
      RunIsSound(EMPTY, Front(evs));
      if Last(evs).Observed? {
        ObserveKeepsAcks(Run(EMPTY, Front(evs)), Last(evs).o, id);
      }
    }
  }

  // ---- what a record says of the evaluation that made it ----------------------------------------

  /** The event opens the incident of record a, and a names its rule, its subject and its time. */
  ghost predicate Made(w: World, ev: Event, id: Id, a: Alert) {
    && ev.Observed? && ev.o.breaching && Opening(w, ev.o, id)
    && a.ruleId == ev.o.rule.id && a.firedAt == ev.o.now
    && if ev.o.rule.metricType == "check_down" || ev.o.rule.metricType == "cert_expiry"
       then a.checkId == ev.o.subject && a.agentId == ""
       else a.agentId == ev.o.subject && a.checkId == ""
  }

  ghost predicate MadeAt(evs: seq<Event>, k: nat, id: Id, a: Alert)
    requires ValidRun(EMPTY, evs)
  {
    k < |evs| && ValidRun(EMPTY, evs[..k]) && Made(Run(EMPTY, evs[..k]), evs[k], id, a)
  }

  ghost predicate SameSubject(a: Alert, b: Alert) {
    a.ruleId == b.ruleId && a.agentId == b.agentId && a.checkId == b.checkId && a.firedAt == b.firedAt
  }

  /** An evaluation writes its incident's record, or the one it makes. */
  lemma EvaluationMakes(t: Tracker, record: Option<Alert>, o: Observation)
    requires if t.fired then record.Some? && record.value.status == Firing else t.activeAlertId == ""
    requires t.level != Resolved && (t.level == OK ==> !t.fired)
    ensures var e := Evaluate(t, record, o);
            e.write.Some? ==>
              if t.fired then e.write.value.0 == t.activeAlertId && SameSubject(record.value, e.write.value.1)
              else && e.write.value == (o.saves.newId, NewAlert(o)) && o.breaching && o.saves.create
                   && t.level != OK && o.now - t.firstBreachAt >= o.duration
  {
  }

  lemma StepMakes(w: World, ev: Event, id: Id)
    requires Sound(w) && Enabled(w, ev) && id in Step(w, ev).alerts
    ensures if id in w.alerts then SameSubject(w.alerts[id], Step(w, ev).alerts[id])
            else Made(w, ev, id, Step(w, ev).alerts[id])
  {
    hide Evaluate;
    if ev.Observed? {
      var t := TrackerAt(w, KeyOf(ev.o));
      assert TrackerSound(w, KeyOf(ev.o), t);
      EvaluationMakes(t, ActiveRecord(w, t), ev.o);
    }
  }

  /** Every record was made by an evaluation that opened its incident, and names that one's rule, subject and time:
      the subject as a check for the rules on checks and as an agent for all others. */
  lemma {:induction false} RecordIsMade(evs: seq<Event>, id: Id) returns (k: nat)
    requires ValidRun(EMPTY, evs) && id in Run(EMPTY, evs).alerts
    ensures MadeAt(evs, k, id, Run(EMPTY, evs).alerts[id])
  {
    var w, ev := Run(EMPTY, Front(evs)), Last(evs);
    RunIsSound(EMPTY, Front(evs));
    StepMakes(w, ev, id);
    if id in w.alerts {
      k := RecordIsMade(Front(evs), id);
      assert Front(evs)[..k] == evs[..k];
    } else {
      k := |evs| - 1;
    }
  }

  // ---- the silence flag -------------------------------------------------------------------------

  /** The evaluation stores its silence flag in this record: it opens the incident or refreshes it. */
  predicate StoresSilence(w: World, o: Observation, id: Id) {
    o.breaching && (Opening(w, o, id) || (TrackerAt(w, KeyOf(o)).fired && Refreshing(w, o, id)))
  }

  /** The flag of the last evaluation that stored one in this record. */
  ghost predicate SilencedLast(evs: seq<Event>, id: Id)
    requires ValidRun(EMPTY, evs)
  {
    evs != [] &&
      if Last(evs).Observed? && StoresSilence(Run(EMPTY, Front(evs)), Last(evs).o, id) then Last(evs).o.silenced
      else SilencedLast(Front(evs), id)
  }

  ghost predicate SilenceAgrees(w: World, key: Key) {
    var t := TrackerAt(w, key);
    t.fired && t.activeAlertId in w.alerts ==> t.silenced == w.alerts[t.activeAlertId].silenced
  }

  predicate MarkedSilenced(w: World, id: Id) {
    id in w.alerts && w.alerts[id].silenced
  }

  lemma StepStoresSilence(w: World, ev: Event, id: Id)
    requires Sound(w) && Enabled(w, ev)
    ensures MarkedSilenced(Step(w, ev), id) ==
            if ev.Observed? && StoresSilence(w, ev.o, id) then ev.o.silenced else MarkedSilenced(w, id)
  {
    if ev.Observed? {
      assert TrackerSound(w, KeyOf(ev.o), TrackerAt(w, KeyOf(ev.o)));
    }
  }

  /** A record says "silenced" exactly when the last evaluation that could save it was. */
  lemma {:induction false} SilenceFollowsEvents(evs: seq<Event>, id: Id)
    requires ValidRun(EMPTY, evs)
    ensures MarkedSilenced(Run(EMPTY, evs), id) <==> SilencedLast(evs, id)
  {
    if evs != [] {
      SilenceFollowsEvents(Front(evs), id);
      RunIsSound(EMPTY, Front(evs));
      StepStoresSilence(Run(EMPTY, Front(evs)), Last(evs), id);
    }
  }

  lemma EvaluationAgrees(t: Tracker, record: Option<Alert>, o: Observation)
    requires if t.fired then record.Some? && t.silenced == record.value.silenced else t.activeAlertId == ""
    requires t.level != Resolved && (t.level == OK ==> !t.fired)
    ensures var e := Evaluate(t, record, o);
            e.tracker.fired ==>
              if e.write.Some? then
                e.write.value.0 == e.tracker.activeAlertId && e.tracker.silenced == e.write.value.1.silenced
              else t.fired && e.tracker.activeAlertId == t.activeAlertId && e.tracker.silenced == t.silenced
  {
  }

  lemma ObserveKeepsSilence(w: World, o: Observation, key: Key)
    requires Sound(w) && Enabled(w, Observed(o)) && SilenceAgrees(w, key)
    ensures SilenceAgrees(ObserveStep(w, o), key)
  {
    hide Evaluate;
    var t := TrackerAt(w, KeyOf(o));
    assert TrackerSound(w, KeyOf(o), t) && TrackerSound(w, key, TrackerAt(w, key));
    if key == KeyOf(o) {
      EvaluationAgrees(t, ActiveRecord(w, t), o);
    } else {
      EvaluationMakes(t, ActiveRecord(w, t), o);
    }
  }

  lemma {:induction false} SeedKeepsSilence(w: World, rows: seq<Id>, warningRules: set<string>, key: Key)
    requires AllFiring(w, rows)
    ensures var seeded := SeedRows(w.alerts, rows, warningRules);
            key in seeded ==> seeded[key].activeAlertId in w.alerts
                              && seeded[key].silenced == w.alerts[seeded[key].activeAlertId].silenced
  {
    if rows != [] {
      SeedKeepsSilence(w, Front(rows), warningRules, key);
      assert IsFiring(w, rows[|rows| - 1]);
    }
  }

  /** Record and tracker agree on silence, across restarts. */
  lemma {:induction false} RecordAndTrackerAgree(evs: seq<Event>, key: Key)
    requires ValidRun(EMPTY, evs)
    ensures SilenceAgrees(Run(EMPTY, evs), key)
  {
    if evs != [] {
      var w := Run(EMPTY, Front(evs));
      RecordAndTrackerAgree(Front(evs), key);
      RunIsSound(EMPTY, Front(evs));
      match Last(evs) {
        case Observed(o) => ObserveKeepsSilence(w, o, key);
        case Restarted(rows, warningRules) => SeedKeepsSilence(w, rows, warningRules, key);
        case _ =>
      }
    }
  }

  // ---- stamps and notices -----------------------------------------------------------------------

  /** The times a record is stamped with are those of the notices that were sent of it. */
  ghost predicate StampsMatch(w: World, id: Id, at: int) {
    && (Escalated(id, at) in w.notices <==> id in w.alerts && w.alerts[id].escalatedAt == Some(at))
    && (Notified(id, at, Closed) in w.notices <==>
          id in w.alerts && w.alerts[id].status == Closed && w.alerts[id].resolvedAt == Some(at))
    && (id in w.alerts && w.alerts[id].status == Firing ==> w.alerts[id].resolvedAt == None)
  }

  ghost predicate StampedAs(a: Alert, escalatedAt: Option<int>, status: Status, resolvedAt: Option<int>) {
    a.escalatedAt == escalatedAt && a.status == status && a.resolvedAt == resolvedAt
  }

  /** The stamps a record gets in one evaluation are the times of the notices it sends. */
  lemma EvaluationStamps(t: Tracker, record: Option<Alert>, o: Observation)
    requires if t.fired then record.Some? && record.value.status == Firing && record.value.resolvedAt == None
             else t.activeAlertId == ""
    requires t.level == OK ==> !t.fired
    ensures var e := Evaluate(t, record, o);
            var escalates, resolves := Escalated(t.activeAlertId, o.now), Notified(t.activeAlertId, o.now, Closed);
            && (forall n <- e.notices :: n == escalates || n == resolves || (n.Notified? && n.status == Firing))
            && (t.fired && e.write.Some? ==>
                  && e.write.value.0 == t.activeAlertId
                  && (escalates in e.notices ==> record.value.escalatedAt == None)
                  && StampedAs(e.write.value.1,
                               if escalates in e.notices then Some(o.now) else record.value.escalatedAt,
                               if resolves in e.notices then Closed else Firing,
                               if resolves in e.notices then Some(o.now) else None))
            && (!t.fired ==> escalates !in e.notices && resolves !in e.notices)
            && (!t.fired && e.write.Some? ==>
                  o.saves.create && e.write.value.0 == o.saves.newId && StampedAs(e.write.value.1, None, Firing, None))
            && (e.write.None? ==> e.notices == [])
  {
  }

  lemma ObserveKeepsStamps(w: World, o: Observation, id: Id, at: int)
    requires Sound(w) && Enabled(w, Observed(o)) && StampsMatch(w, id, at)
    requires forall t: int :: StampsMatch(w, TrackerAt(w, KeyOf(o)).activeAlertId, t)
    ensures StampsMatch(ObserveStep(w, o), id, at)
  {
    hide Evaluate;
    var t := TrackerAt(w, KeyOf(o));
    var e := EffectOf(w, o);
    assert TrackerSound(w, KeyOf(o), t);
    assert StampsMatch(w, t.activeAlertId, at);
    EvaluationStamps(t, ActiveRecord(w, t), o);
  }

  lemma {:induction false} StampsAreNotices(evs: seq<Event>, id: Id, at: int)
    requires ValidRun(EMPTY, evs)
    ensures StampsMatch(Run(EMPTY, evs), id, at)
  {
    if evs != [] {
      var w := Run(EMPTY, Front(evs));
      StampsAreNotices(Front(evs), id, at);
      RunIsSound(EMPTY, Front(evs));
      if Last(evs).Observed? {
        forall t: int ensures StampsMatch(w, TrackerAt(w, KeyOf(Last(evs).o)).activeAlertId, t) {
          StampsAreNotices(Front(evs), TrackerAt(w, KeyOf(Last(evs).o)).activeAlertId, t);
        }
        ObserveKeepsStamps(w, Last(evs).o, id, at);
      }
    }
  }
}
