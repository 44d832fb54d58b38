/** The engine itself: methods that update trackers and records in place, each proved against AlertModel. */
module AlertEngine {
  import opened Sequences
  import opened Wrappers
  import opened AlertModel

  /** The "alerts" collection and the notifiers, shared by the engine, the HTTP routes and later processes. */
  class AlertStore {
    var alerts: map<Id, Alert>
    var notices: seq<Notice>

    constructor ()
      ensures alerts == map[] && notices == []
    {
      alerts, notices := map[], [];
    }

    method Save(id: Id, record: Alert, saved: bool) returns (ok: bool)
      modifies this`alerts
      ensures ok == saved
      ensures alerts == if saved then old(alerts)[id := record] else old(alerts)
    {
      if saved {
        alerts := alerts[id := record];
      }
      return saved;
    }

    method Dispatch(notice: Notice)
      modifies this`notices
      ensures notices == old(notices) + [notice]
    {
      notices := notices + [notice];
    }

    /** handleAckAlert and handleUnackAlert: any existing record, firing or resolved. */
    method SetAcknowledged(id: Id, acknowledged: bool, ghost trackers: map<Key, Tracker>)
      modifies this`alerts
      ensures World(alerts, trackers, notices) == AckStep(World(old(alerts), trackers, notices), id, acknowledged)
    {
      if id in alerts {
        var _ := Save(id, alerts[id].(acknowledged := acknowledged), true);
      }
    }
  }

  class Engine {
    const store: AlertStore
    var trackers: map<Key, Tracker>

    ghost function State(): World
      reads this, store
    {
      World(store.alerts, trackers, store.notices)
    }

    /** A freshly started process: Start runs seedState on the rows its query returned. */
    constructor (store: AlertStore, rows: seq<Id>, warningRules: set<string>)
      requires Enabled(World(store.alerts, map[], store.notices), Restarted(rows, warningRules))
      ensures this.store == store
      ensures State() == Step(World(old(store.alerts), map[], old(store.notices)), Restarted(rows, warningRules))
    {
      this.store := store;
      trackers := map[];
      new;
      assert forall i :: 0 <= i < |rows| ==> IsFiring(State(), rows[i]);
      SeedState(rows, warningRules);
    }

    method SeedState(rows: seq<Id>, warningRules: set<string>)
      requires trackers == map[]
      requires forall i :: 0 <= i < |rows| ==> rows[i] in store.alerts
      modifies this`trackers
      ensures trackers == SeedRows(store.alerts, rows, warningRules)
    {
      for i := 0 to |rows|
        invariant trackers == SeedRows(store.alerts, rows[..i], warningRules)
      {
        assert rows[..i + 1][..i] == rows[..i];
        var id := rows[i];
        var record := store.alerts[id];
        var subjectId := record.agentId;
        if subjectId == "" {
          subjectId := record.checkId;
        }
        if record.ruleId != "" && subjectId != "" {
          var level := if record.ruleId in warningRules then Warning else Critical;
          var lastNotifiedAt := if record.silenced then None else Some(record.firedAt);
          trackers := trackers[Key(record.ruleId, subjectId) :=
            Tracker(level, true, record.firedAt, record.firedAt, lastNotifiedAt, id, record.silenced)];
        }
      }
      assert rows[..|rows|] == rows;
    }

    method ResolveAlert(id: Id, now: int, saved: bool)
      modifies store
      ensures id in old(store.alerts) && saved ==>
                && store.alerts
                   == old(store.alerts)[id := old(store.alerts)[id].(status := Closed, resolvedAt := Some(now))]
                && store.notices == old(store.notices) + [Notified(id, now, Closed)]
      ensures id !in old(store.alerts) || !saved ==> unchanged(store)
    {
      if id !in store.alerts {
        return;
      }
      var ok := store.Save(id, store.alerts[id].(status := Closed, resolvedAt := Some(now)), saved);
      if ok {
        store.Dispatch(Notified(id, now, Closed));
      }
    }

    method FireAlert(o: Observation) returns (id: Id)
      modifies store
      ensures id == if o.saves.create then o.saves.newId else ""
      ensures o.saves.create ==>
                && store.alerts == old(store.alerts)[id := NewAlert(o)]
                && store.notices == old(store.notices) + if o.silenced then [] else [Notified(id, o.now, Firing)]
      ensures !o.saves.create ==> unchanged(store)
    {
      var ok := store.Save(o.saves.newId, NewAlert(o), o.saves.create);
      if !ok {
        return "";
      }
      if !o.silenced {
        store.Dispatch(Notified(o.saves.newId, o.now, Firing));
      }
      return o.saves.newId;
    }

    method RefreshFiringAlert(id: Id, o: Observation) returns (record: Option<Alert>)
      modifies store`alerts
      ensures record.Some? <==> id in old(store.alerts) && o.saves.refresh
      ensures record.None? ==> store.alerts == old(store.alerts)
      ensures record.Some? ==>
                && record.value == old(store.alerts)[id].(silenced := o.silenced)
                && store.alerts == old(store.alerts)[id := record.value]
    {
      if id !in store.alerts {
        return None;
      }
      var refreshed := store.alerts[id].(silenced := o.silenced);
      var ok := store.Save(id, refreshed, o.saves.refresh);
      return if ok then Some(refreshed) else None;
    }

    method MaybeEscalate(id: Id, record: Alert, firedAt: int, o: Observation)
      requires id in store.alerts && record == store.alerts[id]
      modifies store
      ensures EscalationDue(record, firedAt, o) && o.saves.escalate ==>
                && store.alerts == old(store.alerts)[id := record.(escalatedAt := Some(o.now))]
                && store.notices == old(store.notices) + [Escalated(id, o.now)]
      ensures !EscalationDue(record, firedAt, o) || !o.saves.escalate ==> unchanged(store)
    {
      if o.rule.escalationAfter <= 0.0 || record.escalatedAt.Some? {
        return;
      }
      if o.now - firedAt < EscalationDelay(o.rule) {
        return;
      }
      var ok := store.Save(id, record.(escalatedAt := Some(o.now)), o.saves.escalate);
      if ok {
        store.Dispatch(Escalated(id, o.now));
      }
    }

    method UpdateState(o: Observation)
      requires Enabled(State(), Observed(o))
      modifies this`trackers, store
      ensures State() == Step(old(State()), Observed(o))
    {
      var key := KeyOf(o);
      if key !in trackers {
        trackers := trackers[key := IDLE];
      }
      var t := trackers[key];

      if !o.breaching {
        if t.level.Warning? || t.level.Critical? {
          if t.activeAlertId != "" {
            ResolveAlert(t.activeAlertId, o.now, o.saves.resolve);
          }
          trackers := trackers[key := IDLE];
        }
        return;
      }

      if t.level.OK? || t.level.Resolved? {
        trackers := trackers[key := t.(firstBreachAt := o.now, level := Warning, fired := false, silenced := false)];
        return;
      }

      if !t.fired {
        if o.now - t.firstBreachAt < o.duration {
          return;
        }
        t := t.(level := LevelFor(o.severity));
        var id := FireAlert(o);
        if id != "" {
          t := t.(activeAlertId := id, fired := true, firedAt := o.now, silenced := o.silenced);
          if !o.silenced {
            t := t.(lastNotifiedAt := Some(o.now));
          }
        }
        trackers := trackers[key := t];
        return;
      }

      UpdateStillFiring(o, t);
      assert t == TrackerAt(old(State()), key);
    }

    method UpdateStillFiring(o: Observation, tracker: Tracker)
      requires KeyOf(o) in trackers && trackers[KeyOf(o)] == tracker
      requires o.breaching && tracker.fired && (tracker.level.Warning? || tracker.level.Critical?)
      modifies this`trackers, store
      ensures State() == Apply(old(State()), KeyOf(o), Evaluate(tracker, ActiveRecord(old(State()), tracker), o))
    {
      hide EscalationDue, KeyOf;
      var key, t := KeyOf(o), tracker;
      if t.activeAlertId == "" {
        return;
      }
      var refreshed := RefreshFiringAlert(t.activeAlertId, o);
      if refreshed.None? {
        return;
      }
      var record := refreshed.value;
      if o.silenced {
        trackers := trackers[key := t.(silenced := true)];
        return;
      }
      var wasSilenced := t.silenced;
      t := t.(silenced := false);
      trackers := trackers[key := t];
      if record.acknowledged {
        return;
      }
      ghost var due := RenotifyDue(tracker, o.now);
      if wasSilenced || t.lastNotifiedAt.None? || o.now - t.lastNotifiedAt.value >= COOLDOWN_PERIOD {
        store.Dispatch(Notified(t.activeAlertId, o.now, record.status));
        t := t.(lastNotifiedAt := Some(o.now));
        trackers := trackers[key := t];
      }
      assert t == tracker.(silenced := false, lastNotifiedAt := if due then Some(o.now) else tracker.lastNotifiedAt);
      assert store.notices
          == old(store.notices) + if due then [Notified(t.activeAlertId, o.now, record.status)] else [];
      hide RenotifyDue;
      MaybeEscalate(t.activeAlertId, record, t.firedAt, o);
    }
  }
}
