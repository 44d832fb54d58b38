/** When a firing alert is announced again: after a silence at once, otherwise a cooldown after the last time. */
module AlertSilence {
  import opened Sequences
  import opened Wrappers
  import opened AlertModel
  import opened AlertProofs
  import opened AlertHistory
  import opened AlertMemory

  // ---- a silence that ends ----------------------------------------------------------------------

  /** The key's tracker holds this fired alert and has last seen it silenced. */
  ghost predicate Hushed(w: World, key: Key, id: Id) {
    TrackerAt(w, key).fired && TrackerAt(w, key).activeAlertId == id && TrackerAt(w, key).silenced
  }

  /** No restart, and no evaluation of the key. */
  ghost predicate Leaves(evs: seq<Event>, key: Key) {
    forall ev <- evs :: !ev.Restarted? && (ev.Observed? ==> KeyOf(ev.o) != key)
  }

  lemma {:induction false} HushedLasts(w: World, evs: seq<Event>, key: Key, id: Id)
    requires ValidRun(w, evs) && Hushed(w, key, id) && Leaves(evs, key)
    ensures Hushed(Run(w, evs), key, id)
  {
    if evs != [] {
      HushedLasts(w, Front(evs), key, id);
      assert Last(evs) in evs;
    }
  }

  /** A breaching evaluation of the key, not silenced, that finds its record unacknowledged and saves it. */
  ghost predicate Resumes(w: World, ev: Event, key: Key, id: Id) {
    && ev.Observed? && KeyOf(ev.o) == key && ev.o.breaching && !ev.o.silenced && ev.o.saves.refresh
    && id in w.alerts && !w.alerts[id].acknowledged
  }

  lemma HushedAnnounces(w: World, ev: Event, key: Key, id: Id)
    requires Sound(w) && Enabled(w, ev) && Hushed(w, key, id) && Resumes(w, ev, key, id)
    ensures |w.notices| <= |Step(w, ev).notices| && Notified(id, ev.o.now, Firing) in Added(w, Step(w, ev))
  {
    assert TrackerSound(w, key, TrackerAt(w, key));
    NotifiesExactlyWhen(w, ev, id, ev.o.now);
  }

  /** A breach found silenced, the record saved: that of the open incident, or the one this evaluation opens. */
  ghost predicate Hushes(w: World, ev: Event, id: Id) {
    ev.Observed? && ev.o.silenced && StoresSilence(w, ev.o, id)
  }

  lemma HushesIsHushed(w: World, ev: Event, id: Id)
    requires Sound(w) && Enabled(w, ev) && Hushes(w, ev, id)
    ensures Hushed(Step(w, ev), KeyOf(ev.o), id)
  {
    assert TrackerSound(w, KeyOf(ev.o), TrackerAt(w, KeyOf(ev.o)));
  }

  /** After an evaluation that found the alert silenced, be it the one that opened it, the next one that does not
      announces it, however recently it was announced before. */
  lemma SilenceEndsWithNotice(w: World, quiet: Event, between: seq<Event>, next: Event, id: Id)
    requires Sound(w) && Enabled(w, quiet) && Hushes(w, quiet, id)
    requires ValidRun(Step(w, quiet), between) && Leaves(between, KeyOf(quiet.o))
    requires var v := Run(Step(w, quiet), between); Enabled(v, next) && Resumes(v, next, KeyOf(quiet.o), id)
    ensures var v := Run(Step(w, quiet), between);
            |v.notices| <= |Step(v, next).notices| && Notified(id, next.o.now, Firing) in Added(v, Step(v, next))
  {
    var w', key := Step(w, quiet), KeyOf(quiet.o);
    StepKeepsSound(w, quiet);
    HushesIsHushed(w, quiet, id);
    HushedLasts(w', between, key, id);
    RunIsSound(w', between);
    HushedAnnounces(Run(w', between), next, key, id);
  }

  /** The same after a restart that finds the record silenced. */
  lemma SilenceOutlivesRestart(w: World, rows: seq<Id>, warningRules: set<string>, between: seq<Event>, next: Event,
                               id: Id)
    requires Sound(w) && Enabled(w, Restarted(rows, warningRules)) && MarkedSilenced(w, id)
    requires TrackerAt(Step(w, Restarted(rows, warningRules)), AlertKey(w.alerts[id])).activeAlertId == id
    requires var w' := Step(w, Restarted(rows, warningRules));
             ValidRun(w', between) && Leaves(between, AlertKey(w.alerts[id]))
    requires var v := Run(Step(w, Restarted(rows, warningRules)), between);
             Enabled(v, next) && Resumes(v, next, AlertKey(w.alerts[id]), id)
    ensures var v := Run(Step(w, Restarted(rows, warningRules)), between);
            |v.notices| <= |Step(v, next).notices| && Notified(id, next.o.now, Firing) in Added(v, Step(v, next))
  {
    var restart, key := Restarted(rows, warningRules), AlertKey(w.alerts[id]);
    var w' := Step(w, restart);
    assert id != "";
    StepKeepsSound(w, restart);
    assert key in SeedRows(w.alerts, rows, warningRules);
    SeedRowsSound(w, rows, warningRules, key);
    SeedKeepsSilence(w, rows, warningRules, key);
    HushedLasts(w', between, key, id);
    RunIsSound(w', between);
    HushedAnnounces(Run(w', between), next, key, id);
  }

  // ---- every announcement -----------------------------------------------------------------------

  /** When the process last announced the alert, as far as it knows: a new one takes the moment a record fired,
      unless that was silenced. */
  ghost function LastTold(evs: seq<Event>, id: Id): Option<int>
    requires ValidRun(EMPTY, evs)
  {
    if evs == [] then None
    else
      var w := Run(EMPTY, Front(evs));
      if Last(evs).Restarted? then
        if id in w.alerts && !w.alerts[id].silenced then Some(w.alerts[id].firedAt) else None
      else if SendsFiringNotice(w, Last(evs), id) then Some(Last(evs).o.now)
      else LastTold(Front(evs), id)
  }

  lemma {:induction false} UnknownIsUntold(evs: seq<Event>, id: Id)
    requires ValidRun(EMPTY, evs) && id !in Run(EMPTY, evs).alerts
    ensures LastTold(evs, id) == None
  {
    if evs != [] {
      var w, ev := Run(EMPTY, Front(evs)), Last(evs);
      RunIsSound(EMPTY, Front(evs));
      if id in w.alerts {
        StepEvolves(w, ev, id);
      }
      UnknownIsUntold(Front(evs), id);
      if SendsFiringNotice(w, ev, id) {
        NoticeIsRemembered(w, ev, id);
      }
    }
  }

  lemma EvaluationTells(t: Tracker, record: Option<Alert>, o: Observation)
    requires if t.fired then record.Some? && record.value.status == Firing && t.activeAlertId != ""
             else t.activeAlertId == "" && t.lastNotifiedAt == None
    requires t.level != Resolved && (t.level == OK ==> !t.fired)
    requires o.saves.create ==> o.saves.newId != ""
    ensures var e := Evaluate(t, record, o);
            e.tracker.fired ==>
              && e.tracker.activeAlertId == (if t.fired then t.activeAlertId else o.saves.newId)
              && (!t.fired ==> o.saves.create)
              && e.tracker.lastNotifiedAt ==
                 if exists n <- e.notices :: IsFiringNotice(n, e.tracker.activeAlertId) then Some(o.now)
                 else t.lastNotifiedAt
  {
    var e := Evaluate(t, record, o);
    if e.tracker.fired && e.notices != [] {
      assert e.notices[0].Notified? ==> e.notices[0] in e.notices;
    }
  }

  /** Another key's evaluation announces other records. */
  lemma OthersAreSilent(w: World, o: Observation, key: Key)
    requires Sound(w) && Enabled(w, Observed(o)) && key != KeyOf(o) && TrackerAt(w, key).fired
    ensures !SendsFiringNotice(w, Observed(o), TrackerAt(w, key).activeAlertId)
  {
    assert TrackerSound(w, KeyOf(o), TrackerAt(w, KeyOf(o)));
    assert TrackerSound(w, key, TrackerAt(w, key));
    if SendsFiringNotice(w, Observed(o), TrackerAt(w, key).activeAlertId) {
      NoticeIsRemembered(w, Observed(o), TrackerAt(w, key).activeAlertId);
      StepEvolves(w, Observed(o), TrackerAt(w, key).activeAlertId);
    }
  }

  lemma {:induction false} SeedTells(w: World, rows: seq<Id>, warningRules: set<string>, key: Key)
    requires AllFiring(w, rows)
    ensures var seeded := SeedRows(w.alerts, rows, warningRules);
            key in seeded ==>
              && seeded[key].activeAlertId in w.alerts
              && var a := w.alerts[seeded[key].activeAlertId];
                 seeded[key].lastNotifiedAt == if a.silenced then None else Some(a.firedAt)
  {
    if rows != [] {
      SeedTells(w, Front(rows), warningRules, key);
      assert IsFiring(w, rows[|rows| - 1]);
    }
  }

  ghost predicate KnowsLastTold(evs: seq<Event>, key: Key)
    requires ValidRun(EMPTY, evs)
  {
    var t := TrackerAt(Run(EMPTY, evs), key);
    t.fired ==> t.lastNotifiedAt == LastTold(evs, t.activeAlertId)
  }

  lemma ObservedKnows(evs: seq<Event>, key: Key)
    requires ValidRun(EMPTY, evs) && evs != [] && Last(evs).Observed? && KnowsLastTold(Front(evs), key)
    ensures KnowsLastTold(evs, key)
  {
    var w, o := Run(EMPTY, Front(evs)), Last(evs).o;
    hide Evaluate;
    RunIsSound(EMPTY, Front(evs));
    var t := TrackerAt(w, KeyOf(o));
    assert TrackerSound(w, KeyOf(o), t);
    if key != KeyOf(o) {
      if TrackerAt(w, key).fired {
        OthersAreSilent(w, o, key);
      }
    } else {
      EvaluationTells(t, ActiveRecord(w, t), o);
      if !t.fired && o.saves.create {
        UnknownIsUntold(Front(evs), o.saves.newId);
      }
    }
  }

  lemma {:induction false} TrackerKnowsLastTold(evs: seq<Event>, key: Key)
    requires ValidRun(EMPTY, evs)
    ensures KnowsLastTold(evs, key)
  {
    if evs != [] {
      TrackerKnowsLastTold(Front(evs), key);
      match Last(evs) {
        case Observed(o) => ObservedKnows(evs, key);
        case Restarted(rows, warningRules) => SeedTells(Run(EMPTY, Front(evs)), rows, warningRules, key);
        case _ =>
      }
    }
  }

  /** Over all runs, restarts included, an unsilenced evaluation that finds its alert still firing and unacknowledged
      announces it if and only if the last evaluation found it silenced, or the process has not announced it yet, or
      did so at least five minutes ago. */
  lemma AnnouncesAgainExactlyWhen(evs: seq<Event>, ev: Event, id: Id)
    requires ValidRun(EMPTY, evs) && Enabled(Run(EMPTY, evs), ev) && MayAnnounce(Run(EMPTY, evs), ev, id)
    ensures SendsFiringNotice(Run(EMPTY, evs), ev, id) <==>
            || SilencedLast(evs, id) || LastTold(evs, id).None?
            || ev.o.now - LastTold(evs, id).value >= 300_000
  {
    var w, key := Run(EMPTY, evs), KeyOf(ev.o);
    RunIsSound(EMPTY, evs);
    TrackerKnowsLastTold(evs, key);
    RecordAndTrackerAgree(evs, key);
    SilenceFollowsEvents(evs, id);
    AnnouncesAgain(w, ev, id);
  }

  lemma AnnouncesAgain(w: World, ev: Event, id: Id)
    requires Sound(w) && Enabled(w, ev) && MayAnnounce(w, ev, id)
    ensures var t := TrackerAt(w, KeyOf(ev.o));
            SendsFiringNotice(w, ev, id) <==>
              t.silenced || t.lastNotifiedAt.None? || ev.o.now - t.lastNotifiedAt.value >= 300_000
  {
    var t := TrackerAt(w, KeyOf(ev.o));
    assert TrackerSound(w, KeyOf(ev.o), t);
    if t.silenced || t.lastNotifiedAt.None? || ev.o.now - t.lastNotifiedAt.value >= 300_000 {
      assert IsFiringNotice(EffectOf(w, ev.o).notices[0], id);
    }
  }
}
