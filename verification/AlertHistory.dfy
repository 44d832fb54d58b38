/** Properties of whole observation histories within one process lifetime. */
module AlertHistory {
  import opened Sequences
  import opened Wrappers
  import opened AlertModel
  import opened AlertProofs

  // ---- spacing of notifications -----------------------------------------------------------------

  ghost predicate SendsFiringNotice(w: World, ev: Event, id: Id)
    requires Enabled(w, ev)
  {
    ev.Observed? && exists n <- EffectOf(w, ev.o).notices :: IsFiringNotice(n, id)
  }

  /** An evaluation of this key that finds a breach while silenced. */
  predicate Silencing(ev: Event, key: Key) {
    ev.Observed? && KeyOf(ev.o) == key && ev.o.breaching && ev.o.silenced
  }

  /** Since the notice at time `at`, the alert is either no longer tracked or remembers that notice. */
  ghost predicate Remembers(w: World, key: Key, id: Id, at: int) {
    && id in w.alerts && AlertKey(w.alerts[id]) == key
    && (TrackerAt(w, key).activeAlertId == id ==>
          TrackerAt(w, key).lastNotifiedAt == Some(at) && !TrackerAt(w, key).silenced)
  }

  lemma NoticeIsRemembered(w: World, ev: Event, id: Id)
    requires Sound(w) && Enabled(w, ev) && SendsFiringNotice(w, ev, id)
    ensures Remembers(Step(w, ev), KeyOf(ev.o), id, ev.o.now)
  {
    assert TrackerSound(w, KeyOf(ev.o), TrackerAt(w, KeyOf(ev.o)));
  }

  lemma StepRemembers(w: World, ev: Event, key: Key, id: Id, at: int)
    requires Sound(w) && Enabled(w, ev) && Remembers(w, key, id, at)
    requires !ev.Restarted? && !Silencing(ev, key) && !SendsFiringNotice(w, ev, id)
    ensures Remembers(Step(w, ev), key, id, at)
  {
    if ev.Observed? {
      var e := EffectOf(w, ev.o);
      assert TrackerSound(w, KeyOf(ev.o), TrackerAt(w, KeyOf(ev.o)));
      StepEvolves(w, ev, id);
      if KeyOf(ev.o) == key && e.tracker.activeAlertId == id && e.notices != [] {
        assert !IsFiringNotice(e.notices[0], id);
      }
    }
  }

  ghost predicate NoFiringNotice(w: World, evs: seq<Event>, id: Id)
    requires ValidRun(w, evs)
  {
    evs == [] ||
      (NoFiringNotice(w, Front(evs), id) && !SendsFiringNotice(Run(w, Front(evs)), Last(evs), id))
  }

  lemma {:induction false} RunRemembers(w: World, evs: seq<Event>, key: Key, id: Id, at: int)
    requires Sound(w) && Remembers(w, key, id, at) && ValidRun(w, evs) && NoFiringNotice(w, evs, id)
    requires forall ev <- evs :: !ev.Restarted? && !Silencing(ev, key)
    ensures Remembers(Run(w, evs), key, id, at)
  {
    if evs != [] {
      RunRemembers(w, Front(evs), key, id, at);
      RunIsSound(w, Front(evs));
      assert Last(evs) in evs;
      StepRemembers(Run(w, Front(evs)), Last(evs), key, id, at);
    }
  }

  lemma RepeatIsDue(w: World, ev: Event, key: Key, id: Id, at: int)
    requires Sound(w) && Enabled(w, ev) && Remembers(w, key, id, at) && SendsFiringNotice(w, ev, id)
    ensures ev.o.now - at >= COOLDOWN_PERIOD
  {
    assert TrackerSound(w, KeyOf(ev.o), TrackerAt(w, KeyOf(ev.o)));
  }

  /** Two consecutive firing notifications of one alert within one process lifetime are a cooldown
      apart, unless an evaluation between them found the alert silenced. */
  lemma FiringNoticesAreSpaced(w: World, first: Event, between: seq<Event>, second: Event, id: Id)
    requires Sound(w) && Enabled(w, first) && SendsFiringNotice(w, first, id)
    requires ValidRun(Step(w, first), between) && NoFiringNotice(Step(w, first), between, id)
    requires forall ev <- between :: !ev.Restarted?
    requires var v := Run(Step(w, first), between); Enabled(v, second) && SendsFiringNotice(v, second, id)
    ensures || second.o.now - first.o.now >= COOLDOWN_PERIOD
            || exists ev <- between :: Silencing(ev, KeyOf(first.o))
  {
    var key := KeyOf(first.o);
    if !exists ev <- between :: Silencing(ev, key) {
      var w1 := Step(w, first);
      var v := Run(w1, between);
      StepKeepsSound(w, first);
      NoticeIsRemembered(w, first, id);
      RunRemembers(w1, between, key, id, first.o.now);
      RunIsSound(w1, between);
      RepeatIsDue(v, second, key, id, first.o.now);
    }
  }

  // ---- across a restart -------------------------------------------------------------------------

  /** An evaluation that announces the alert unless the cooldown holds it back. */
  ghost predicate MayAnnounce(w: World, ev: Event, id: Id) {
    && ev.Observed? && ev.o.breaching && !ev.o.silenced && ev.o.saves.refresh
    && TrackerAt(w, KeyOf(ev.o)).fired && TrackerAt(w, KeyOf(ev.o)).activeAlertId == id
    && id in w.alerts && !w.alerts[id].acknowledged
  }

  lemma AnnouncesWhenDue(w: World, ev: Event, id: Id, at: int)
    requires Sound(w) && Enabled(w, ev) && MayAnnounce(w, ev, id) && Remembers(w, KeyOf(ev.o), id, at)
    ensures SendsFiringNotice(w, ev, id) <==> ev.o.now - at >= COOLDOWN_PERIOD
  {
    assert TrackerSound(w, KeyOf(ev.o), TrackerAt(w, KeyOf(ev.o)));
    if ev.o.now - at >= COOLDOWN_PERIOD {
      assert IsFiringNotice(EffectOf(w, ev.o).notices[0], id);
    }
  }

  /** A new process takes the moment the alert fired for the last time it was announced. */
  lemma {:induction false} SeedRemembers(w: World, rows: seq<Id>, warningRules: set<string>, key: Key, id: Id)
    requires Sound(w) && AllFiring(w, rows) && id in w.alerts && !w.alerts[id].silenced && AlertKey(w.alerts[id]) == key
    ensures var trackers := SeedRows(w.alerts, rows, warningRules);
            key in trackers && trackers[key].activeAlertId == id ==>
              trackers[key].lastNotifiedAt == Some(w.alerts[id].firedAt) && !trackers[key].silenced
  {
    if rows != [] {
      SeedRemembers(w, Front(rows), warningRules, key, id);
    }
  }

  /** After a restart the next firing notice of an alert is held back by the moment it fired and by nothing else. */
  lemma NoticeAfterRestart(w: World, rows: seq<Id>, warningRules: set<string>, between: seq<Event>, next: Event, id: Id)
    requires Sound(w) && Enabled(w, Restarted(rows, warningRules)) && id in w.alerts && !w.alerts[id].silenced
    requires var w' := Step(w, Restarted(rows, warningRules));
             ValidRun(w', between) && NoFiringNotice(w', between, id)
    requires forall ev <- between :: !ev.Restarted? && !Silencing(ev, AlertKey(w.alerts[id]))
    requires var v := Run(Step(w, Restarted(rows, warningRules)), between);
             Enabled(v, next) && MayAnnounce(v, next, id)
    ensures var v := Run(Step(w, Restarted(rows, warningRules)), between);
            SendsFiringNotice(v, next, id) <==> next.o.now - w.alerts[id].firedAt >= COOLDOWN_PERIOD
  {
    var restart, key := Restarted(rows, warningRules), AlertKey(w.alerts[id]);
    var w' := Step(w, restart);
    var v := Run(w', between);
    StepKeepsSound(w, restart);
    SeedRemembers(w, rows, warningRules, key, id);
    RunRemembers(w', between, key, id, w.alerts[id].firedAt);
    RunIsSound(w', between);
    assert TrackerSound(v, KeyOf(next.o), TrackerAt(v, KeyOf(next.o)));
    AnnouncesWhenDue(v, next, id, w.alerts[id].firedAt);
  }

  /** An evaluation that would announce the alert as far as everything but the cooldown goes, after the same events
      with and without a restart before them. */
  ghost predicate MayAnnounceAfter(w: World, between: seq<Event>, next: Event, id: Id) {
    && ValidRun(w, between) && NoFiringNotice(w, between, id)
    && Enabled(Run(w, between), next) && MayAnnounce(Run(w, between), next, id)
  }

  /** What a restart changes for an alert last announced at `last`: it lets a notice go out that the old process would
      have held back exactly when the alert fired at least a cooldown ago and was announced less than one ago. */
  lemma RestartChangesAnnouncement(w: World, rows: seq<Id>, warningRules: set<string>, between: seq<Event>, next: Event,
                                   id: Id, last: int)
    requires Sound(w) && Enabled(w, Restarted(rows, warningRules))
    requires id in w.alerts && !w.alerts[id].silenced && Remembers(w, AlertKey(w.alerts[id]), id, last)
    requires forall ev <- between :: !ev.Restarted? && !Silencing(ev, AlertKey(w.alerts[id]))
    requires MayAnnounceAfter(w, between, next, id)
    requires MayAnnounceAfter(Step(w, Restarted(rows, warningRules)), between, next, id)
    ensures && SendsFiringNotice(Run(Step(w, Restarted(rows, warningRules)), between), next, id)
            && !SendsFiringNotice(Run(w, between), next, id)
            <==> next.o.now - w.alerts[id].firedAt >= COOLDOWN_PERIOD && next.o.now - last < COOLDOWN_PERIOD
  {
    var key, v := AlertKey(w.alerts[id]), Run(w, between);
    NoticeAfterRestart(w, rows, warningRules, between, next, id);
    RunRemembers(w, between, key, id, last);
    RunIsSound(w, between);
    assert TrackerSound(v, KeyOf(next.o), TrackerAt(v, KeyOf(next.o)));
    AnnouncesWhenDue(v, next, id, last);
  }

  /** One record, firing since 1 and announced at these times. */
  function Announced(times: seq<int>): World {
    World(map["x" := Alert("r", "a", "", Firing, 1, None, false, false, None)],
          map[Key("r", "a") := Tracker(Critical, true, 0, 1, Some(if times == [] then 1 else Last(times)), "x", false)],
          seq(|times|, i requires 0 <= i < |times| => Notified("x", times[i], Firing)))
  }

  lemma FiredAtOne() returns (evs: seq<Event>)
    ensures ValidRun(EMPTY, evs) && Run(EMPTY, evs) == Announced([1])
  {
    var w: World;
    evs, w := AfterOne(EMPTY, [], Observed(Sample(true, 0, "x", true)));
    evs, w := AfterOne(EMPTY, evs, Observed(Sample(true, 1, "x", true)));
    assert w.notices == Announced([1]).notices && w.alerts == Announced([1]).alerts;
    assert w.trackers == Announced([1]).trackers;
  }

  lemma RepeatedBeforeRestart() returns (evs: seq<Event>)
    ensures ValidRun(EMPTY, evs) && Run(EMPTY, evs) == Announced([1, 300_001])
  {
    var w: World;
    evs := FiredAtOne();
    evs, w := AfterOne(EMPTY, evs, Observed(Sample(true, 300_001, "y", true)));
    assert w.notices == Announced([1, 300_001]).notices && w.alerts == Announced([1]).alerts;
    assert w.trackers == Announced([1, 300_001]).trackers;
  }

  /** The new process takes 1 for the last time the alert was announced. */
  lemma RestartedAfterRepeat() returns (evs: seq<Event>)
    ensures ValidRun(EMPTY, evs)
    ensures Run(EMPTY, evs)
         == Announced([1, 300_001]).(
              trackers := map[Key("r", "a") := Tracker(Critical, true, 1, 1, Some(1), "x", false)])
  {
    var w := Announced([1, 300_001]);
    evs := RepeatedBeforeRestart();
    assert IsFiring(w, "x") && ["x"][0] == "x";
    evs, w := AfterOne(EMPTY, evs, Restarted(["x"], {}));
    assert Front(["x"]) == [] && SeedRows(w.alerts, [], {}) == map[];
  }

  /** Fired at 1, announced again at 300001, and a restart later once more at 300002. */
  lemma RestartRepeatsTooSoon()
    ensures exists evs: seq<Event> ::
              ValidRun(EMPTY, evs) && Run(EMPTY, evs).notices
              == [Notified("x", 1, Firing), Notified("x", 300_001, Firing), Notified("x", 300_002, Firing)]
  {
    var w: World;
    var evs := RestartedAfterRepeat();
    evs, w := AfterOne(EMPTY, evs, Observed(Sample(true, 300_002, "y", true)));
    assert w.notices == [Notified("x", 1, Firing), Notified("x", 300_001, Firing), Notified("x", 300_002, Firing)];
  }

  // ---- the state is a function of the history ---------------------------------------------------

  /** The observations of one key, oldest first. */
  function HistoryOf(evs: seq<Event>, key: Key): seq<Observation> {
    if evs == [] then []
    else
      var before := HistoryOf(Front(evs), key);
      if Last(evs).Observed? && KeyOf(Last(evs).o) == key then before + [Last(evs).o] else before
  }

  /** Where the current maximal run of breaching observations starts; |h| when the last one is not breaching. */
  ghost predicate IsRunStart(h: seq<Observation>, start: nat) {
    && start <= |h|
    && (forall i :: start <= i < |h| ==> h[i].breaching)
    && (start > 0 ==> !h[start - 1].breaching)
  }

  /** The observation that opened the incident: a later one of the run, at least its duration after the
      first, whose insert succeeded. */
  ghost predicate Opens(h: seq<Observation>, start: nat, i: nat) {
    start < i < |h| && h[i].now - h[start].now >= h[i].duration && h[i].saves.create
  }

  ghost predicate HasFired(h: seq<Observation>, start: nat) {
    exists i: nat :: Opens(h, start, i)
  }

  /** The silence flag of the last evaluation that stored it: the opening one, or a later successful refresh. */
  function SilencedSince(h: seq<Observation>, i: nat): bool
    requires i < |h|
  {
    if i == |h| - 1 then h[i].silenced
    else if Last(h).saves.refresh then Last(h).silenced
    else SilencedSince(Front(h), i)
  }

  /** The tracker holds the record of the first observation that opened the incident. */
  ghost predicate OpenedBy(h: seq<Observation>, start: nat, i: nat, t: Tracker) {
    && Opens(h, start, i) && (forall j: nat :: j < i ==> !Opens(h, start, j))
    && t.firedAt == h[i].now && t.activeAlertId == h[i].saves.newId
    && t.level == (if h[i].severity == "warning" then Warning else Critical)
    && t.silenced == SilencedSince(h, i)
  }

  ghost predicate Explains(h: seq<Observation>, start: nat, t: Tracker) {
    && IsRunStart(h, start)
    && (t.level == OK <==> start == |h|)
    && (start < |h| ==> t.firstBreachAt == h[start].now)
    && (t.fired <==> HasFired(h, start))
    && (t.fired ==> exists i: nat :: OpenedBy(h, start, i, t))
  }

  lemma OpensBefore(h: seq<Observation>, start: nat, o: Observation, i: nat)
    requires i < |h|
    ensures Opens(h + [o], start, i) <==> Opens(h, start, i)
  {
  }

  /** The first observation of a breach run fires nothing. */
  lemma BreachStarts(h: seq<Observation>, t: Tracker, o: Observation)
    requires o.breaching && Explains(h, |h|, t) && t.level == OK
    ensures Explains(h + [o], |h|, Evaluate(t, None, o).tracker)
  {
    assert IsRunStart(h + [o], |h|);
  }

  lemma BreachLasts(h: seq<Observation>, start: nat, t: Tracker, o: Observation)
    requires o.breaching && Explains(h, start, t) && (t.level == Warning || t.level == Critical) && !t.fired
    ensures Explains(h + [o], start, Evaluate(t, None, o).tracker)
  {
    var h', t' := h + [o], Evaluate(t, None, o).tracker;
    forall i: nat | i < |h| ensures !Opens(h', start, i) {
      OpensBefore(h, start, o, i);
    }
    assert t'.fired <==> Opens(h', start, |h|);
    if t'.fired {
      assert OpenedBy(h', start, |h|, t');
    }
  }

  lemma StaysOpen(h: seq<Observation>, start: nat, t: Tracker, record: Option<Alert>, o: Observation)
    requires o.breaching && Explains(h, start, t) && (t.level == Warning || t.level == Critical) && t.fired
    requires t.activeAlertId != "" && record.Some?
    ensures Explains(h + [o], start, Evaluate(t, record, o).tracker)
  {
    var h', t' := h + [o], Evaluate(t, record, o).tracker;
    var i: nat :| OpenedBy(h, start, i, t);
    forall j: nat | j <= i ensures Opens(h', start, j) == Opens(h, start, j) {
      OpensBefore(h, start, o, j);
    }
    assert Front(h') == h;
    assert t'.silenced == SilencedSince(h', i);
    assert OpenedBy(h', start, i, t');
  }

  lemma ExplainsStep(h: seq<Observation>, start: nat, w: World, o: Observation) returns (start': nat)
    requires Sound(w) && Enabled(w, Observed(o))
    requires Explains(h, start, TrackerAt(w, KeyOf(o)))
    ensures Explains(h + [o], start', EffectOf(w, o).tracker)
  {
    var t := TrackerAt(w, KeyOf(o));
    assert TrackerSound(w, KeyOf(o), t);
    assert t.level == OK <==> start == |h|;
    hide Explains, OpenedBy;
    start' := start;
    if !o.breaching {
      start' := |h + [o]|;
      BreachEnds(h + [o], start');
    } else if t.level == OK {
      BreachStarts(h, t, o);
    } else if !t.fired {
      BreachLasts(h, start, t, o);
    } else {
      StaysOpen(h, start, t, ActiveRecord(w, t), o);
    }
  }

  lemma BreachEnds(h: seq<Observation>, start: nat)
    requires h != [] && start == |h| && !Last(h).breaching
    ensures Explains(h, start, IDLE)
  {
  }

  /** Without a restart, a tracker follows the history of its key: it has fired exactly when the current breach run
      contains an observation that opened the incident, and then it holds that observation's record, time and level
      and the silence flag stored last. */
  lemma {:induction false} TrackerFollowsHistory(evs: seq<Event>, key: Key) returns (start: nat)
    requires ValidRun(EMPTY, evs)
    requires forall ev <- evs :: !ev.Restarted?
    ensures Explains(HistoryOf(evs, key), start, TrackerAt(Run(EMPTY, evs), key))
  {
    if evs == [] {
      start := 0;
    } else {
      start := TrackerFollowsHistory(Front(evs), key);
      RunIsSound(EMPTY, Front(evs));
      var ev := Last(evs);
      assert ev in evs;
      if ev.Observed? && KeyOf(ev.o) == key {
        start := ExplainsStep(HistoryOf(Front(evs), key), start, Run(EMPTY, Front(evs)), ev.o);
      }
    }
  }
}
