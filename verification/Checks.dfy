/**
 The debounced up/down status of uptime checks (internal/hub/checks/checks.go and scheduler.go) and what a
 check_down alert says about the attempts behind it. Runs of one check are sequential.
 */
module Checks {
  import opened Sequences
  import opened Wrappers
  import AlertModel

  datatype Status = Up | Down

  type CheckId = string

  /** One RunOnce: the probe's outcome, the check's failures_before_down, and whether the result row was saved. */
  datatype Attempt = Attempt(success: bool, failuresBeforeDown: int, saved: bool)

  datatype Event =
    | Attempted(check: CheckId, a: Attempt)
    | Restarted

  /** latest and consecutiveFails live in the process; rows holds each check's latest check_results row. */
  datatype World = World(latest: map<CheckId, Status>, consecutiveFails: map<CheckId, nat>, rows: map<CheckId, Status>)

  const EMPTY := World(map[], map[], map[])

  function AtLeastOne(n: int): nat {
    if n < 1 then 1 else n
  }

  /** The next status and failure streak; a previous status of None is a check that has not run before. */
  function NextDebouncedState(prev: Option<Status>, fails: nat, success: bool, failuresBeforeDown: int): (Status, nat) {
    if success then (Up, 0)
    else if fails + 1 >= AtLeastOne(failuresBeforeDown) then (Down, fails + 1)
    else if prev.None? then (Up, fails + 1)
    else (prev.value, fails + 1)
  }

  function Lookup<V>(m: map<CheckId, V>, check: CheckId): Option<V> {
    if check in m then Some(m[check]) else None
  }

  function FailsOf(w: World, check: CheckId): nat {
    if check in w.consecutiveFails then w.consecutiveFails[check] else 0
  }

  function AttemptStep(w: World, check: CheckId, a: Attempt): World {
    var (status, fails) :=
      NextDebouncedState(Lookup(w.latest, check), FailsOf(w, check), a.success, a.failuresBeforeDown);
    World(if a.saved then w.latest[check := status] else w.latest,
          w.consecutiveFails[check := fails],
          if a.saved then w.rows[check := status] else w.rows)
  }

  function Step(w: World, ev: Event): World {
    match ev
    case Attempted(check, a) => AttemptStep(w, check, a)
    case Restarted => World(map[], map[], w.rows)
  }

  function Run(evs: seq<Event>): World {
    if evs == [] then EMPTY else Step(Run(Front(evs)), Last(evs))
  }

  class Scheduler {
    var latest: map<CheckId, Status>
    var consecutiveFails: map<CheckId, nat>
    var rows: map<CheckId, Status>

    ghost function State(): World
      reads this
    {
      World(latest, consecutiveFails, rows)
    }

    /** A new process on the stored rows. */
    constructor (rows: map<CheckId, Status>, ghost before: World)
      requires before.rows == rows
      ensures State() == Step(before, Restarted)
    {
      latest, consecutiveFails, this.rows := map[], map[], rows;
    }

    method Debounce(check: CheckId, success: bool, failuresBeforeDown: int) returns (status: Status)
      modifies this`consecutiveFails
      ensures (status, FailsOf(State(), check)) ==
              NextDebouncedState(Lookup(old(latest), check), FailsOf(old(State()), check), success, failuresBeforeDown)
      ensures consecutiveFails == old(consecutiveFails)[check := FailsOf(State(), check)]
    {
      var fails := if check in consecutiveFails then consecutiveFails[check] else 0;
      var next := NextDebouncedState(Lookup(latest, check), fails, success, failuresBeforeDown);
      consecutiveFails := consecutiveFails[check := next.1];
      return next.0;
    }

    /** The attempt counts towards the streak even when its row cannot be saved. */
    method RunOnce(check: CheckId, found: bool, a: Attempt) returns (row: Option<Status>)
      modifies this
      ensures State() == if found then AttemptStep(old(State()), check, a) else old(State())
      ensures row == if found && a.saved then Lookup(rows, check) else None
    {
      if !found {
        return None;
      }
      var status := Debounce(check, a.success, a.failuresBeforeDown);
      if !a.saved {
        return None;
      }
      rows := rows[check := status];
      latest := latest[check := status];
      return Some(status);
    }
  }

  // ---- the status is a function of the attempts -------------------------------------------------

  /** The attempts of one check in the current process, oldest first. */
  function AttemptsOf(evs: seq<Event>, check: CheckId): seq<Attempt> {
    if evs == [] then []
    else match Last(evs)
      case Restarted => []
      case Attempted(c, a) =>
        if c == check then AttemptsOf(Front(evs), check) + [a] else AttemptsOf(Front(evs), check)
  }

  /** The number of failures at the end of h. */
  function Streak(h: seq<Attempt>): nat {
    if h == [] || Last(h).success then 0 else Streak(Front(h)) + 1
  }

  /** The k-th attempt was a failure that completed its check's quota. */
  predicate Trips(h: seq<Attempt>, k: nat) {
    k < |h| && Streak(h[..k + 1]) >= AtLeastOne(h[k].failuresBeforeDown)
  }

  /** The latest attempt reads "down": it failed, and some attempt that completed its quota, this one or an
      earlier one whose row was saved, has no saved success after it. */
  ghost predicate ReadsDown(h: seq<Attempt>) {
    h != [] && !Last(h).success && exists k: nat :: KeepsDown(h, k)
  }

  ghost predicate KeepsDown(h: seq<Attempt>, k: nat) {
    && Trips(h, k) && (k == |h| - 1 || h[k].saved)
    && forall m :: k < m < |h| - 1 && h[m].saved ==> !h[m].success
  }

  ghost predicate IsLastSaved(h: seq<Attempt>, j: nat) {
    j < |h| && h[j].saved && forall m :: j < m < |h| ==> !h[m].saved
  }

  /** What the process remembers of a check, in terms of its attempts. */
  ghost predicate Remembers(w: World, check: CheckId, h: seq<Attempt>) {
    && FailsOf(w, check) == Streak(h)
    && (check in w.latest <==> exists j: nat :: IsLastSaved(h, j))
    && (forall j: nat :: IsLastSaved(h, j) ==> (Lookup(w.latest, check) == Some(Down) <==> ReadsDown(h[..j + 1])))
  }

  lemma TripsInPrefix(h: seq<Attempt>, n: nat, k: nat)
    requires k < n <= |h|
    ensures Trips(h[..n], k) == Trips(h, k)
  {
    assert h[..n][..k + 1] == h[..k + 1];
  }

  /** A failure short of its quota repeats the last saved status. */
  lemma RepeatsLastSaved(h: seq<Attempt>, a: Attempt, j: nat)
    requires !a.success && !Trips(h + [a], |h|) && IsLastSaved(h, j)
    ensures ReadsDown(h + [a]) <==> ReadsDown(h[..j + 1])
  {
    var h', p := h + [a], h[..j + 1];
    if ReadsDown(p) {
      var k: nat :| KeepsDown(p, k);
      TripsInPrefix(h', j + 1, k);
      assert h'[..j + 1] == p;
      assert KeepsDown(h', k);
    }
    if ReadsDown(h') {
      var k: nat :| KeepsDown(h', k);
      TripsInPrefix(h', j + 1, k);
      assert h'[..j + 1] == p;
      TripFailed(h', k);
      assert KeepsDown(p, k);
    }
  }

  lemma TripFailed(h: seq<Attempt>, k: nat)
    requires Trips(h, k)
    ensures !h[k].success
  {
  }

  lemma NothingToRepeat(h: seq<Attempt>, a: Attempt)
    requires !Trips(h + [a], |h|) && forall j: nat :: !IsLastSaved(h, j)
    ensures !ReadsDown(h + [a])
  {
    NoneSaved(h);
  }

  lemma {:induction false} NoneSaved(h: seq<Attempt>)
    requires forall j: nat :: !IsLastSaved(h, j)
    ensures forall m :: 0 <= m < |h| ==> !h[m].saved
  {
    if h != [] {
      assert !IsLastSaved(h, |h| - 1);
      forall j: nat ensures !IsLastSaved(Front(h), j) {
        assert !IsLastSaved(h, j);
      }
      NoneSaved(Front(h));
    }
  }

  /** The status an attempt gets is "down" exactly when the attempts read down. */
  lemma AttemptReads(w: World, check: CheckId, h: seq<Attempt>, a: Attempt)
    requires Remembers(w, check, h)
    ensures var next := NextDebouncedState(Lookup(w.latest, check), FailsOf(w, check), a.success, a.failuresBeforeDown);
            (next.0 == Down <==> ReadsDown(h + [a])) && next.1 == Streak(h + [a])
  {
    var h' := h + [a];
    assert Front(h') == h && h'[..|h| + 1] == h';
    if !a.success {
      if Trips(h', |h|) {
        assert KeepsDown(h', |h|);
      } else if j: nat :| IsLastSaved(h, j) {
        RepeatsLastSaved(h, a, j);
      } else {
        NothingToRepeat(h, a);
      }
    }
  }

  lemma LastSavedMoves(h: seq<Attempt>, a: Attempt, j: nat)
    ensures IsLastSaved(h + [a], j) <==> if a.saved then j == |h| else IsLastSaved(h, j)
  {
    var h' := h + [a];
    assert h'[|h|] == a;
    assert forall m :: 0 <= m < |h| ==> h'[m] == h[m];
  }

  lemma AttemptIsRemembered(w: World, check: CheckId, h: seq<Attempt>, a: Attempt)
    requires Remembers(w, check, h)
    ensures Remembers(AttemptStep(w, check, a), check, h + [a])
  {
    var w', h' := AttemptStep(w, check, a), h + [a];
    AttemptReads(w, check, h, a);
    forall j: nat ensures IsLastSaved(h', j) <==> if a.saved then j == |h| else IsLastSaved(h, j) {
      LastSavedMoves(h, a, j);
    }
    forall j: nat | IsLastSaved(h', j)
      ensures Lookup(w'.latest, check) == Some(Down) <==> ReadsDown(h'[..j + 1])
    {
      if a.saved {
        assert h'[..j + 1] == h';
      } else {
        assert h'[..j + 1] == h[..j + 1];
      }
    }
    assert a.saved ==> IsLastSaved(h', |h|);
  }

  lemma {:induction false} RunRemembers(evs: seq<Event>, check: CheckId)
    ensures Remembers(Run(evs), check, AttemptsOf(evs, check))
  {
    if evs != [] {
      RunRemembers(Front(evs), check);
      if Last(evs).Attempted? && Last(evs).check == check {
        AttemptIsRemembered(Run(Front(evs)), check, AttemptsOf(Front(evs), check), Last(evs).a);
      }
    }
  }

  /** Over any run, with any failed saves and changing quotas: the row an attempt saves says "down" exactly when
      the attempts of its process read down. */
  lemma SavedStatusFollowsAttempts(evs: seq<Event>, check: CheckId)
    requires evs != [] && Last(evs).Attempted? && Last(evs).check == check && Last(evs).a.saved
    ensures Lookup(Run(evs).rows, check) == Some(if ReadsDown(AttemptsOf(evs, check)) then Down else Up)
  {
    RunRemembers(Front(evs), check);
    AttemptReads(Run(Front(evs)), check, AttemptsOf(Front(evs), check), Last(evs).a);
  }

  // ---- the last N attempts ----------------------------------------------------------------------

  predicate LastFailed(h: seq<Attempt>, n: nat) {
    n <= |h| && forall i :: |h| - n <= i < |h| ==> !h[i].success
  }

  lemma {:induction false} StreakCounts(h: seq<Attempt>, n: nat)
    ensures Streak(h) >= n <==> LastFailed(h, n)
  {
    if n > 0 && h != [] && !Last(h).success {
      StreakCounts(Front(h), n - 1);
    }
  }

  /** The status the next attempt of a check gets. */
  function NextStatus(w: World, check: CheckId, a: Attempt): Status {
    NextDebouncedState(Lookup(w.latest, check), FailsOf(w, check), a.success, a.failuresBeforeDown).0
  }

  /** An attempt reads "down" if and only if it completes N failures in a row (at least one), except for a failure
      that finds "down" remembered although fewer than N - 1 failures are counted. */
  lemma DownIffLastFailed(evs: seq<Event>, check: CheckId, a: Attempt)
    ensures var w := Run(evs);
            var n: nat := if a.failuresBeforeDown < 1 then 1 else a.failuresBeforeDown;
            (NextStatus(w, check, a) == Down <==> LastFailed(AttemptsOf(evs, check) + [a], n)) <==>
            (a.success || Lookup(w.latest, check) != Some(Down) || FailsOf(w, check) + 1 >= n)
  {
    var h := AttemptsOf(evs, check);
    RunRemembers(evs, check);
    assert Front(h + [a]) == h;
    StreakCounts(h + [a], AtLeastOne(a.failuresBeforeDown));
  }

  /** Every attempt of the check runs under the same quota and every success row is saved. */
  predicate Steady(evs: seq<Event>, check: CheckId, n: int) {
    forall i :: 0 <= i < |evs| && evs[i].Attempted? && evs[i].check == check ==>
      evs[i].a.failuresBeforeDown == n && (evs[i].a.success ==> evs[i].a.saved)
  }

  /** Under a fixed quota only a success whose row is lost can make a "down" stale; rows of failures may be lost. */
  lemma {:induction false} SteadyIsNeverStale(evs: seq<Event>, check: CheckId, n: int)
    requires Steady(evs, check, n)
    ensures Lookup(Run(evs).latest, check) == Some(Down) ==> FailsOf(Run(evs), check) >= AtLeastOne(n)
  {
    if evs != [] {
      SteadyIsNeverStale(Front(evs), check, n);
      assert Last(evs) == evs[|evs| - 1];
    }
  }

  lemma AfterOne(evs: seq<Event>, check: CheckId, a: Attempt) returns (longer: seq<Event>)
    ensures longer == evs + [Attempted(check, a)]
    ensures Run(longer) == AttemptStep(Run(evs), check, a) && AttemptsOf(longer, check) == AttemptsOf(evs, check) + [a]
  {
    longer := evs + [Attempted(check, a)];
    assert Front(longer) == evs;
  }

  /** A lost success row: down, recovered, and the first failure after that reads "down" although N is two. */
  lemma LostSuccessSticks(check: CheckId)
    ensures exists evs: seq<Event>, a: Attempt ::
              && a.failuresBeforeDown == 2 && !a.success && AttemptsOf(evs, check) != []
              && Last(AttemptsOf(evs, check)).success && NextStatus(Run(evs), check, a) == Down
  {
    var fail, lost := Attempt(false, 2, true), Attempt(true, 2, false);
    var evs := AfterOne([], check, fail);
    evs := AfterOne(evs, check, fail);
    assert Run(evs).latest[check] == Down;
    evs := AfterOne(evs, check, lost);
    assert NextStatus(Run(evs), check, fail) == Down;
  }

  // ---- check_down alerts ------------------------------------------------------------------------

  /** The i-th event is an attempt that ended N failures in a row in its process, and none since has succeeded. */
  ghost predicate Evidence(evs: seq<Event>, check: CheckId, n: int, i: nat) {
    && i < |evs| && evs[i].Attempted? && evs[i].check == check
    && LastFailed(AttemptsOf(evs[..i + 1], check), AtLeastOne(n))
    && forall m :: i < m < |evs| && evs[m].Attempted? && evs[m].check == check ==> !evs[m].a.success
  }

  lemma SavedDownHasEvidence(evs: seq<Event>, check: CheckId, n: int)
    requires Steady(evs, check, n) && Lookup(Run(evs).rows, check) == Some(Down)
    requires evs != [] && Last(evs).Attempted? && Last(evs).check == check && Last(evs).a.saved
    ensures Evidence(evs, check, n, |evs| - 1)
  {
    DownIffLastFailed(Front(evs), check, Last(evs).a);
    SteadyIsNeverStale(Front(evs), check, n);
    assert evs[..|evs|] == evs && Last(evs) == evs[|evs| - 1];
  }

  lemma EvidenceStays(evs: seq<Event>, check: CheckId, n: int, i: nat)
    requires evs != [] && Steady(evs, check, n) && Evidence(Front(evs), check, n, i)
    requires !(Last(evs).Attempted? && Last(evs).check == check && Last(evs).a.saved)
    ensures Evidence(evs, check, n, i)
  {
    assert Front(evs)[..i + 1] == evs[..i + 1];
    assert evs[|evs| - 1] == Last(evs);
  }

  /** With a fixed quota and no lost success, a "down" row has N failures behind it and no success after them,
      across any restarts. */
  lemma {:induction false} DownRowHasEvidence(evs: seq<Event>, check: CheckId, n: int) returns (i: nat)
    requires Steady(evs, check, n) && Lookup(Run(evs).rows, check) == Some(Down)
    ensures Evidence(evs, check, n, i)
  {
    if Last(evs).Attempted? && Last(evs).check == check && Last(evs).a.saved {
      SavedDownHasEvidence(evs, check, n);
      i := |evs| - 1;
    } else {
      i := DownRowHasEvidence(Front(evs), check, n);
      EvidenceStays(evs, check, n, i);
    }
  }

  // ---- the stored row ---------------------------------------------------------------------------

  /** The last attempt of the check whose row was saved, in whatever process. */
  predicate IsLastRow(evs: seq<Event>, check: CheckId, i: nat) {
    && i < |evs| && evs[i].Attempted? && evs[i].check == check && evs[i].a.saved
    && forall m :: i < m < |evs| && evs[m].Attempted? && evs[m].check == check ==> !evs[m].a.saved
  }

  lemma LastRowMoves(evs: seq<Event>, check: CheckId, i: nat)
    requires evs != []
    ensures var ev := Last(evs);
            IsLastRow(evs, check, i) <==>
              if ev.Attempted? && ev.check == check && ev.a.saved then i == |evs| - 1
              else IsLastRow(Front(evs), check, i)
  {
    assert Last(evs) == evs[|evs| - 1];
    assert forall m :: 0 <= m < |evs| - 1 ==> Front(evs)[m] == evs[m];
  }

  /** What the stored row says: what the last attempt that saved one read, across restarts. */
  ghost predicate RowSays(evs: seq<Event>, check: CheckId, i: nat) {
    IsLastRow(evs, check, i) ==>
      Lookup(Run(evs).rows, check) == Some(if ReadsDown(AttemptsOf(evs[..i + 1], check)) then Down else Up)
  }

  lemma {:induction false} RowIsLastSaved(evs: seq<Event>, check: CheckId)
    ensures check in Run(evs).rows <==> exists i: nat :: IsLastRow(evs, check, i)
    ensures forall i: nat :: RowSays(evs, check, i)
  {
    if evs != [] {
      var ev := Last(evs);
      RowIsLastSaved(Front(evs), check);
      forall i: nat
        ensures IsLastRow(evs, check, i) <==>
                if ev.Attempted? && ev.check == check && ev.a.saved then i == |evs| - 1
                else IsLastRow(Front(evs), check, i)
      {
        LastRowMoves(evs, check, i);
      }
      if ev.Attempted? && ev.check == check && ev.a.saved {
        SavedStatusFollowsAttempts(evs, check);
        assert IsLastRow(evs, check, |evs| - 1) && evs[..|evs|] == evs;
      } else {
        forall i: nat ensures RowSays(evs, check, i) {
          assert RowSays(Front(evs), check, i);
          assert i < |evs| - 1 ==> Front(evs)[..i + 1] == evs[..i + 1];
        }
      }
    }
  }

  /** evalCheckDown: whether the latest row says "down"; None when there is no row. */
  function EvalCheckDown(w: World, check: CheckId): Option<bool> {
    if check in w.rows then Some(w.rows[check] == Down) else None
  }

  /** evalCheckDown finds a breach if and only if the last attempt that saved a row, in this process or an earlier
      one, read "down"; without a row it finds nothing. */
  lemma BreachIsLastSavedDown(evs: seq<Event>, check: CheckId)
    ensures EvalCheckDown(Run(evs), check) == Some(true) <==>
            exists i: nat :: IsLastRow(evs, check, i) && ReadsDown(AttemptsOf(evs[..i + 1], check))
    ensures EvalCheckDown(Run(evs), check) == None <==> !exists i: nat :: IsLastRow(evs, check, i)
  {
    RowIsLastSaved(evs, check);
    if i: nat :| IsLastRow(evs, check, i) {
      assert RowSays(evs, check, i);
      forall j: nat | IsLastRow(evs, check, j) ensures j == i {
      }
    }
  }

  predicate Creates(w: AlertModel.World, o: AlertModel.Observation) {
    exists id <- AlertModel.ObserveStep(w, o).alerts :: id !in w.alerts
  }

  /** A check_down alert is created only when the check failed at least N times in a row and has not succeeded since. */
  lemma CheckDownAlertHasEvidence(evs: seq<Event>, n: int, w: AlertModel.World, o: AlertModel.Observation)
    returns (i: nat)
    requires o.rule.metricType == "check_down" && Steady(evs, o.subject, n)
    requires EvalCheckDown(Run(evs), o.subject) == Some(o.breaching)
    requires Creates(w, o)
    ensures Evidence(evs, o.subject, n, i)
  {
    assert o.breaching;
    i := DownRowHasEvidence(evs, o.subject, n);
  }
}
