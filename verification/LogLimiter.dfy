/**
 The agent's log rate limit, a fixed one-second window (allow in internal/agent/logs/manager.go). Times are
 nanoseconds of a monotonic clock.
 */
module LogLimiter {
  import opened Sequences
  import opened Wrappers

  const SECOND: int := 1_000_000_000

  /** windowStart is absent while it holds the zero time, which is more than a second before any clock reading. */
  datatype Limiter = Limiter(windowStart: Option<int>, windowCount: int)

  const FRESH := Limiter(None, 0)

  predicate Rolls(l: Limiter, now: int) {
    l.windowStart.None? || now - l.windowStart.value >= SECOND
  }

  function Rolled(l: Limiter, now: int): Limiter {
    if Rolls(l, now) then Limiter(Some(now), 0) else l
  }

  predicate Admits(l: Limiter, max: int, now: int) {
    max <= 0 || Rolled(l, now).windowCount < max
  }

  function AfterAllow(l: Limiter, max: int, now: int): Limiter {
    if max <= 0 then l
    else
      var r := Rolled(l, now);
      if r.windowCount < max then r.(windowCount := r.windowCount + 1) else r
  }

  // ---- what the windows add up to ---------------------------------------------------------------

  datatype Admission = Admission(at: int, window: nat)

  /** When each window opened, and each admission with the number of its window. */
  datatype History = History(starts: seq<int>, admitted: seq<Admission>)

  const BLANK := History([], [])

  ghost function Recorded(h: History, l: Limiter, max: int, now: int): History
    requires 0 < max
  {
    var starts := if Rolls(l, now) then h.starts + [now] else h.starts;
    if Admits(l, max, now) then History(starts, h.admitted + [Admission(now, if starts == [] then 0 else |starts| - 1)])
    else h.(starts := starts)
  }

  ghost predicate WindowsOk(h: History, l: Limiter, clock: int) {
    && (h.starts == [] <==> l.windowStart.None?)
    && (h.starts != [] ==> l.windowStart == Some(h.starts[|h.starts| - 1]))
    && (forall i :: 0 <= i < |h.starts| ==> h.starts[i] <= clock)
    && (forall i, j :: 0 <= i < j < |h.starts| ==> h.starts[i] + (j - i) * SECOND <= h.starts[j])
  }

  /** The call that opens a window is admitted. */
  ghost predicate OpenersOk(h: History, l: Limiter) {
    && (l.windowStart.Some? ==> l.windowCount > 0)
    && forall i :: 0 <= i < |h.admitted| && (i == 0 || h.admitted[i - 1].window < h.admitted[i].window) ==>
         h.admitted[i].window < |h.starts| && h.admitted[i].at == h.starts[h.admitted[i].window]
  }

  ghost predicate AdmissionOk(h: History, a: Admission, clock: int) {
    && a.window < |h.starts| && h.starts[a.window] <= a.at <= clock
    && (forall j :: a.window < j < |h.starts| ==> a.at <= h.starts[j])
  }

  /** The current window holds the last windowCount admissions, and no window more than max. */
  ghost predicate CountsOk(h: History, l: Limiter, max: int) {
    var n := |h.admitted|;
    && 0 <= l.windowCount <= max && l.windowCount <= n
    && (forall i :: n - l.windowCount <= i < n ==> h.admitted[i].window == |h.starts| - 1)
    && (forall i :: 0 <= i < n - l.windowCount ==> h.admitted[i].window < |h.starts| - 1)
    && (forall i, j :: 0 <= i < j < n ==> h.admitted[i].window <= h.admitted[j].window)
    && (forall i :: 0 <= i < n - max ==> h.admitted[i].window < h.admitted[i + max].window)
  }

  ghost predicate Sound(h: History, l: Limiter, max: int, clock: int) {
    && WindowsOk(h, l, clock) && CountsOk(h, l, max) && OpenersOk(h, l)
    && (forall i :: 0 <= i < |h.admitted| ==> AdmissionOk(h, h.admitted[i], clock))
  }

  lemma AllowKeepsWindows(h: History, l: Limiter, max: int, clock: int, now: int)
    requires 0 < max && clock <= now && WindowsOk(h, l, clock)
    ensures WindowsOk(Recorded(h, l, max, now), AfterAllow(l, max, now), now)
  {
  }

  lemma AllowKeepsAdmissions(h: History, l: Limiter, max: int, clock: int, now: int)
    requires 0 < max && clock <= now && WindowsOk(h, l, clock)
    requires forall i :: 0 <= i < |h.admitted| ==> AdmissionOk(h, h.admitted[i], clock)
    ensures var h' := Recorded(h, l, max, now);
            forall i :: 0 <= i < |h'.admitted| ==> AdmissionOk(h', h'.admitted[i], now)
  {
    var h' := Recorded(h, l, max, now);
    forall i | 0 <= i < |h'.admitted| ensures AdmissionOk(h', h'.admitted[i], now) {
      assert i < |h.admitted| ==> AdmissionOk(h, h.admitted[i], clock);
    }
  }

  lemma AllowKeepsCounts(h: History, l: Limiter, max: int, now: int)
    requires 0 < max && (l.windowStart.Some? ==> h.starts != []) && CountsOk(h, l, max)
    requires forall i :: 0 <= i < |h.admitted| ==> h.admitted[i].window < |h.starts|
    ensures CountsOk(Recorded(h, l, max, now), AfterAllow(l, max, now), max)
  {
  }

  lemma AllowKeepsOpeners(h: History, l: Limiter, max: int, clock: int, now: int)
    requires 0 < max && WindowsOk(h, l, clock) && CountsOk(h, l, max) && OpenersOk(h, l)
    ensures OpenersOk(Recorded(h, l, max, now), AfterAllow(l, max, now))
  {
    var h', n := Recorded(h, l, max, now), |h.admitted|;
    assert n > 0 ==> h.admitted[n - 1].window <= |h.starts| - 1;
    if |h'.admitted| > n && !Rolls(l, now) {
      assert h.admitted[n - 1].window == |h.starts| - 1 == h'.admitted[n].window;
    }
  }

  lemma AllowKeepsSound(h: History, l: Limiter, max: int, clock: int, now: int)
    requires 0 < max && clock <= now && Sound(h, l, max, clock)
    ensures Sound(Recorded(h, l, max, now), AfterAllow(l, max, now), max, now)
  {
    AllowKeepsWindows(h, l, max, clock, now);
    AllowKeepsAdmissions(h, l, max, clock, now);
    forall i | 0 <= i < |h.admitted| ensures h.admitted[i].window < |h.starts| {
      assert AdmissionOk(h, h.admitted[i], clock);
    }
    AllowKeepsCounts(h, l, max, now);
    AllowKeepsOpeners(h, l, max, clock, now);
  }

  lemma {:induction false} WindowsApart(h: History, l: Limiter, max: int, i: nat, j: nat, k: nat)
    requires 0 < max && CountsOk(h, l, max) && j == i + k * max && j < |h.admitted|
    ensures h.admitted[j].window >= h.admitted[i].window + k
    decreases k
  {
    if k > 0 {
      assert k * max == (k - 1) * max + max && (k - 1) * max >= 0;
      WindowsApart(h, l, max, i, j - max, k - 1);
    }
  }

  predicate IsOpener(h: History, i: nat) {
    i < |h.admitted| && (i == 0 || h.admitted[i - 1].window < h.admitted[i].window)
  }

  lemma SpanOfWindows(h: History, l: Limiter, max: int, clock: int, i: nat, j: nat, k: nat)
    requires 0 < max && Sound(h, l, max, clock) && i <= j < |h.admitted|
    requires h.admitted[j].window >= h.admitted[i].window + k + if IsOpener(h, i) then 0 else 1
    ensures h.admitted[j].at - h.admitted[i].at >= k * SECOND
  {
    var a, b := h.admitted[i], h.admitted[j];
    assert AdmissionOk(h, a, clock) && AdmissionOk(h, b, clock);
    var from := if IsOpener(h, i) then a.window else a.window + 1;
    if IsOpener(h, i) {
      assert a.at == h.starts[a.window];
    } else {
      assert a.at <= h.starts[a.window + 1];
    }
    assert from < b.window ==> h.starts[from] + (b.window - from) * SECOND <= h.starts[b.window];
  }

  lemma WindowsGrow(h: History, l: Limiter, max: int, i: nat, j: nat)
    requires CountsOk(h, l, max) && i <= j < |h.admitted|
    ensures h.admitted[i].window <= h.admitted[j].window
    ensures i > 0 ==> h.admitted[i - 1].window <= h.admitted[i].window
  {
  }

  lemma SpacedAt(h: History, l: Limiter, max: int, clock: int, i: nat, j: nat, k: nat)
    requires 0 < max && Sound(h, l, max, clock) && CountsOk(h, l, max)
    requires j == i + k * max + max - 1 && i <= j < |h.admitted|
    ensures h.admitted[j].at - h.admitted[i].at >= k * SECOND
  {
    hide Sound, CountsOk;
    WindowsGrow(h, l, max, i, j);
    if IsOpener(h, i) {
      WindowsApart(h, l, max, i, j - (max - 1), k);
      WindowsGrow(h, l, max, j - (max - 1), j);
    } else {
      assert (k + 1) * max == k * max + max;
      WindowsApart(h, l, max, i - 1, j, k + 1);
    }
    SpanOfWindows(h, l, max, clock, i, j, k);
  }

  /** The (k + 1) * max admissions from the i-th on, if there are that many, span at least k seconds. */
  ghost predicate SpannedBy(admitted: seq<Admission>, max: int, i: nat, k: nat)
    requires 0 < max
  {
    forall j :: j == i + (k + 1) * max - 1 && i <= j < |admitted| ==> admitted[j].at - admitted[i].at >= k * SECOND
  }

  lemma AdmissionsAreSpaced(h: History, l: Limiter, max: int, clock: int, i: nat, k: nat)
    requires 0 < max && Sound(h, l, max, clock)
    ensures SpannedBy(h.admitted, max, i, k)
  {
    forall j | j == i + (k + 1) * max - 1 && i <= j < |h.admitted|
      ensures h.admitted[j].at - h.admitted[i].at >= k * SECOND
    {
      assert (k + 1) * max == k * max + max;
      SpacedAt(h, l, max, clock, i, j, k);
    }
  }

  // ---- which calls are admitted -----------------------------------------------------------------

  /** When the current window opened: a call opens one when none did within the second before it. */
  function WindowAt(nows: seq<int>): Option<int> {
    if nows == [] then None
    else
      var before := WindowAt(Front(nows));
      if before.None? || Last(nows) - before.value >= 1_000_000_000 then Some(Last(nows)) else before
  }

  /** Which call of its window the last call is, counting from one. */
  function Nth(nows: seq<int>): nat
    requires nows != []
  {
    if WindowAt(nows) != WindowAt(Front(nows)) || Front(nows) == [] then 1 else Nth(Front(nows)) + 1
  }

  /** The limiter after calls at these times, whatever the limit. */
  function AfterCalls(max: int, nows: seq<int>): Limiter {
    if nows == [] then FRESH else AfterAllow(AfterCalls(max, Front(nows)), max, Last(nows))
  }

  lemma WindowOpens(nows: seq<int>)
    requires nows != []
    ensures var before := WindowAt(Front(nows));
            WindowAt(nows) != before || Front(nows) == []
            <==> before.None? || Last(nows) - before.value >= 1_000_000_000
  {
  }

  lemma {:induction false} LimiterCounts(max: int, nows: seq<int>)
    requires 0 < max
    ensures var l := AfterCalls(max, nows);
            && l.windowStart == WindowAt(nows)
            && l.windowCount == if nows == [] then 0 else if Nth(nows) < max then Nth(nows) else max
  {
    if nows != [] {
      LimiterCounts(max, Front(nows));
      WindowOpens(nows);
    }
  }

  /** Of the calls in one window the first max are admitted and the others refused; without a limit all are, and the
      limiter does not move. */
  lemma AdmitsFirstOfWindow(max: int, nows: seq<int>)
    requires nows != []
    ensures Admits(AfterCalls(max, Front(nows)), max, Last(nows)) <==> max <= 0 || Nth(nows) <= max
    ensures max <= 0 ==> AfterCalls(max, nows) == AfterCalls(max, Front(nows))
  {
    if max > 0 {
      LimiterCounts(max, Front(nows));
      WindowOpens(nows);
    }
  }

  // ---- the bound is attained --------------------------------------------------------------------

  /** The limiter and its history after calls at these times. */
  ghost function After(max: int, nows: seq<int>): (Limiter, History)
    requires 0 < max
  {
    if nows == [] then (FRESH, BLANK)
    else
      var (l, h) := After(max, Front(nows));
      (AfterAllow(l, max, Last(nows)), Recorded(h, l, max, Last(nows)))
  }

  /** Every call was admitted. */
  ghost predicate AllAdmitted(max: int, nows: seq<int>)
    requires 0 < max
  {
    var admitted := After(max, nows).1.admitted;
    |admitted| == |nows| && forall i :: 0 <= i < |nows| ==> admitted[i].at == nows[i]
  }

  lemma OneCall(max: int, nows: seq<int>, now: int)
    requires 0 < max && AllAdmitted(max, nows) && Admits(After(max, nows).0, max, now)
    ensures AllAdmitted(max, nows + [now]) && After(max, nows + [now]).0 == AfterAllow(After(max, nows).0, max, now)
  {
    assert Front(nows + [now]) == nows;
  }

  function Repeat(t: int, n: nat): (ts: seq<int>)
    ensures |ts| == n && forall i :: 0 <= i < n ==> ts[i] == t
  {
    if n == 0 then [] else Repeat(t, n - 1) + [t]
  }

  /** Calls at one moment within the current window fill it up. */
  lemma {:induction false} Fill(max: int, nows: seq<int>, start: int, t: int, n: nat)
    requires 0 < max && AllAdmitted(max, nows) && After(max, nows).0.windowStart == Some(start)
    requires start <= t < start + SECOND && After(max, nows).0.windowCount + n <= max
    ensures AllAdmitted(max, nows + Repeat(t, n))
    ensures After(max, nows + Repeat(t, n)).0 == Limiter(Some(start), After(max, nows).0.windowCount + n)
  {
    if n == 0 {
      assert nows + [] == nows;
    } else {
      Fill(max, nows, start, t, n - 1);
      OneCall(max, nows + Repeat(t, n - 1), t);
      assert nows + Repeat(t, n - 1) + [t] == nows + Repeat(t, n);
    }
  }

  /** One call opens a window and the others fill it. */
  lemma FullWindow(max: int, nows: seq<int>, start: int, t: int) returns (more: seq<int>)
    requires 0 < max && AllAdmitted(max, nows) && Rolls(After(max, nows).0, start) && start <= t < start + SECOND
    ensures more == nows + [start] + Repeat(t, max - 1)
    ensures AllAdmitted(max, more) && After(max, more).0 == Limiter(Some(start), max)
  {
    OneCall(max, nows, start);
    Fill(max, nows + [start], start, t, max - 1);
    more := nows + [start] + Repeat(t, max - 1);
  }

  predicate Ordered(ts: seq<int>) {
    forall i, j :: 0 <= i < j < |ts| ==> ts[i] <= ts[j]
  }

  lemma WindowIsOrdered(before: seq<int>, start: int, t: int, n: nat)
    requires Ordered(before) && start <= t && forall i :: 0 <= i < |before| ==> before[i] <= start
    ensures Ordered(before + [start] + Repeat(t, n))
    ensures forall i :: 0 <= i < |before + [start] + Repeat(t, n)| ==> (before + [start] + Repeat(t, n))[i] <= t
    ensures forall i :: |before| < i < |before + [start] + Repeat(t, n)| ==> (before + [start] + Repeat(t, n))[i] == t
  {
  }

  /** Full windows that start a second apart, the first of them filled at its very end. */
  lemma {:induction false} Burst(max: int, k: nat) returns (nows: seq<int>)
    requires 0 < max
    ensures |nows| == k * max + max && AllAdmitted(max, nows) && After(max, nows).0 == Limiter(Some(k * SECOND), max)
    ensures Ordered(nows) && forall i :: 0 < i < |nows| ==> nows[i] >= SECOND - 1
    ensures forall i :: 0 <= i < |nows| ==> nows[i] <= if k == 0 then SECOND - 1 else k * SECOND
  {
    if k == 0 {
      nows := FullWindow(max, [], 0, SECOND - 1);
      WindowIsOrdered([], 0, SECOND - 1, max - 1);
    } else {
      var before := Burst(max, k - 1);
      nows := FullWindow(max, before, k * SECOND, k * SECOND);
      WindowIsOrdered(before, k * SECOND, k * SECOND, max - 1);
      assert k * max == (k - 1) * max + max;
    }
  }

  /** One admission fewer fits into less than k seconds, for every limit and every k: with the fixed window nearly
      (k + 1) * max lines come through in k seconds. */
  lemma BoundIsAttained(max: int, k: nat) returns (nows: seq<int>, i: nat, j: nat)
    requires 0 < max && 0 < k
    ensures Ordered(nows) && AllAdmitted(max, nows)
    ensures i <= j < |nows| && j - i + 1 == (k + 1) * max - 1 && nows[j] - nows[i] < k * SECOND
  {
    nows := Burst(max, k);
    assert (k + 1) * max == k * max + max && k * max >= max;
    i, j := 1, |nows| - 1;
  }
}
