/**
 Interval union and the uptime figures built on it (internal/hub/uptime/uptime.go and the agent part of
 internal/hub/api/public_status.go). Times are integer ticks; figures are reals, before any rounding.
 The reference notion is pointwise: a tick is down when some interval contains it.
 */
module Uptime {
  import opened Wrappers

  datatype Interval = Interval(start: int, end: int)

  ghost predicate Covered(xs: seq<Interval>, t: int) {
    exists i :: 0 <= i < |xs| && xs[i].start <= t < xs[i].end
  }

  /** The number of covered ticks in [a, b). */
  ghost function Measure(xs: seq<Interval>, a: int, b: int): nat
    decreases b - a
  {
    if a >= b then 0 else Measure(xs, a, b - 1) + if Covered(xs, b - 1) then 1 else 0
  }

  /** Each interval ends strictly before every later one starts. */
  ghost predicate Separated(xs: seq<Interval>) {
    forall i, j :: 0 <= i < j < |xs| ==> xs[i].end < xs[j].start
  }

  ghost predicate SortedByStart(xs: seq<Interval>) {
    forall i, j :: 0 <= i < j < |xs| ==> xs[i].start <= xs[j].start
  }

  /** No interval ends before it starts. */
  ghost predicate Forward(xs: seq<Interval>) {
    forall i :: 0 <= i < |xs| ==> xs[i].start <= xs[i].end
  }

  // ---- Merge ------------------------------------------------------------------------------------

  /** The library sort: some arrangement ordered by start; the order of equal starts is not promised. */
  method SortByStart(xs: seq<Interval>) returns (sorted: seq<Interval>)
    ensures multiset(sorted) == multiset(xs) && SortedByStart(sorted)
  {
    sorted := [];
    for i := 0 to |xs|
      invariant multiset(sorted) == multiset(xs[..i]) && SortedByStart(sorted)
    {
      assert xs[..i + 1] == xs[..i] + [xs[i]];
      sorted := InsertByStart(sorted, xs[i]);
    }
    assert xs[..|xs|] == xs;
  }

  method InsertByStart(sorted: seq<Interval>, iv: Interval) returns (longer: seq<Interval>)
    requires SortedByStart(sorted)
    ensures multiset(longer) == multiset(sorted) + multiset{iv} && SortedByStart(longer)
  {
    var k: nat := |sorted|;
    while k > 0 && sorted[k - 1].start > iv.start
      invariant k <= |sorted|
      invariant forall j :: k <= j < |sorted| ==> iv.start < sorted[j].start
    {
      k := k - 1;
    }
    longer := sorted[..k] + [iv] + sorted[k..];
    InsertedIsSorted(sorted, k, iv);
    InsertedElements(sorted, k, iv);
  }

  lemma InsertedElements(sorted: seq<Interval>, k: nat, iv: Interval)
    requires k <= |sorted|
    ensures multiset(sorted[..k] + [iv] + sorted[k..]) == multiset(sorted) + multiset{iv}
  {
    assert sorted == sorted[..k] + sorted[k..];
  }

  lemma InsertedIsSorted(sorted: seq<Interval>, k: nat, iv: Interval)
    requires SortedByStart(sorted) && k <= |sorted|
    requires k > 0 ==> sorted[k - 1].start <= iv.start
    requires forall j :: k <= j < |sorted| ==> iv.start < sorted[j].start
    ensures SortedByStart(sorted[..k] + [iv] + sorted[k..])
  {
  }

  lemma SameElementsCoverSame(xs: seq<Interval>, ys: seq<Interval>, t: int)
    requires multiset(xs) == multiset(ys)
    ensures Covered(xs, t) <==> Covered(ys, t)
  {
    assert forall iv :: iv in xs <==> iv in multiset(xs);
    assert forall iv :: iv in ys <==> iv in multiset(ys);
    if Covered(xs, t) {
      var i :| 0 <= i < |xs| && xs[i].start <= t < xs[i].end;
      assert xs[i] in ys;
    }
    if Covered(ys, t) {
      var i :| 0 <= i < |ys| && ys[i].start <= t < ys[i].end;
      assert ys[i] in xs;
    }
  }

  lemma CoveredByMore(xs: seq<Interval>, iv: Interval, t: int)
    ensures Covered(xs + [iv], t) <==> Covered(xs, t) || iv.start <= t < iv.end
  {
    if Covered(xs, t) {
      var i :| 0 <= i < |xs| && xs[i].start <= t < xs[i].end;
      assert (xs + [iv])[i] == xs[i];
    }
    if iv.start <= t < iv.end {
      assert (xs + [iv])[|xs|] == iv;
    }
  }

  /** One step of the merging loop. */
  function Absorb(merged: seq<Interval>, cur: Interval): seq<Interval>
    requires merged != []
  {
    var n := |merged| - 1;
    if cur.start <= merged[n].end then
      if cur.end > merged[n].end then merged[n := merged[n].(end := cur.end)] else merged
    else merged + [cur]
  }

  lemma AbsorbCovers(merged: seq<Interval>, cur: Interval, t: int)
    requires merged != [] && merged[|merged| - 1].start <= cur.start
    ensures Covered(Absorb(merged, cur), t) <==> Covered(merged, t) || cur.start <= t < cur.end
  {
    var n := |merged| - 1;
    assert merged == merged[..n] + [merged[n]];
    CoveredByMore(merged[..n], merged[n], t);
    if cur.start > merged[n].end {
      CoveredByMore(merged, cur, t);
    } else if cur.end > merged[n].end {
      var grown := merged[n].(end := cur.end);
      assert Absorb(merged, cur) == merged[..n] + [grown];
      CoveredByMore(merged[..n], grown, t);
    }
  }

  ghost predicate StartBy(xs: seq<Interval>, t: int) {
    forall i :: 0 <= i < |xs| ==> xs[i].start <= t
  }

  lemma AbsorbKeeps(merged: seq<Interval>, last: int, cur: Interval)
    requires merged != [] && Separated(merged) && StartBy(merged, last) && last <= cur.start
    ensures Absorb(merged, cur) != [] && Separated(Absorb(merged, cur)) && StartBy(Absorb(merged, cur), cur.start)
    ensures Forward(merged) && cur.start <= cur.end ==> Forward(Absorb(merged, cur))
  {
  }

  lemma AbsorbsPrefix(merged: seq<Interval>, sorted: seq<Interval>, i: nat)
    requires merged != [] && i < |sorted| && StartBy(merged, sorted[i].start)
    requires forall t :: Covered(merged, t) <==> Covered(sorted[..i], t)
    ensures forall t :: Covered(Absorb(merged, sorted[i]), t) <==> Covered(sorted[..i + 1], t)
  {
    assert sorted[..i + 1] == sorted[..i] + [sorted[i]];
    forall t ensures Covered(Absorb(merged, sorted[i]), t) <==> Covered(sorted[..i + 1], t) {
      AbsorbCovers(merged, sorted[i], t);
      CoveredByMore(sorted[..i], sorted[i], t);
    }
  }

  lemma SameElementsForward(xs: seq<Interval>, ys: seq<Interval>)
    requires multiset(xs) == multiset(ys) && Forward(xs)
    ensures Forward(ys)
  {
    forall i | 0 <= i < |ys| ensures ys[i] in xs {
      assert ys[i] in multiset(ys);
    }
  }

  /** Merge covers exactly the ticks its input covers, with strictly separated intervals in order. */
  method Merge(intervals: seq<Interval>) returns (merged: seq<Interval>)
    ensures Separated(merged)
    ensures forall t :: Covered(merged, t) <==> Covered(intervals, t)
    ensures Forward(intervals) ==> Forward(merged)
    ensures merged == [] <==> intervals == []
  {
    if |intervals| == 0 {
      return [];
    }
    var sorted := SortByStart(intervals);
    assert |sorted| == |multiset(sorted)| == |multiset(intervals)| == |intervals|;
    merged := [sorted[0]];
    assert sorted[..1] == [sorted[0]];
    for i := 1 to |sorted|
      invariant merged != [] && Separated(merged) && StartBy(merged, sorted[i - 1].start)
      invariant forall t :: Covered(merged, t) <==> Covered(sorted[..i], t)
      invariant Forward(sorted) ==> Forward(merged)
    {
      var cur := sorted[i];
      var n := |merged| - 1;
      ghost var before := merged;
      if cur.start <= merged[n].end {
        if cur.end > merged[n].end {
          merged := merged[n := merged[n].(end := cur.end)];
        }
      } else {
        merged := merged + [cur];
      }
      assert merged == Absorb(before, cur);
      AbsorbKeeps(before, sorted[i - 1].start, cur);
      AbsorbsPrefix(before, sorted, i);
    }
    assert sorted[..|sorted|] == sorted;
    forall t ensures Covered(merged, t) <==> Covered(intervals, t) {
      SameElementsCoverSame(sorted, intervals, t);
    }
    if Forward(intervals) {
      SameElementsForward(intervals, sorted);
    }
  }

  /** Separated nonempty intervals are determined by what they cover, so the order in which the sort leaves
      equal starts cannot show in the result. */
  lemma {:induction false} SeparatedIsCanonical(xs: seq<Interval>, ys: seq<Interval>)
    requires Separated(xs) && Separated(ys)
    requires forall i :: 0 <= i < |xs| ==> xs[i].start < xs[i].end
    requires forall i :: 0 <= i < |ys| ==> ys[i].start < ys[i].end
    requires forall t :: Covered(xs, t) <==> Covered(ys, t)
    ensures xs == ys
  {
    if xs == [] || ys == [] {
      assert xs != [] ==> Covered(xs, xs[0].start);
      assert ys != [] ==> Covered(ys, ys[0].start);
    } else {
      hide Covered;
      SameFirst(xs, ys);
      SameFirst(ys, xs);
      forall t ensures Covered(xs[1..], t) <==> Covered(ys[1..], t) {
        CoveredLater(xs, t);
        CoveredLater(ys, t);
      }
      SeparatedIsCanonical(xs[1..], ys[1..]);
      assert xs == [xs[0]] + xs[1..] && ys == [ys[0]] + ys[1..];
    }
  }

  lemma SameFirst(xs: seq<Interval>, ys: seq<Interval>)
    requires xs != [] && ys != [] && Separated(xs) && Separated(ys)
    requires forall i :: 0 <= i < |xs| ==> xs[i].start < xs[i].end
    requires forall i :: 0 <= i < |ys| ==> ys[i].start < ys[i].end
    requires forall t :: Covered(xs, t) <==> Covered(ys, t)
    ensures ys[0].start <= xs[0].start
    ensures xs[0].start == ys[0].start ==> xs[0].end <= ys[0].end
  {
    assert Covered(xs, xs[0].start);
    assert Covered(ys, xs[0].start);
    assert !Covered(ys, ys[0].end);
    assert !Covered(xs, ys[0].end);
    assert !(xs[0].start <= ys[0].end < xs[0].end);
  }

  lemma CoveredLater(xs: seq<Interval>, t: int)
    requires xs != [] && Separated(xs)
    ensures Covered(xs[1..], t) <==> Covered(xs, t) && !(xs[0].start <= t < xs[0].end)
  {
  }

  // ---- measure ----------------------------------------------------------------------------------

  lemma {:induction false} MeasureSplits(xs: seq<Interval>, a: int, b: int, c: int)
    requires a <= b <= c
    ensures Measure(xs, a, c) == Measure(xs, a, b) + Measure(xs, b, c)
    decreases c - b
  {
    if b < c {
      MeasureSplits(xs, a, b, c - 1);
    }
  }

  lemma {:induction false} MeasureDepends(xs: seq<Interval>, ys: seq<Interval>, a: int, b: int)
    requires forall t :: a <= t < b ==> (Covered(xs, t) <==> Covered(ys, t))
    ensures Measure(xs, a, b) == Measure(ys, a, b)
    decreases b - a
  {
    if a < b {
      MeasureDepends(xs, ys, a, b - 1);
    }
  }

  lemma {:induction false} MeasureAtMostSpan(xs: seq<Interval>, a: int, b: int)
    requires a <= b
    ensures Measure(xs, a, b) <= b - a
    decreases b - a
  {
    if a < b {
      MeasureAtMostSpan(xs, a, b - 1);
    }
  }

  /** The part of an interval inside [a, b). */
  function Clipped(iv: Interval, a: int, b: int): nat {
    var start := if iv.start < a then a else iv.start;
    var end := if iv.end > b then b else iv.end;
    if end > start then end - start else 0
  }

  function Downtime(xs: seq<Interval>, a: int, b: int): nat {
    if xs == [] then 0 else Downtime(xs[..|xs| - 1], a, b) + Clipped(xs[|xs| - 1], a, b)
  }

  /** Adding an interval adds at most its clipped length, and exactly that when it overlaps nothing. */
  lemma {:induction false} MeasureOneMore(xs: seq<Interval>, iv: Interval, a: int, b: int)
    ensures Measure(xs + [iv], a, b) <= Measure(xs, a, b) + Clipped(iv, a, b)
    ensures (forall t :: iv.start <= t < iv.end ==> !Covered(xs, t)) ==>
              Measure(xs + [iv], a, b) == Measure(xs, a, b) + Clipped(iv, a, b)
    decreases b - a
  {
    if a < b {
      MeasureOneMore(xs, iv, a, b - 1);
      CoveredByMore(xs, iv, b - 1);
    }
  }

  /** The sum of clipped lengths never misses downtime, and is exact for separated intervals. */
  lemma {:induction false} DowntimeIsMeasure(xs: seq<Interval>, a: int, b: int)
    ensures Measure(xs, a, b) <= Downtime(xs, a, b)
    ensures Separated(xs) ==> Measure(xs, a, b) == Downtime(xs, a, b)
  {
    if xs == [] {
      NothingCovered(a, b);
    } else {
      var n := |xs| - 1;
      assert xs == xs[..n] + [xs[n]];
      DowntimeIsMeasure(xs[..n], a, b);
      MeasureOneMore(xs[..n], xs[n], a, b);
      if Separated(xs) {
        forall t | xs[n].start <= t < xs[n].end ensures !Covered(xs[..n], t) {
          assert forall i :: 0 <= i < n ==> xs[i].end < xs[n].start;
        }
      }
    }
  }

  lemma {:induction false} NothingCovered(a: int, b: int)
    ensures Measure([], a, b) == 0
    decreases b - a
  {
    if a < b {
      NothingCovered(a, b - 1);
    }
  }

  // ---- UptimePercent ----------------------------------------------------------------------------

  /** The share of [a, b) that is not covered, in percent. */
  ghost function TrueUptime(xs: seq<Interval>, a: int, b: int): real
    requires a < b
  {
    100.0 * (1.0 - Measure(xs, a, b) as real / (b - a) as real)
  }

  lemma PercentOf(m: nat, span: int)
    requires 0 < span
    ensures 100.0 * (span as real - m as real) / span as real == 100.0 * (1.0 - m as real / span as real)
    ensures m <= span ==> 0.0 <= 100.0 * (1.0 - m as real / span as real) <= 100.0
    ensures m > span ==> 100.0 * (1.0 - m as real / span as real) < 0.0
  {
    var s, r := span as real, m as real / span as real;
    assert r * s == m as real;
    SameQuotient(100.0 * (s - m as real) / s, 100.0 * (1.0 - r), s);
    assert m <= span ==> r <= 1.0;
    assert m > span ==> r > 1.0;
  }

  lemma SameQuotient(p: real, q: real, s: real)
    requires s > 0.0 && p * s == q * s
    ensures p == q
  {
    assert (p - q) * s == 0.0;
  }

  lemma MoreDowntimeLessUptime(m: nat, d: nat, span: int)
    requires 0 < span && m <= d
    ensures 100.0 * (1.0 - d as real / span as real) <= 100.0 * (1.0 - m as real / span as real)
  {
    assert m as real / span as real <= d as real / span as real;
  }

  /** For merged intervals the result is the true uptime; for any list it is never above it. */
  method UptimePercent(merged: seq<Interval>, windowStart: int, windowEnd: int) returns (pct: real)
    ensures windowEnd <= windowStart ==> pct == 100.0
    ensures 0.0 <= pct <= 100.0
    ensures windowStart < windowEnd ==> pct <= TrueUptime(merged, windowStart, windowEnd)
    ensures windowStart < windowEnd && Separated(merged) ==> pct == TrueUptime(merged, windowStart, windowEnd)
  {
    var span := windowEnd - windowStart;
    if span <= 0 {
      return 100.0;
    }
    var downtime := 0;
    for i := 0 to |merged|
      invariant downtime == Downtime(merged[..i], windowStart, windowEnd)
    {
      var start := merged[i].start;
      if start < windowStart {
        start := windowStart;
      }
      var end := merged[i].end;
      if end > windowEnd {
        end := windowEnd;
      }
      assert merged[..i + 1][..i] == merged[..i];
      if end > start {
        downtime := downtime + (end - start);
      }
    }
    assert merged[..|merged|] == merged;
    DowntimeIsMeasure(merged, windowStart, windowEnd);
    MeasureAtMostSpan(merged, windowStart, windowEnd);
    PercentOf(downtime, span);
    PercentOf(Measure(merged, windowStart, windowEnd), span);
    MoreDowntimeLessUptime(Measure(merged, windowStart, windowEnd), downtime, span);
    pct := 100.0 * (span as real - downtime as real) / span as real;
    if pct < 0.0 {
      pct := 0.0;
    }
    if pct > 100.0 {
      pct := 100.0;
    }
  }

  // ---- an agent's figures -----------------------------------------------------------------------

  const DAY: int := 24 * 3600 * 1_000_000_000

  /** An alert's fired_at and resolved_at; the latter absent while it is firing. */
  datatype AlertSpan = AlertSpan(fired: int, resolved: Option<int>)

  function EndOf(a: AlertSpan, now: int): int {
    var end := if a.resolved.Some? then a.resolved.value else now;
    if end < a.fired then a.fired else end
  }

  function Spans(alerts: seq<AlertSpan>, now: int): (xs: seq<Interval>)
    ensures |xs| == |alerts|
    ensures forall i :: 0 <= i < |xs| ==> xs[i] == Interval(alerts[i].fired, EndOf(alerts[i], now))
  {
    seq(|alerts|, i requires 0 <= i < |alerts| => Interval(alerts[i].fired, EndOf(alerts[i], now)))
  }

  /** The alert had fired by t and was not resolved yet; one that is still firing counts up to now. */
  predicate IsActive(a: AlertSpan, now: int, t: int) {
    a.fired <= t && if a.resolved.Some? then t < a.resolved.value else t < now
  }

  ghost predicate AnyActive(alerts: seq<AlertSpan>, now: int, t: int) {
    exists i :: 0 <= i < |alerts| && IsActive(alerts[i], now, t)
  }

  /** The number of ticks of [a, b) at which some alert was active. */
  ghost function ActiveTicks(alerts: seq<AlertSpan>, now: int, a: int, b: int): nat
    decreases b - a
  {
    if a >= b then 0 else ActiveTicks(alerts, now, a, b - 1) + if AnyActive(alerts, now, b - 1) then 1 else 0
  }

  /** Share of the ticks of [a, b) at which no alert was active, in percent. */
  ghost function AlertFree(alerts: seq<AlertSpan>, now: int, a: int, b: int): real
    requires a < b
  {
    100.0 * (1.0 - ActiveTicks(alerts, now, a, b) as real / (b - a) as real)
  }

  lemma SpansAreActive(alerts: seq<AlertSpan>, now: int, t: int)
    ensures Covered(Spans(alerts, now), t) <==> AnyActive(alerts, now, t)
  {
    var xs := Spans(alerts, now);
    forall i | 0 <= i < |alerts| ensures xs[i].start <= t < xs[i].end <==> IsActive(alerts[i], now, t) {
    }
  }

  /** Whether a tick lies in the span of some alert is whether an alert was active at it. */
  lemma {:induction false} ActiveIsMeasure(alerts: seq<AlertSpan>, now: int, a: int, b: int)
    ensures ActiveTicks(alerts, now, a, b) == Measure(Spans(alerts, now), a, b)
    ensures a < b ==> AlertFree(alerts, now, a, b) == TrueUptime(Spans(alerts, now), a, b)
    decreases b - a
  {
    if a < b {
      ActiveIsMeasure(alerts, now, a, b - 1);
      SpansAreActive(alerts, now, b - 1);
    }
  }

  ghost predicate SameFrom(xs: seq<Interval>, ys: seq<Interval>, since: int) {
    forall t :: since <= t ==> (Covered(xs, t) <==> Covered(ys, t))
  }

  lemma SameUptime(xs: seq<Interval>, ys: seq<Interval>, since: int, a: int, b: int)
    requires SameFrom(xs, ys, since) && since <= a < b
    ensures TrueUptime(xs, a, b) == TrueUptime(ys, a, b)
  {
    MeasureDepends(xs, ys, a, b);
  }

  /** The intervals kept cover a tick of the window exactly when some alert was active at it. */
  method AlertIntervals(alerts: seq<AlertSpan>, since: int, now: int) returns (intervals: seq<Interval>)
    ensures SameFrom(intervals, Spans(alerts, now), since)
    ensures forall t :: since <= t ==> (Covered(intervals, t) <==> AnyActive(alerts, now, t))
  {
    intervals := [];
    for i := 0 to |alerts|
      invariant SameFrom(intervals, Spans(alerts[..i], now), since)
    {
      var end := now;
      if alerts[i].resolved.Some? {
        end := alerts[i].resolved.value;
      }
      if end < alerts[i].fired {
        end := alerts[i].fired;
      }
      ghost var before := intervals;
      var iv := Interval(alerts[i].fired, end);
      if !(end < since) {
        intervals := intervals + [iv];
      }
      assert Spans(alerts[..i + 1], now) == Spans(alerts[..i], now) + [iv];
      forall t | since <= t ensures Covered(intervals, t) <==> Covered(Spans(alerts[..i + 1], now), t) {
        CoveredByMore(before, iv, t);
        CoveredByMore(Spans(alerts[..i], now), iv, t);
      }
    }
    assert alerts[..|alerts|] == alerts;
    forall t ensures Covered(Spans(alerts, now), t) <==> AnyActive(alerts, now, t) {
      SpansAreActive(alerts, now, t);
    }
  }

  /** The start of bar d of showDays bars ending now. */
  function BarStart(now: int, showDays: nat, d: nat): int {
    now - showDays * DAY + d * DAY
  }

  method DailyBars(merged: seq<Interval>, ghost spans: seq<Interval>, ghost since: int, showDays: nat, now: int)
    returns (daily: seq<real>)
    requires Separated(merged) && SameFrom(merged, spans, since) && since <= BarStart(now, showDays, 0)
    ensures |daily| == showDays
    ensures forall d :: 0 <= d < showDays ==>
              daily[d] == TrueUptime(spans, BarStart(now, showDays, d), BarStart(now, showDays, d + 1))
  {
    var dailySince := now - showDays * DAY;
    daily := [];
    for d := 0 to showDays
      invariant |daily| == d
      invariant forall e :: 0 <= e < d ==>
                  daily[e] == TrueUptime(spans, BarStart(now, showDays, e), BarStart(now, showDays, e + 1))
    {
      var dayStart := dailySince + d * DAY;
      var dayEnd := dayStart + DAY;
      if dayEnd > now {
        dayEnd := now;
      }
      var uptime := 100.0;
      if dayEnd > dayStart {
        uptime := UptimePercent(merged, dayStart, dayEnd);
        SameUptime(merged, spans, since, dayStart, dayEnd);
      }
      daily := daily + [uptime];
    }
  }

  /** The three windows and the daily bars of one agent, unrounded. */
  method AgentMetrics(alerts: seq<AlertSpan>, showDays: nat, now: int)
    returns (uptime24h: real, uptime7d: real, uptime30d: real, daily: seq<real>)
    ensures uptime24h == AlertFree(alerts, now, now - 86_400_000_000_000, now)
    ensures uptime7d == AlertFree(alerts, now, now - 7 * DAY, now)
    ensures uptime30d == AlertFree(alerts, now, now - 30 * DAY, now)
    ensures |daily| == showDays
    ensures forall d :: 0 <= d < showDays ==>
              daily[d] == AlertFree(alerts, now, BarStart(now, showDays, d), BarStart(now, showDays, d + 1))
  {
    var windowDays := if showDays < 30 then 30 else showDays;
    var since := now - windowDays * DAY;
    ghost var spans := Spans(alerts, now);
    var intervals := AlertIntervals(alerts, since, now);
    var merged := Merge(intervals);
    assert SameFrom(merged, spans, since);
    uptime24h := WindowUptime(merged, spans, since, now - DAY, now);
    uptime7d := WindowUptime(merged, spans, since, now - 7 * DAY, now);
    uptime30d := WindowUptime(merged, spans, since, now - 30 * DAY, now);
    daily := DailyBars(merged, spans, since, showDays, now);
    ActiveIsMeasure(alerts, now, now - DAY, now);
    ActiveIsMeasure(alerts, now, now - 7 * DAY, now);
    ActiveIsMeasure(alerts, now, now - 30 * DAY, now);
    forall d | 0 <= d < showDays
      ensures daily[d] == AlertFree(alerts, now, BarStart(now, showDays, d), BarStart(now, showDays, d + 1))
    {
      ActiveIsMeasure(alerts, now, BarStart(now, showDays, d), BarStart(now, showDays, d + 1));
    }
  }

  method WindowUptime(merged: seq<Interval>, ghost spans: seq<Interval>, ghost since: int, a: int, b: int)
    returns (pct: real)
    requires Separated(merged) && SameFrom(merged, spans, since) && since <= a < b
    ensures pct == TrueUptime(spans, a, b)
  {
    pct := UptimePercent(merged, a, b);
    SameUptime(merged, spans, since, a, b);
  }

  function Total(xs: seq<real>): real {
    if xs == [] then 0.0 else Total(xs[..|xs| - 1]) + xs[|xs| - 1]
  }

  predicate AveragesTo(xs: seq<real>, mean: real) {
    Total(xs) == |xs| as real * mean
  }

  function Days(ticks: nat): real {
    ticks as real / DAY as real
  }

  lemma DaysAdd(m: nat, n: nat)
    ensures Days(m + n) == Days(m) + Days(n)
  {
  }

  /** The uptime of a window of n days, with the division cleared. */
  lemma DaysOfUptime(xs: seq<Interval>, from: int, to: int, n: nat)
    requires n > 0 && to == from + n * DAY
    ensures n as real * TrueUptime(xs, from, to) == 100.0 * (n as real - Days(Measure(xs, from, to)))
  {
    var m, days := Measure(xs, from, to), n as real;
    var q := m as real / (to - from) as real;
    assert (to - from) as real == days * DAY as real;
    assert q * (to - from) as real == m as real;
    assert (q * days) * DAY as real == q * (to - from) as real;
    SameQuotient(q * days, Days(m), DAY as real);
    assert days * (100.0 * (1.0 - q)) == 100.0 * (days - q * days);
  }

  /** The uptime of one day. */
  ghost function DayUptime(xs: seq<Interval>, start: int): real {
    100.0 * (1.0 - Days(Measure(xs, start, start + DAY)))
  }

  ghost predicate AreDays(xs: seq<Interval>, from: int, daily: seq<real>) {
    forall d :: 0 <= d < |daily| ==> daily[d] == DayUptime(xs, from + d * DAY)
  }

  lemma LastDay(xs: seq<Interval>, from: int, daily: seq<real>, n: nat)
    requires AreDays(xs, from, daily) && |daily| == n + 1
    ensures AreDays(xs, from, daily[..n]) && daily[n] == DayUptime(xs, from + n * DAY)
  {
  }

  lemma {:induction false} BarsTotal(xs: seq<Interval>, from: int, daily: seq<real>)
    requires AreDays(xs, from, daily)
    ensures Total(daily) == 100.0 * (|daily| as real - Days(Measure(xs, from, from + |daily| * DAY)))
  {
    if daily != [] {
      var n := |daily| - 1;
      var mid, to := from + n * DAY, from + |daily| * DAY;
      LastDay(xs, from, daily, n);
      hide Days, Measure, AreDays;
      BarsTotal(xs, from, daily[..n]);
      assert to == mid + DAY;
      MeasureSplits(xs, from, mid, to);
      BarAdds(Total(daily[..n]), Measure(xs, from, mid), Measure(xs, mid, to), n, daily[n]);
    }
  }

  lemma BarAdds(before: real, down: nat, more: nat, n: nat, bar: real)
    requires before == 100.0 * (n as real - Days(down)) && bar == 100.0 * (1.0 - Days(more))
    ensures before + bar == 100.0 * ((n + 1) as real - Days(down + more))
  {
    DaysAdd(down, more);
  }

  lemma OneDay(xs: seq<Interval>, start: int)
    ensures TrueUptime(xs, start, start + DAY) == DayUptime(xs, start)
  {
    DaysOfUptime(xs, start, start + DAY, 1);
  }

  /** The bars of AgentMetrics average to the figure of the whole displayed window. */
  lemma BarsAverageToWindow(alerts: seq<AlertSpan>, now: int, daily: seq<real>)
    requires daily != []
    requires forall d :: 0 <= d < |daily| ==>
               daily[d] == AlertFree(alerts, now, BarStart(now, |daily|, d), BarStart(now, |daily|, d + 1))
    ensures AveragesTo(daily, AlertFree(alerts, now, now - |daily| * DAY, now))
  {
    var from := now - |daily| * DAY;
    forall d | 0 <= d < |daily|
      ensures daily[d] == TrueUptime(Spans(alerts, now), BarStart(now, |daily|, d), BarStart(now, |daily|, d + 1))
    {
      ActiveIsMeasure(alerts, now, BarStart(now, |daily|, d), BarStart(now, |daily|, d + 1));
    }
    ActiveIsMeasure(alerts, now, from, now);
    BarsAreDays(Spans(alerts, now), now, from, daily);
    WindowTotal(Spans(alerts, now), from, now, daily);
  }

  lemma WindowTotal(xs: seq<Interval>, from: int, to: int, daily: seq<real>)
    requires daily != [] && to == from + |daily| * DAY && AreDays(xs, from, daily)
    ensures AveragesTo(daily, TrueUptime(xs, from, to))
  {
    var days := Days(Measure(xs, from, to));
    assert Total(daily) == 100.0 * (|daily| as real - days) by {
      BarsTotal(xs, from, daily);
    }
    SameTotal(Total(daily), xs, from, to, |daily|, days);
  }

  lemma SameTotal(total: real, xs: seq<Interval>, from: int, to: int, n: nat, days: real)
    requires n > 0 && to == from + n * DAY && days == Days(Measure(xs, from, to)) && total == 100.0 * (n as real - days)
    ensures total == n as real * TrueUptime(xs, from, to)
  {
    DaysOfUptime(xs, from, to, n);
  }

  lemma BarsAreDays(xs: seq<Interval>, now: int, from: int, daily: seq<real>)
    requires from == now - |daily| * DAY
    requires forall d :: 0 <= d < |daily| ==>
               daily[d] == TrueUptime(xs, BarStart(now, |daily|, d), BarStart(now, |daily|, d + 1))
    ensures AreDays(xs, from, daily)
  {
    forall d | 0 <= d < |daily| ensures daily[d] == DayUptime(xs, from + d * DAY) {
      assert BarStart(now, |daily|, d + 1) == BarStart(now, |daily|, d) + DAY;
      OneDay(xs, BarStart(now, |daily|, d));
    }
  }
}
