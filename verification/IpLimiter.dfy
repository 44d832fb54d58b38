/**
 The per-address request limit of the public status page (ipRateLimiter in internal/hub/api/public_status.go).
 It keeps a pruned list of attempts per address and sweeps the whole map every thousandth call; the reference
 keeps every attempt ever made. Allow holds the mutex throughout, so calls are sequential.
 */
module IpLimiter {
  import opened Sequences

  const SWEEP_EVERY: nat := 1000

  /** One call: who, when, under which limit, and the answer. */
  datatype Attempt = Attempt(ip: string, at: int, limit: int, allowed: bool)

  /** The elements strictly after the cutoff, in order. */
  function Recent(ts: seq<int>, cutoff: int): seq<int> {
    if ts == [] then []
    else if Last(ts) > cutoff then Recent(Front(ts), cutoff) + [Last(ts)]
    else Recent(Front(ts), cutoff)
  }

  /** The times of every attempt of one address. */
  function Times(history: seq<Attempt>, ip: string): seq<int> {
    if history == [] then []
    else if Last(history).ip == ip then Times(Front(history), ip) + [Last(history).at]
    else Times(Front(history), ip)
  }

  /** The answer of a limiter that forgets nothing. */
  predicate Answer(history: seq<Attempt>, ip: string, limit: int, window: int, now: int) {
    |Recent(Times(history, ip), now - window)| < limit
  }

  /** The attempts of the address less than a window ago, allowed or not. */
  function InWindow(history: seq<Attempt>, ip: string, window: int, now: int): set<nat> {
    set i: nat | i < |history| && history[i].ip == ip && now - history[i].at < window
  }

  lemma {:induction false} RecentAreInWindow(history: seq<Attempt>, ip: string, window: int, now: int)
    ensures |Recent(Times(history, ip), now - window)| == |InWindow(history, ip, window, now)|
  {
    if history == [] {
      assert InWindow(history, ip, window, now) == {};
    } else {
      var n, a := |history| - 1, Last(history);
      RecentAreInWindow(Front(history), ip, window, now);
      assert InWindow(history, ip, window, now)
          == InWindow(Front(history), ip, window, now) + if a.ip == ip && now - a.at < window then {n} else {};
      if a.ip == ip {
        assert Front(Times(history, ip)) == Times(Front(history), ip);
      }
    }
  }

  predicate Sorted(ts: seq<int>) {
    forall i, j :: 0 <= i < j < |ts| ==> ts[i] <= ts[j]
  }

  predicate InOrder(history: seq<Attempt>) {
    forall i, j :: 0 <= i < j < |history| ==> history[i].at <= history[j].at
  }

  function HitsOf(hits: map<string, seq<int>>, ip: string): seq<int> {
    if ip in hits then hits[ip] else []
  }

  /** Kept and full agree on everything after any cutoff from `from` on. */
  ghost predicate Mirrors(kept: seq<int>, full: seq<int>, from: int) {
    forall c: int :: from <= c ==> Recent(kept, c) == Recent(full, c)
  }

  /** Every recorded answer is that of the limiter that forgets nothing. */
  predicate Answered(history: seq<Attempt>, window: int) {
    history == [] ||
      (Answered(Front(history), window) &&
       Last(history).allowed == Answer(Front(history), Last(history).ip, Last(history).limit, window, Last(history).at))
  }

  ghost predicate Mirrored(hits: map<string, seq<int>>, history: seq<Attempt>, from: int) {
    forall ip: string :: Mirrors(HitsOf(hits, ip), Times(history, ip), from)
  }

  predicate HitsInOrder(hits: map<string, seq<int>>, latest: int) {
    forall ip <- hits :: Sorted(hits[ip]) && forall i :: 0 <= i < |hits[ip]| ==> hits[ip][i] <= latest
  }

  /** What the map must still know at the time of the last attempt. */
  ghost predicate Kept(hits: map<string, seq<int>>, history: seq<Attempt>, window: int) {
    if history == [] then hits == map[]
    else HitsInOrder(hits, Last(history).at) && Mirrored(hits, history, Last(history).at - window)
  }

  ghost predicate Sound(hits: map<string, seq<int>>, history: seq<Attempt>, window: int) {
    InOrder(history) && Answered(history, window) && Kept(hits, history, window)
  }

  class IpRateLimiter {
    const window: int
    var hits: map<string, seq<int>>
    var calls: nat
    ghost var history: seq<Attempt>

    ghost predicate Valid()
      reads this
    {
      calls == |history| && Sound(hits, history, window)
    }

    constructor (window: int)
      ensures Valid() && this.window == window && history == []
    {
      this.window, hits, calls, history := window, map[], 0, [];
    }

    /** Allowed if and only if fewer than limit attempts of the address were made less than a window ago, out of all it
        ever made; a sweep leaves only addresses with an attempt not before the cutoff. */
    method Allow(ip: string, limit: int, now: int) returns (allowed: bool)
      requires Valid() && (history != [] ==> Last(history).at <= now)
      modifies this
      ensures Valid()
      ensures allowed <==> |InWindow(old(history), ip, window, now)| < limit
      ensures history == old(history) + [Attempt(ip, now, limit, allowed)]
      ensures calls == old(calls) + 1
      ensures calls % 1000 == 0 ==> forall k <- hits :: hits[k] != [] && Last(hits[k]) >= now - window
    {
      hide Sound, Recent;
      RecentAreInWindow(history, ip, window, now);
      var cutoff := now - window;
      var recent := Prune(if ip in hits then hits[ip] else [], cutoff);
      allowed := |recent| < limit;
      AttemptIsSound(hits, history, Attempt(ip, now, limit, allowed), window);
      hits := hits[ip := recent + [now]];
      history := history + [Attempt(ip, now, limit, allowed)];
      calls := calls + 1;
      if calls % SWEEP_EVERY == 0 {
        Sweep(cutoff);
      }
    }

    /** The sweep forgets only addresses whose every attempt is out of the window. */
    method Sweep(cutoff: int)
      requires history != [] && Last(history).at - window == cutoff && Sound(hits, history, window)
      modifies this`hits
      ensures Sound(hits, history, window)
      ensures forall ip <- hits :: hits[ip] != [] && Last(hits[ip]) >= cutoff
    {
      var todo := hits.Keys;
      while todo != {}
        invariant todo <= hits.Keys
        invariant Kept(hits, history, window)
        invariant forall ip <- hits :: ip in todo || (hits[ip] != [] && Last(hits[ip]) >= cutoff)
        decreases todo
      {
        var k :| k in todo;
        todo := todo - {k};
        var ts := hits[k];
        if |ts| == 0 || ts[|ts| - 1] < cutoff {
          StaleIsForgotten(hits, history, window, k);
          hits := hits - {k};
        }
      }
    }
  }

  /** The loop that keeps the recent attempts. */
  method Prune(ts: seq<int>, cutoff: int) returns (recent: seq<int>)
    ensures recent == Recent(ts, cutoff)
  {
    recent := [];
    for i := 0 to |ts|
      invariant recent == Recent(ts[..i], cutoff)
    {
      assert Front(ts[..i + 1]) == ts[..i];
      if ts[i] > cutoff {
        recent := recent + [ts[i]];
      }
    }
    assert ts[..|ts|] == ts;
  }

  lemma StaleIsForgotten(hits: map<string, seq<int>>, history: seq<Attempt>, window: int, k: string)
    requires history != [] && Kept(hits, history, window)
    requires k in hits && (hits[k] != [] ==> Last(hits[k]) < Last(history).at - window)
    ensures Kept(hits - {k}, history, window)
  {
    var from := Last(history).at - window;
    AllStale(hits[k], from);
    forall ip: string ensures Mirrors(HitsOf(hits - {k}, ip), Times(history, ip), from) {
      assert Mirrors(HitsOf(hits, ip), Times(history, ip), from);
    }
  }

  lemma AttemptIsKept(hits: map<string, seq<int>>, history: seq<Attempt>, a: Attempt, window: int)
    requires Kept(hits, history, window) && (history != [] ==> Last(history).at <= a.at)
    ensures Recent(HitsOf(hits, a.ip), a.at - window) == Recent(Times(history, a.ip), a.at - window)
    ensures Kept(hits[a.ip := Recent(HitsOf(hits, a.ip), a.at - window) + [a.at]], history + [a], window)
  {
    var cutoff := a.at - window;
    assert Mirrored(hits, history, cutoff);
    assert Mirrors(HitsOf(hits, a.ip), Times(history, a.ip), cutoff);
    AttemptKeepsMirrored(hits, history, a, cutoff);
    AttemptKeepsHits(hits, if history == [] then a.at else Last(history).at, a.ip, a.at, cutoff);
  }

  lemma AttemptIsSound(hits: map<string, seq<int>>, history: seq<Attempt>, a: Attempt, window: int)
    requires Sound(hits, history, window) && (history != [] ==> Last(history).at <= a.at)
    requires a.allowed == (|Recent(HitsOf(hits, a.ip), a.at - window)| < a.limit)
    ensures a.allowed == Answer(history, a.ip, a.limit, window, a.at)
    ensures Sound(hits[a.ip := Recent(HitsOf(hits, a.ip), a.at - window) + [a.at]], history + [a], window)
  {
    AttemptIsKept(hits, history, a, window);
    AnsweredAppend(history, a, window);
  }

  lemma TimesAppend(history: seq<Attempt>, a: Attempt, ip: string)
    ensures Times(history + [a], ip) == if a.ip == ip then Times(history, ip) + [a.at] else Times(history, ip)
  {
  }

  lemma AttemptKeepsMirrored(hits: map<string, seq<int>>, history: seq<Attempt>, a: Attempt, cutoff: int)
    requires Mirrored(hits, history, cutoff)
    ensures Mirrored(hits[a.ip := Recent(HitsOf(hits, a.ip), cutoff) + [a.at]], history + [a], cutoff)
  {
    var hits' := hits[a.ip := Recent(HitsOf(hits, a.ip), cutoff) + [a.at]];
    forall ip: string ensures Mirrors(HitsOf(hits', ip), Times(history + [a], ip), cutoff) {
      assert Mirrors(HitsOf(hits, ip), Times(history, ip), cutoff);
      TimesAppend(history, a, ip);
      if ip == a.ip {
        MirrorsAppend(HitsOf(hits, ip), Times(history, ip), cutoff, a.at);
      } else {
        assert HitsOf(hits', ip) == HitsOf(hits, ip);
      }
    }
  }

  lemma AttemptKeepsHits(hits: map<string, seq<int>>, latest: int, ip: string, now: int, cutoff: int)
    requires latest <= now && HitsInOrder(hits, latest)
    ensures HitsInOrder(hits[ip := Recent(HitsOf(hits, ip), cutoff) + [now]], now)
  {
    RecentIsSorted(HitsOf(hits, ip), cutoff, latest);
  }

  lemma {:induction false} RecentOfRecent(ts: seq<int>, c: int, d: int)
    requires c <= d
    ensures Recent(Recent(ts, c), d) == Recent(ts, d)
  {
    if ts != [] {
      RecentOfRecent(Front(ts), c, d);
      if Last(ts) > c {
        assert Front(Recent(ts, c)) == Recent(Front(ts), c);
      }
    }
  }

  lemma {:induction false} RecentIsSorted(ts: seq<int>, c: int, latest: int)
    requires Sorted(ts) && forall i :: 0 <= i < |ts| ==> ts[i] <= latest
    ensures Sorted(Recent(ts, c)) && forall i :: 0 <= i < |Recent(ts, c)| ==> Recent(ts, c)[i] <= latest
  {
    if ts != [] {
      RecentIsSorted(Front(ts), c, Last(ts));
    }
  }

  lemma {:induction false} AllStale(ts: seq<int>, c: int)
    requires Sorted(ts) && (ts != [] ==> Last(ts) < c)
    ensures Mirrors([], ts, c)
  {
    if ts != [] {
      AllStale(Front(ts), c);
    }
  }

  lemma MirrorsAppend(kept: seq<int>, full: seq<int>, cutoff: int, now: int)
    requires Mirrors(kept, full, cutoff)
    ensures Mirrors(Recent(kept, cutoff) + [now], full + [now], cutoff)
  {
    forall c: int | cutoff <= c ensures Recent(Recent(kept, cutoff) + [now], c) == Recent(full + [now], c) {
      RecentOfRecent(kept, cutoff, c);
      assert Front(Recent(kept, cutoff) + [now]) == Recent(kept, cutoff) && Front(full + [now]) == full;
    }
  }

  lemma AnsweredAppend(history: seq<Attempt>, a: Attempt, window: int)
    requires Answered(history, window) && a.allowed == Answer(history, a.ip, a.limit, window, a.at)
    ensures Answered(history + [a], window)
  {
  }

  lemma {:induction false} AnsweredPrefix(history: seq<Attempt>, window: int, j: nat)
    requires Answered(history, window) && j <= |history|
    ensures Answered(history[..j], window)
  {
    if j == |history| {
      assert history[..j] == history;
    } else {
      assert Front(history)[..j] == history[..j];
      AnsweredPrefix(Front(history), window, j);
    }
  }

  // ---- at most limit allowed requests in any window ---------------------------------------------

  function AllowedCount(history: seq<Attempt>, ip: string): nat {
    if history == [] then 0
    else AllowedCount(Front(history), ip) + if Last(history).ip == ip && Last(history).allowed then 1 else 0
  }

  /** Attempts of the address that all lie after the cutoff all count against it, allowed or not. */
  lemma {:induction false} LateAttemptsCount(history: seq<Attempt>, i: nat, ip: string, cutoff: int)
    requires i <= |history| && forall k :: i <= k < |history| ==> history[k].at > cutoff
    ensures AllowedCount(history[i..], ip) <= |Times(history[i..], ip)| <= |Recent(Times(history, ip), cutoff)|
  {
    if i < |history| {
      assert Front(history[i..]) == Front(history)[i..];
      LateAttemptsCount(Front(history), i, ip, cutoff);
      if Last(history).ip == ip {
        assert Front(Times(history, ip)) == Times(Front(history), ip);
      }
    }
  }

  predicate UnderLimit(history: seq<Attempt>, limit: int) {
    forall k :: 0 <= k < |history| ==> history[k].limit == limit
  }

  /** From the i-th attempt on, as long as less than a window has passed, at most limit are allowed. */
  lemma {:induction false} AtMostLimitSince(history: seq<Attempt>, window: int, limit: nat, ip: string, i: nat)
    requires InOrder(history) && Answered(history, window) && UnderLimit(history, limit)
    requires i <= |history| && (i < |history| ==> Last(history).at - history[i].at < window)
    ensures AllowedCount(history[i..], ip) <= limit
  {
    if i < |history| {
      assert Front(history[i..]) == Front(history)[i..];
      if Last(history).ip == ip && Last(history).allowed {
        LateAttemptsCount(Front(history), i, ip, Last(history).at - window);
      } else {
        AtMostLimitSince(Front(history), window, limit, ip, i);
      }
    }
  }

  /** Within any span shorter than the window, at most limit requests of one address are allowed. */
  lemma AtMostLimitPerWindow(history: seq<Attempt>, window: int, limit: nat, ip: string, i: nat, j: nat)
    requires InOrder(history) && Answered(history, window) && UnderLimit(history, limit)
    requires i < j <= |history| && history[j - 1].at - history[i].at < window
    ensures AllowedCount(history[i..j], ip) <= limit
  {
    AnsweredPrefix(history, window, j);
    AtMostLimitSince(history[..j], window, limit, ip, i);
    assert history[..j][i..] == history[i..j];
  }

  /** Refused attempts count as well: with limit of them since the i-th attempt, a client stays refused until a
      window has passed, and by trying again it keeps that from happening. */
  lemma RefusedWhileAttemptsPileUp(history: seq<Attempt>, window: int, i: nat, a: Attempt)
    requires Answered(history + [a], window) && i < |history| && |Times(history[i..], a.ip)| >= a.limit
    requires forall k :: i <= k < |history| ==> a.at - history[k].at < window
    ensures !a.allowed
  {
    assert Front(history + [a]) == history;
    LateAttemptsCount(history, i, a.ip, a.at - window);
  }
}
