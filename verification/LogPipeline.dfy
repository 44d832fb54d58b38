/**
 The agent's log manager (internal/agent/logs/manager.go): any number of readers emit entries through the rate
 limit into a bounded channel, one loop turns the channel into batches. Every section that is atomic in the
 source (the limiter under its mutex, one channel operation, one atomic counter operation) is one event, so
 any interleaving of the readers, the ticker and the cancellation is a run.
 */
module LogPipeline {
  import opened Sequences
  import opened Wrappers
  import opened LogLimiter

  const RAW_QUEUE_SIZE: nat := 2000

  type Reader = nat

  datatype Entry = Entry(reader: Reader, text: string)

  datatype Batch = Batch(entries: seq<Entry>, dropped: nat)

  /** A reader inside emit: past the limiter and about to try the channel, or about to count a drop. */
  datatype Hand = Offering(e: Entry) | Dropping

  /** The batch loop: at its select, about to flush and go on, draining after cancellation, at its last flush,
      returned. */
  datatype Phase = Selecting | Flushing | Draining | LastFlush | Stopped

  datatype Config = Config(maxLinesPerSec: int, maxBatchSize: int)

  /** From emitted on, the fields are history: entries in emit order, entries the channel took, how many it had
      taken when the drain found it empty, the limiter's history and the last clock reading. */
  datatype World = World(
    limiter: Limiter,
    hands: map<Reader, Hand>,
    queue: seq<Entry>,
    buf: seq<Entry>,
    dropped: nat,
    phase: Phase,
    batches: seq<Batch>,
    emitted: seq<Entry>,
    accepted: seq<Entry>,
    cut: nat,
    windows: History,
    clock: int)

  const EMPTY := World(FRESH, map[], [], [], 0, Selecting, [], [], [], 0, BLANK, 0)

  datatype Event =
    | Emit(e: Entry, now: int)
    | Offer(r: Reader)
    | CountDrop(r: Reader)
    | Receive
    | Tick
    | Flush
    | Cancel
    | FoundEmpty

  ghost predicate Enabled(c: Config, w: World, ev: Event) {
    match ev
    case Emit(e, now) => e.reader !in w.hands && w.clock <= now
    case Offer(r) => r in w.hands && w.hands[r].Offering?
    case CountDrop(r) => r in w.hands && w.hands[r].Dropping?
    case Receive => w.queue != [] && (w.phase.Selecting? || w.phase.Draining?)
    case Tick => w.phase.Selecting?
    case Flush => w.phase.Flushing? || w.phase.LastFlush?
    case Cancel => w.phase.Selecting?
    case FoundEmpty => w.phase.Draining? && w.queue == []
  }

  ghost function Step(c: Config, w: World, ev: Event): World
    requires Enabled(c, w, ev)
  {
    match ev
    case Emit(e, now) =>
      var hand := if Admits(w.limiter, c.maxLinesPerSec, now) then Offering(e) else Dropping;
      w.(limiter := AfterAllow(w.limiter, c.maxLinesPerSec, now), hands := w.hands[e.reader := hand],
         emitted := w.emitted + [e], clock := now,
         windows := if c.maxLinesPerSec > 0 then Recorded(w.windows, w.limiter, c.maxLinesPerSec, now) else w.windows)
    case Offer(r) =>
      if |w.queue| < RAW_QUEUE_SIZE then
        w.(queue := w.queue + [w.hands[r].e], accepted := w.accepted + [w.hands[r].e], hands := w.hands - {r})
      else w.(hands := w.hands[r := Dropping])
    case CountDrop(r) => w.(dropped := w.dropped + 1, hands := w.hands - {r})
    case Receive =>
      var buf := w.buf + [w.queue[0]];
      w.(queue := w.queue[1..], buf := buf,
         phase := if w.phase.Selecting? && |buf| >= c.maxBatchSize then Flushing else w.phase)
    case Tick => w.(phase := Flushing)
    case Flush =>
      var w1 := w.(phase := if w.phase.Flushing? then Selecting else Stopped);
      if w.buf == [] && w.dropped == 0 then w1
      else w1.(batches := w.batches + [Batch(w.buf, w.dropped)], buf := [], dropped := 0)
    case Cancel => w.(phase := Draining)
    case FoundEmpty => w.(phase := LastFlush, cut := |w.accepted|)
  }

  ghost predicate ValidRun(c: Config, evs: seq<Event>)
    decreases |evs|, 0
  {
    evs == [] || (ValidRun(c, Front(evs)) && Enabled(c, Run(c, Front(evs)), Last(evs)))
  }

  ghost function Run(c: Config, evs: seq<Event>): World
    requires ValidRun(c, evs)
    decreases |evs|, 1
  {
    if evs == [] then EMPTY else Step(c, Run(c, Front(evs)), Last(evs))
  }

  // ---- the sections as code ---------------------------------------------------------------------

  /** The manager with the loop's local buffer; send appends to batches. */
  class Manager {
    const config: Config
    var windowStart: Option<int>
    var windowCount: int
    var dropped: nat
    var raw: seq<Entry>
    var buf: seq<Entry>
    var phase: Phase
    var hands: map<Reader, Hand>
    var batches: seq<Batch>
    ghost var emitted: seq<Entry>
    ghost var accepted: seq<Entry>
    ghost var cut: nat
    ghost var windows: History
    ghost var clock: int

    ghost function State(): World
      reads this
    {
      World(Limiter(windowStart, windowCount), hands, raw, buf, dropped, phase, batches, emitted, accepted, cut,
            windows, clock)
    }

    constructor (config: Config)
      ensures this.config == config && State() == EMPTY
    {
      this.config := config;
      windowStart, windowCount, dropped := None, 0, 0;
      raw, buf, phase, hands, batches := [], [], Selecting, map[], [];
      emitted, accepted, cut, windows, clock := [], [], 0, BLANK, 0;
    }

    method Allow(now: int) returns (ok: bool)
      modifies this`windowStart, this`windowCount
      ensures ok == Admits(Limiter(old(windowStart), old(windowCount)), config.maxLinesPerSec, now)
      ensures Limiter(windowStart, windowCount) ==
              AfterAllow(Limiter(old(windowStart), old(windowCount)), config.maxLinesPerSec, now)
    {
      if config.maxLinesPerSec <= 0 {
        return true;
      }
      if windowStart.None? || now - windowStart.value >= SECOND {
        windowStart := Some(now);
        windowCount := 0;
      }
      if windowCount >= config.maxLinesPerSec {
        return false;
      }
      windowCount := windowCount + 1;
      return true;
    }

    /** emit, up to the limiter's answer. */
    method BeginEmit(e: Entry, now: int)
      requires Enabled(config, State(), Emit(e, now))
      modifies this
      ensures State() == Step(config, old(State()), Emit(e, now))
    {
      if config.maxLinesPerSec > 0 {
        windows := Recorded(windows, Limiter(windowStart, windowCount), config.maxLinesPerSec, now);
      }
      emitted, clock := emitted + [e], now;
      var ok := Allow(now);
      hands := hands[e.reader := if ok then Offering(e) else Dropping];
    }

    /** emit's non-blocking channel send. */
    method TrySend(r: Reader) returns (sent: bool)
      requires Enabled(config, State(), Offer(r))
      modifies this
      ensures State() == Step(config, old(State()), Offer(r))
      ensures sent <==> |old(raw)| < 2000
    {
      sent := |raw| < RAW_QUEUE_SIZE;
      if sent {
        raw := raw + [hands[r].e];
        accepted := accepted + [hands[r].e];
        hands := hands - {r};
      } else {
        hands := hands[r := Dropping];
      }
    }

    method AddDropped(r: Reader)
      requires Enabled(config, State(), CountDrop(r))
      modifies this
      ensures State() == Step(config, old(State()), CountDrop(r))
    {
      dropped := dropped + 1;
      hands := hands - {r};
    }

    /** One receive, at the select or in the drain. */
    method ReceiveEntry()
      requires Enabled(config, State(), Receive)
      modifies this
      ensures State() == Step(config, old(State()), Receive)
    {
      buf := buf + [raw[0]];
      raw := raw[1..];
      if phase.Selecting? && |buf| >= config.maxBatchSize {
        phase := Flushing;
      }
    }

    method FlushBuffer()
      requires Enabled(config, State(), Flush)
      modifies this
      ensures State() == Step(config, old(State()), Flush)
    {
      phase := if phase.Flushing? then Selecting else Stopped;
      var n := dropped;
      dropped := 0;
      if |buf| == 0 && n == 0 {
        return;
      }
      batches := batches + [Batch(buf, n)];
      buf := [];
    }

    /** The drain, when no reader interferes: everything queued joins the buffer in order. */
    method Drain()
      requires phase.Draining?
      modifies this
      ensures raw == [] && buf == old(buf) + old(raw) && phase.LastFlush? && cut == |accepted|
      ensures dropped == old(dropped) && batches == old(batches) && accepted == old(accepted) && hands == old(hands)
    {
      while |raw| > 0
        invariant buf + raw == old(buf) + old(raw) && phase.Draining?
        invariant dropped == old(dropped) && batches == old(batches) && accepted == old(accepted) && hands == old(hands)
      {
        ReceiveEntry();
      }
      phase := LastFlush;
      cut := |accepted|;
    }
  }

  // ---- the invariant ----------------------------------------------------------------------------

  function Sent(batches: seq<Batch>): seq<Entry> {
    if batches == [] then [] else Sent(Front(batches)) + Last(batches).entries
  }

  function Reported(batches: seq<Batch>): nat {
    if batches == [] then 0 else Reported(Front(batches)) + Last(batches).dropped
  }

  function By(xs: seq<Entry>, r: Reader): seq<Entry> {
    if xs == [] then []
    else if Last(xs).reader == r then By(Front(xs), r) + [Last(xs)]
    else By(Front(xs), r)
  }

  /** What reader r still holds past the limiter. */
  function Held(w: World, r: Reader): seq<Entry> {
    if r in w.hands && w.hands[r].Offering? then [w.hands[r].e] else []
  }

  /** Every emitted entry is in a sent batch, in the buffer, in the channel, in a reader's hands, or counted as
      dropped, in a batch or still to be reported. */
  ghost predicate Conserved(w: World) {
    |w.emitted| == |Sent(w.batches)| + |w.buf| + |w.queue| + |w.hands| + Reported(w.batches) + w.dropped
  }

  /** The batches, the buffer and the channel hold what the channel took, in that order. */
  ghost predicate Ordered(w: World) {
    Sent(w.batches) + w.buf + w.queue == w.accepted
  }

  ghost predicate InOrder(taken: seq<Entry>, held: seq<Entry>, all: seq<Entry>) {
    Subsequence(taken + held, all)
  }

  /** Each reader's entries keep their order. */
  ghost predicate KeepsReaderOrder(w: World, r: Reader) {
    && (r in w.hands && w.hands[r].Offering? ==> w.hands[r].e.reader == r)
    && InOrder(By(w.accepted, r), Held(w, r), By(w.emitted, r))
  }

  function Limit(c: Config): nat {
    if c.maxBatchSize > 1 then c.maxBatchSize else 1
  }

  /** Only the shutdown flush may exceed the batch size; the channel never exceeds its capacity. */
  ghost predicate Sized(c: Config, w: World) {
    && |w.queue| <= RAW_QUEUE_SIZE
    && (w.phase.Selecting? ==> |w.buf| < Limit(c))
    && (w.phase.Flushing? ==> |w.buf| <= Limit(c))
    && (w.phase.Stopped? ==> w.buf == [])
    && (forall i :: 0 <= i < |w.batches| - 1 ==> |w.batches[i].entries| <= Limit(c))
    && (w.batches != [] && !w.phase.Stopped? ==> |Last(w.batches).entries| <= Limit(c))
    && (forall i :: 0 <= i < |w.batches| ==> w.batches[i].entries != [] || w.batches[i].dropped > 0)
  }

  /** At the last flush and after it, what is left in the channel is exactly what came after the drain. */
  ghost predicate CutOk(w: World) {
    w.phase.LastFlush? || w.phase.Stopped? ==>
      w.cut <= |w.accepted| && Sent(w.batches) + w.buf == w.accepted[..w.cut]
  }

  ghost predicate Inv(c: Config, w: World) {
    && Conserved(w) && Ordered(w) && Sized(c, w) && CutOk(w)
    && (forall r: Reader :: KeepsReaderOrder(w, r))
    && (if c.maxLinesPerSec > 0 then Sound(w.windows, w.limiter, c.maxLinesPerSec, w.clock) else w.limiter == FRESH)
  }

  lemma SentAppend(batches: seq<Batch>, b: Batch)
    ensures Sent(batches + [b]) == Sent(batches) + b.entries
    ensures Reported(batches + [b]) == Reported(batches) + b.dropped
  {
  }

  lemma ByAppend(xs: seq<Entry>, e: Entry, r: Reader)
    ensures By(xs + [e], r) == if e.reader == r then By(xs, r) + [e] else By(xs, r)
  {
  }

  lemma StepConserves(c: Config, w: World, ev: Event)
    requires Conserved(w) && Enabled(c, w, ev)
    ensures Conserved(Step(c, w, ev))
  {
    SentAppend(w.batches, Batch(w.buf, w.dropped));
  }

  lemma Regroup(sent: seq<Entry>, buf: seq<Entry>, queue: seq<Entry>)
    ensures (sent + buf) + [] + queue == sent + buf + queue
    ensures queue != [] ==> sent + (buf + [queue[0]]) + queue[1..] == sent + buf + queue
    ensures forall e :: sent + buf + (queue + [e]) == sent + buf + queue + [e]
  {
  }

  lemma StepKeepsOrdered(c: Config, w: World, ev: Event)
    requires Ordered(w) && Enabled(c, w, ev)
    ensures Ordered(Step(c, w, ev))
  {
    SentAppend(w.batches, Batch(w.buf, w.dropped));
    Regroup(Sent(w.batches), w.buf, w.queue);
  }

  lemma StepKeepsSized(c: Config, w: World, ev: Event)
    requires Sized(c, w) && Enabled(c, w, ev)
    ensures Sized(c, Step(c, w, ev))
  {
  }

  lemma FlushKeepsCut(c: Config, w: World)
    requires Ordered(w) && CutOk(w) && Enabled(c, w, Flush)
    ensures CutOk(Step(c, w, Flush))
  {
    SentAppend(w.batches, Batch(w.buf, w.dropped));
  }

  lemma StepKeepsCut(c: Config, w: World, ev: Event)
    requires Ordered(w) && CutOk(w) && Enabled(c, w, ev)
    ensures CutOk(Step(c, w, ev))
  {
    if ev.Flush? {
      FlushKeepsCut(c, w);
    }
  }

  lemma Emitted(a: seq<Entry>, b: seq<Entry>, e: Entry, held: seq<Entry>)
    requires InOrder(a, [], b) && (held == [e] || held == [])
    ensures InOrder(a, held, b + [e])
  {
    assert a + [] == a;
    SubsequenceBoth(a, b, e);
    SubsequenceSkips(a, b, e);
  }

  lemma Offered(a: seq<Entry>, b: seq<Entry>, e: Entry)
    requires InOrder(a, [e], b)
    ensures InOrder(a + [e], [], b) && InOrder(a, [], b)
  {
    SubsequenceShorter(a, e, b);
    assert a + [e] + [] == a + [e] && a + [] == a;
  }

  lemma EmitKeepsReaderOrder(c: Config, w: World, e: Entry, now: int, r: Reader)
    requires KeepsReaderOrder(w, r) && Enabled(c, w, Emit(e, now))
    ensures KeepsReaderOrder(Step(c, w, Emit(e, now)), r)
  {
    ByAppend(w.emitted, e, r);
    if e.reader == r {
      Emitted(By(w.accepted, r), By(w.emitted, r), e, Held(Step(c, w, Emit(e, now)), r));
    }
  }

  lemma OtherOffers(c: Config, w: World, q: Reader, r: Reader)
    requires Enabled(c, w, Offer(q)) && w.hands[q].e.reader == q && q != r
    ensures var w' := Step(c, w, Offer(q));
            && w'.emitted == w.emitted && By(w'.accepted, r) == By(w.accepted, r) && Held(w', r) == Held(w, r)
            && (r in w'.hands ==> r in w.hands && w'.hands[r] == w.hands[r])
  {
    ByAppend(w.accepted, w.hands[q].e, r);
  }

  lemma OfferKeepsReaderOrder(c: Config, w: World, q: Reader, r: Reader)
    requires KeepsReaderOrder(w, r) && Enabled(c, w, Offer(q)) && w.hands[q].e.reader == q
    ensures KeepsReaderOrder(Step(c, w, Offer(q)), r)
  {
    if q == r {
      Offered(By(w.accepted, r), By(w.emitted, r), w.hands[q].e);
      ByAppend(w.accepted, w.hands[q].e, r);
    } else {
      OtherOffers(c, w, q, r);
      hide By;
    }
  }

  lemma StepKeepsReaderOrder(c: Config, w: World, ev: Event, r: Reader)
    requires KeepsReaderOrder(w, r) && Enabled(c, w, ev)
    requires ev.Offer? ==> KeepsReaderOrder(w, ev.r)
    ensures KeepsReaderOrder(Step(c, w, ev), r)
  {
    match ev {
      case Emit(e, now) => EmitKeepsReaderOrder(c, w, e, now, r);
      case Offer(q) => OfferKeepsReaderOrder(c, w, q, r);
      case CountDrop(q) => assert Held(Step(c, w, ev), r) == Held(w, r);
      case _ =>
    }
  }

  lemma StepKeepsInv(c: Config, w: World, ev: Event)
    requires Inv(c, w) && Enabled(c, w, ev)
    ensures Inv(c, Step(c, w, ev))
  {
    hide Conserved, Ordered, Sized, CutOk, KeepsReaderOrder, Sound;
    StepConserves(c, w, ev);
    StepKeepsOrdered(c, w, ev);
    StepKeepsSized(c, w, ev);
    StepKeepsCut(c, w, ev);
    forall r: Reader ensures KeepsReaderOrder(Step(c, w, ev), r) {
      StepKeepsReaderOrder(c, w, ev, r);
    }
    if ev.Emit? && c.maxLinesPerSec > 0 {
      AllowKeepsSound(w.windows, w.limiter, c.maxLinesPerSec, w.clock, ev.now);
    }
  }

  lemma {:induction false} RunKeepsInv(c: Config, evs: seq<Event>)
    requires ValidRun(c, evs)
    ensures Inv(c, Run(c, evs))
  {
    if evs != [] {
      RunKeepsInv(c, Front(evs));
      StepKeepsInv(c, Run(c, Front(evs)), Last(evs));
    }
  }

  // ---- what holds over every run ----------------------------------------------------------------

  /** The drop counts, reported and pending, are exactly the emitted entries that neither the channel took nor a
      reader still holds. */
  lemma DropsAreExact(c: Config, evs: seq<Event>)
    requires ValidRun(c, evs)
    ensures var w := Run(c, evs);
            Reported(w.batches) + w.dropped == |w.emitted| - |w.accepted| - |w.hands|
  {
    var w := Run(c, evs);
    RunKeepsInv(c, evs);
    assert |Sent(w.batches) + w.buf + w.queue| == |w.accepted|;
  }

  lemma SentIsPrefix(w: World)
    requires Ordered(w)
    ensures Sent(w.batches) <= w.accepted
  {
  }

  /** The batches sent so far are a prefix of what the channel took, and every reader's part of it is in order. */
  lemma BatchesFollowTheChannel(c: Config, evs: seq<Event>, r: Reader)
    requires ValidRun(c, evs)
    ensures Sent(Run(c, evs).batches) <= Run(c, evs).accepted
    ensures InOrder(By(Run(c, evs).accepted, r), Held(Run(c, evs), r), By(Run(c, evs).emitted, r))
  {
    RunKeepsInv(c, evs);
    SentIsPrefix(Run(c, evs));
    assert KeepsReaderOrder(Run(c, evs), r);
  }

  ghost predicate IsShort(c: Config, w: World, i: nat)
    requires i < |w.batches|
  {
    |w.batches[i].entries| <= Limit(c) || (i == |w.batches| - 1 && w.phase.Stopped?)
  }

  lemma SizedIsShort(c: Config, w: World, i: nat)
    requires Sized(c, w) && i < |w.batches|
    ensures IsShort(c, w, i)
  {
  }

  /** No batch but the one the shutdown flush sends is longer than the batch size (or than one entry). */
  lemma OnlyTheLastBatchIsLong(c: Config, evs: seq<Event>, i: nat)
    requires ValidRun(c, evs) && i < |Run(c, evs).batches|
    ensures IsShort(c, Run(c, evs), i)
  {
    RunKeepsInv(c, evs);
    SizedIsShort(c, Run(c, evs), i);
  }

  /** Any (k + 1) * maxLinesPerSec consecutive admissions span at least k seconds. */
  lemma AdmissionRate(c: Config, evs: seq<Event>, i: nat, k: nat)
    requires ValidRun(c, evs) && c.maxLinesPerSec > 0
    ensures SpannedBy(Run(c, evs).windows.admitted, c.maxLinesPerSec, i, k)
  {
    var w := Run(c, evs);
    RunKeepsInv(c, evs);
    AdmissionsAreSpaced(w.windows, w.limiter, c.maxLinesPerSec, w.clock, i, k);
  }

  /** When the entries were emitted, in order. */
  function EmitTimes(evs: seq<Event>): seq<int> {
    if evs == [] then []
    else if Last(evs).Emit? then EmitTimes(Front(evs)) + [Last(evs).now]
    else EmitTimes(Front(evs))
  }

  lemma {:induction false} LimiterFollowsEmits(c: Config, evs: seq<Event>)
    requires ValidRun(c, evs)
    ensures Run(c, evs).limiter == AfterCalls(c.maxLinesPerSec, EmitTimes(evs))
  {
    if evs != [] {
      LimiterFollowsEmits(c, Front(evs));
      if Last(evs).Emit? {
        assert Front(EmitTimes(evs)) == EmitTimes(Front(evs));
      }
    }
  }

  /** An entry is offered to the channel if and only if there is no limit or it is among the first maxLinesPerSec of
      its window; any other is on its way to being counted as dropped. */
  lemma LimiterDecides(c: Config, evs: seq<Event>)
    requires ValidRun(c, evs) && evs != [] && Last(evs).Emit?
    ensures var e := Last(evs).e;
            && EmitTimes(evs) != [] && e.reader in Run(c, evs).hands
            && Run(c, evs).hands[e.reader] ==
               if c.maxLinesPerSec <= 0 || Nth(EmitTimes(evs)) <= c.maxLinesPerSec then Offering(e) else Dropping
  {
    LimiterFollowsEmits(c, Front(evs));
    AdmitsFirstOfWindow(c.maxLinesPerSec, EmitTimes(evs));
    assert Front(EmitTimes(evs)) == EmitTimes(Front(evs));
  }

  /** Every batch so far is full, but for the one the shutdown flush sent. */
  ghost predicate Full(c: Config, w: World) {
    && (w.phase.Flushing? ==> |w.buf| == Limit(c))
    && (forall i :: 0 <= i < |w.batches| - 1 ==> |w.batches[i].entries| == Limit(c))
    && (w.batches != [] && !w.phase.Stopped? ==> |Last(w.batches).entries| == Limit(c))
  }

  lemma StepKeepsFull(c: Config, w: World, ev: Event)
    requires Sized(c, w) && Full(c, w) && Enabled(c, w, ev) && !ev.Tick?
    ensures Full(c, Step(c, w, ev))
  {
  }

  /** Until the ticker ticks, batches go out only when they are full, and at shutdown. */
  lemma {:induction false} BatchesAreFull(c: Config, evs: seq<Event>)
    requires ValidRun(c, evs) && forall ev <- evs :: !ev.Tick?
    ensures Full(c, Run(c, evs))
  {
    if evs != [] {
      assert Last(evs) in evs && forall ev <- Front(evs) :: ev in evs;
      BatchesAreFull(c, Front(evs));
      RunKeepsInv(c, Front(evs));
      StepKeepsFull(c, Run(c, Front(evs)), Last(evs));
    }
  }

  lemma NothingHeld(sent: seq<Entry>, queue: seq<Entry>)
    ensures sent + [] + queue == sent + queue
  {
  }

  /** A flush leaves nothing behind: all that was received is in batches and all drops are reported. */
  lemma FlushLeavesNothing(c: Config, evs: seq<Event>)
    requires ValidRun(c, evs) && evs != [] && Last(evs).Flush?
    ensures var w := Run(c, evs); w.buf == [] && w.dropped == 0 && Sent(w.batches) + w.queue == w.accepted
  {
    var w := Run(c, evs);
    RunKeepsInv(c, evs);
    FlushEmpties(c, Run(c, Front(evs)));
    assert Ordered(w);
    hide Inv, Step, Enabled;
    NothingHeld(Sent(w.batches), w.queue);
  }

  lemma FlushEmpties(c: Config, w: World)
    requires Enabled(c, w, Flush)
    ensures Step(c, w, Flush).buf == [] && Step(c, w, Flush).dropped == 0
  {
  }

  /** After the drain found the channel empty, a reader put one more entry into it. */
  ghost predicate TookAfterDrain(c: Config, evs: seq<Event>)
    requires ValidRun(c, evs)
  {
    evs != [] &&
      (TookAfterDrain(c, Front(evs))
       || (FoundEmpty in Front(evs) && Last(evs).Offer? && |Run(c, Front(evs)).queue| < RAW_QUEUE_SIZE))
  }

  lemma {:induction false} DrainedPhases(c: Config, evs: seq<Event>)
    requires ValidRun(c, evs)
    ensures FoundEmpty in evs <==> Run(c, evs).phase.LastFlush? || Run(c, evs).phase.Stopped?
  {
    if evs != [] {
      DrainedPhases(c, Front(evs));
      assert evs == Front(evs) + [Last(evs)];
      PhaseMoves(c, Run(c, Front(evs)), Last(evs));
    }
  }

  lemma PhaseMoves(c: Config, w: World, ev: Event)
    requires Enabled(c, w, ev)
    ensures Step(c, w, ev).phase.LastFlush? || Step(c, w, ev).phase.Stopped? <==>
            ev.FoundEmpty? || w.phase.LastFlush? || w.phase.Stopped?
  {
  }

  /** Once the drain is over, the entries taken since are what is beyond the cut. */
  lemma {:induction false} TakenBeyondCut(c: Config, evs: seq<Event>)
    requires ValidRun(c, evs) && FoundEmpty in evs
    ensures TookAfterDrain(c, evs) <==> Run(c, evs).cut < |Run(c, evs).accepted|
    ensures Run(c, evs).cut <= |Run(c, evs).accepted|
  {
    hide Step;
    DrainedPhases(c, Front(evs));
    assert evs == Front(evs) + [Last(evs)];
    if FoundEmpty in Front(evs) {
      TakenBeyondCut(c, Front(evs));
      OnlyOffersAdd(c, Run(c, Front(evs)), Last(evs));
    } else {
      NothingTookYet(c, Front(evs));
      DrainCuts(c, Run(c, Front(evs)));
    }
  }

  lemma DrainCuts(c: Config, w: World)
    requires Enabled(c, w, FoundEmpty)
    ensures Step(c, w, FoundEmpty).cut == |w.accepted| == |Step(c, w, FoundEmpty).accepted|
  {
  }

  lemma OnlyOffersAdd(c: Config, w: World, ev: Event)
    requires Enabled(c, w, ev) && (w.phase.LastFlush? || w.phase.Stopped?)
    ensures Step(c, w, ev).cut == w.cut
    ensures |Step(c, w, ev).accepted| == |w.accepted| + if ev.Offer? && |w.queue| < RAW_QUEUE_SIZE then 1 else 0
  {
  }

  lemma {:induction false} NothingTookYet(c: Config, evs: seq<Event>)
    requires ValidRun(c, evs) && FoundEmpty !in evs
    ensures !TookAfterDrain(c, evs)
  {
    if evs != [] {
      assert evs == Front(evs) + [Last(evs)];
      NothingTookYet(c, Front(evs));
    }
  }

  lemma StoppedSent(c: Config, w: World)
    requires Ordered(w) && CutOk(w) && Sized(c, w) && w.phase.Stopped?
    ensures w.cut <= |w.accepted| && Sent(w.batches) == w.accepted[..w.cut]
    ensures w.queue == [] <==> w.cut == |w.accepted|
  {
    assert Sent(w.batches) + [] == Sent(w.batches);
    assert |Sent(w.batches) + w.queue| == |w.accepted|;
  }

  /** A loop that has returned has sent all that the channel had taken when the drain found it empty, and so it has
      sent everything if and only if no reader put an entry into the channel after that. */
  lemma ShutdownSendsWhatWasQueued(c: Config, evs: seq<Event>)
    requires ValidRun(c, evs) && Run(c, evs).phase.Stopped?
    ensures var w := Run(c, evs); w.cut <= |w.accepted| && Sent(w.batches) == w.accepted[..w.cut]
    ensures Sent(Run(c, evs).batches) == Run(c, evs).accepted <==> !TookAfterDrain(c, evs)
    ensures Run(c, evs).queue == [] <==> !TookAfterDrain(c, evs)
  {
    var w := Run(c, evs);
    RunKeepsInv(c, evs);
    StoppedSent(c, w);
    DrainedPhases(c, evs);
    TakenBeyondCut(c, evs);
    assert |w.accepted[..w.cut]| == w.cut;
    assert w.cut == |w.accepted| ==> w.accepted[..w.cut] == w.accepted;
  }

  /** Nothing is sent after that. */
  lemma {:induction false} NothingAfterStop(c: Config, evs: seq<Event>, more: seq<Event>)
    requires ValidRun(c, evs) && ValidRun(c, evs + more) && Run(c, evs).phase.Stopped?
    ensures Run(c, evs + more).phase.Stopped? && Run(c, evs + more).batches == Run(c, evs).batches
  {
    if more == [] {
      assert evs + more == evs;
    } else {
      assert Front(evs + more) == evs + Front(more);
      NothingAfterStop(c, evs, Front(more));
    }
  }

  lemma OneMore(c: Config, evs: seq<Event>, ev: Event) returns (longer: seq<Event>)
    requires ValidRun(c, evs) && Enabled(c, Run(c, evs), ev)
    ensures longer == evs + [ev] && ValidRun(c, longer) && Run(c, longer) == Step(c, Run(c, evs), ev)
  {
    longer := evs + [ev];
    assert Front(longer) == evs;
  }

  /** A reader that is still emitting then leaves its entry in the channel for good. */
  lemma LateEntryIsStranded(c: Config) returns (evs: seq<Event>)
    requires c.maxLinesPerSec <= 0
    ensures ValidRun(c, evs) && Run(c, evs).phase.Stopped?
    ensures Run(c, evs).accepted == [Entry(0, "late")] == Run(c, evs).queue && Run(c, evs).batches == []
  {
    evs := OneMore(c, [], Cancel);
    evs := OneMore(c, evs, FoundEmpty);
    evs := OneMore(c, evs, Flush);
    evs := OneMore(c, evs, Emit(Entry(0, "late"), 0));
    evs := OneMore(c, evs, Offer(0));
  }
}
