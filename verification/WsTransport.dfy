/**
 The agent's side of the websocket (internal/agent/transport/ws.go): a bounded send queue that outlives
 connections, one write pump per connection, heartbeats that carry the drop counter, and the reconnect backoff.
 Sends come from any goroutine; each channel operation, counter operation and socket write is one event.
 */
module WsTransport {
  import opened Sequences

  const SEND_QUEUE_SIZE: nat := 256
  const SECOND: int := 1_000_000_000
  const INITIAL_BACKOFF: int := SECOND
  const MAX_BACKOFF: int := 60 * SECOND

  type Message = nat

  /** What one WriteMessage call put on the wire. */
  datatype Frame = Data(m: Message) | Heartbeat(dropped: nat)

  /** No pump runs, or it is at its select, writing a message it took, or writing a heartbeat. */
  datatype Pump = Down | Selecting | Writing(m: Message) | Beating(dropped: nat)

  /** A message the pump took, on which connection, and whether its write succeeded. */
  datatype Attempt = Attempt(m: Message, connection: nat, written: bool)

  /** offered, accepted, attempts, connections and failures are history: messages passed to Send, those it took,
      the finished writes of them, connections made, and failed dials since the last connection. */
  datatype World = World(
    queue: seq<Message>,
    droppedMessages: nat,
    pump: Pump,
    currentBackoff: int,
    wire: seq<Frame>,
    offered: seq<Message>,
    accepted: seq<Message>,
    attempts: seq<Attempt>,
    connections: nat,
    failures: nat)

  const FRESH := World([], 0, Down, INITIAL_BACKOFF, [], [], [], [], 0, 0)

  datatype Event =
    | Sent(m: Message)
    | Connected
    | DialFailed
    | Took
    | Wrote(ok: bool)
    | Ticked
    | Beat(ok: bool)
    | Left

  predicate Enabled(w: World, ev: Event) {
    match ev
    case Sent(_) => true
    case Connected => w.pump.Down?
    case DialFailed => w.pump.Down?
    case Took => w.pump.Selecting? && w.queue != []
    case Wrote(_) => w.pump.Writing?
    case Ticked => w.pump.Selecting?
    case Beat(_) => w.pump.Beating?
    case Left => w.pump.Selecting?
  }

  function NextBackoff(current: int): int {
    if current * 2 > MAX_BACKOFF then MAX_BACKOFF else current * 2
  }

  function Step(w: World, ev: Event): World
    requires Enabled(w, ev)
  {
    match ev
    case Sent(m) =>
      var w1 := w.(offered := w.offered + [m]);
      if |w.queue| < SEND_QUEUE_SIZE then w1.(queue := w.queue + [m], accepted := w.accepted + [m])
      else w1.(droppedMessages := w.droppedMessages + 1)
    case Connected =>
      w.(pump := Selecting, currentBackoff := INITIAL_BACKOFF, connections := w.connections + 1, failures := 0)
    case DialFailed =>
      w.(currentBackoff := NextBackoff(w.currentBackoff), failures := w.failures + 1)
    case Took => w.(pump := Writing(w.queue[0]), queue := w.queue[1..])
    case Wrote(ok) =>
      var w1 := w.(attempts := w.attempts + [Attempt(w.pump.m, w.connections, ok)]);
      if ok then w1.(pump := Selecting, wire := w.wire + [Data(w.pump.m)]) else w1.(pump := Down)
    case Ticked => w.(pump := Beating(w.droppedMessages))
    case Beat(ok) =>
      if ok then w.(pump := Selecting, wire := w.wire + [Heartbeat(w.pump.dropped)]) else w.(pump := Down)
    case Left => w.(pump := Down)
  }

  predicate ValidRun(evs: seq<Event>)
    decreases |evs|, 0
  {
    evs == [] || (ValidRun(Front(evs)) && Enabled(Run(Front(evs)), Last(evs)))
  }

  function Run(evs: seq<Event>): World
    requires ValidRun(evs)
    decreases |evs|, 1
  {
    if evs == [] then FRESH else Step(Run(Front(evs)), Last(evs))
  }

  // ---- the transport itself ---------------------------------------------------------------------

  class Transport {
    var sendCh: seq<Message>
    var droppedMessages: nat
    var currentBackoff: int
    var pump: Pump
    var wire: seq<Frame>
    ghost var offered: seq<Message>
    ghost var accepted: seq<Message>
    ghost var attempts: seq<Attempt>
    ghost var connections: nat
    ghost var failures: nat

    ghost function State(): World
      reads this
    {
      World(sendCh, droppedMessages, pump, currentBackoff, wire, offered, accepted, attempts, connections, failures)
    }

    constructor ()
      ensures State() == FRESH
    {
      sendCh, droppedMessages, currentBackoff, pump, wire := [], 0, INITIAL_BACKOFF, Down, [];
      offered, accepted, attempts, connections, failures := [], [], [], 0, 0;
    }

    method Send(m: Message) returns (ok: bool)
      modifies this
      ensures State() == Step(old(State()), Sent(m))
      ensures ok <==> |old(sendCh)| < 256
    {
      offered := offered + [m];
      if |sendCh| < SEND_QUEUE_SIZE {
        sendCh, accepted := sendCh + [m], accepted + [m];
        return true;
      }
      droppedMessages := droppedMessages + 1;
      return false;
    }

    /** One turn of Start's loop up to the pumps: connect, then resetBackoff or waitBackoff. */
    method Dial(connected: bool)
      requires pump.Down?
      modifies this
      ensures State() == Step(old(State()), if connected then Connected else DialFailed)
    {
      if !connected {
        currentBackoff := NextBackoff(currentBackoff);
        failures := failures + 1;
        return;
      }
      currentBackoff, failures := INITIAL_BACKOFF, 0;
      connections := connections + 1;
      pump := Selecting;
    }

    /** writePump's select choosing the send queue. */
    method TakeMessage()
      requires Enabled(State(), Took)
      modifies this
      ensures State() == Step(old(State()), Took)
    {
      pump := Writing(sendCh[0]);
      sendCh := sendCh[1..];
    }

    method WriteMessage(ok: bool)
      requires Enabled(State(), Wrote(ok))
      modifies this
      ensures State() == Step(old(State()), Wrote(ok))
    {
      attempts := attempts + [Attempt(pump.m, connections, ok)];
      if !ok {
        pump := Down;
        return;
      }
      wire := wire + [Data(pump.m)];
      pump := Selecting;
    }

    /** writePump's select choosing the ticker. */
    method PrepareHeartbeat()
      requires Enabled(State(), Ticked)
      modifies this
      ensures State() == Step(old(State()), Ticked)
    {
      pump := Beating(droppedMessages);
    }

    method WriteHeartbeat(ok: bool)
      requires Enabled(State(), Beat(ok))
      modifies this
      ensures State() == Step(old(State()), Beat(ok))
    {
      if !ok {
        pump := Down;
        return;
      }
      wire := wire + [Heartbeat(pump.dropped)];
      pump := Selecting;
    }

    /** writePump's select choosing ctx.Done or stopCh. */
    method Leave()
      requires Enabled(State(), Left)
      modifies this
      ensures State() == Step(old(State()), Left)
    {
      pump := Down;
    }
  }

  // ---- the invariant ----------------------------------------------------------------------------

  /** The messages on the wire, and the counters the heartbeats carried. */
  function Written(wire: seq<Frame>): seq<Message> {
    if wire == [] then []
    else if Last(wire).Data? then Written(Front(wire)) + [Last(wire).m]
    else Written(Front(wire))
  }

  function Beats(wire: seq<Frame>): seq<nat> {
    if wire == [] then []
    else if Last(wire).Heartbeat? then Beats(Front(wire)) + [Last(wire).dropped]
    else Beats(Front(wire))
  }

  function Taken(attempts: seq<Attempt>): seq<Message> {
    if attempts == [] then [] else Taken(Front(attempts)) + [Last(attempts).m]
  }

  function Kept(attempts: seq<Attempt>): seq<Message> {
    if attempts == [] then []
    else if Last(attempts).written then Kept(Front(attempts)) + [Last(attempts).m]
    else Kept(Front(attempts))
  }

  function Lost(attempts: seq<Attempt>): seq<Attempt> {
    if attempts == [] then []
    else if Last(attempts).written then Lost(Front(attempts))
    else Lost(Front(attempts)) + [Last(attempts)]
  }

  function InHand(w: World): seq<Message> {
    if w.pump.Writing? then [w.pump.m] else []
  }

  predicate FlowOk(w: World) {
    && w.accepted == Taken(w.attempts) + InHand(w) + w.queue
    && Written(w.wire) == Kept(w.attempts)
    && |w.queue| <= SEND_QUEUE_SIZE
  }

  /** Lost messages belong to different connections, and the current one has lost none. */
  predicate LossesOk(w: World) {
    var lost := Lost(w.attempts);
    && (forall i, j :: 0 <= i < j < |lost| ==> lost[i].connection < lost[j].connection)
    && (forall i :: 0 <= i < |lost| ==> 0 < lost[i].connection <= w.connections)
    && (!w.pump.Down? ==> 0 < w.connections && forall i :: 0 <= i < |lost| ==> lost[i].connection < w.connections)
  }

  predicate CountersOk(w: World) {
    && |w.offered| == |w.accepted| + w.droppedMessages
    && Subsequence(w.accepted, w.offered)
  }

  predicate BeatsOk(w: World) {
    var beats, next := Beats(w.wire), if w.pump.Beating? then w.pump.dropped else w.droppedMessages;
    && (forall i, j :: 0 <= i < j < |beats| ==> beats[i] <= beats[j])
    && (forall i :: 0 <= i < |beats| ==> beats[i] <= next)
    && next <= w.droppedMessages
  }

  function Doubled(k: nat): int {
    if k == 0 then 1 else 2 * Doubled(k - 1)
  }

  /** After k failed dials in a row the next wait is 2^k seconds, at most a minute. */
  predicate BackoffOk(w: World) {
    w.currentBackoff == if Doubled(w.failures) <= 60 then Doubled(w.failures) * SECOND else MAX_BACKOFF
  }

  predicate Inv(w: World) {
    FlowOk(w) && LossesOk(w) && CountersOk(w) && BeatsOk(w) && BackoffOk(w)
  }

  lemma FrameAppend(wire: seq<Frame>, f: Frame)
    ensures Written(wire + [f]) == if f.Data? then Written(wire) + [f.m] else Written(wire)
    ensures Beats(wire + [f]) == if f.Heartbeat? then Beats(wire) + [f.dropped] else Beats(wire)
  {
  }

  lemma AttemptAppend(attempts: seq<Attempt>, a: Attempt)
    ensures Taken(attempts + [a]) == Taken(attempts) + [a.m]
    ensures Kept(attempts + [a]) == if a.written then Kept(attempts) + [a.m] else Kept(attempts)
    ensures Lost(attempts + [a]) == if a.written then Lost(attempts) else Lost(attempts) + [a]
  {
  }

  lemma Regroup(taken: seq<Message>, hand: seq<Message>, queue: seq<Message>)
    ensures taken + hand + [] == taken + hand && taken + [] + queue == taken + queue
    ensures queue != [] ==> taken + [queue[0]] + queue[1..] == taken + queue
    ensures forall m :: taken + hand + (queue + [m]) == taken + hand + queue + [m]
  {
  }

  lemma StepKeepsFlow(w: World, ev: Event)
    requires FlowOk(w) && Enabled(w, ev)
    ensures FlowOk(Step(w, ev))
  {
    Regroup(Taken(w.attempts), InHand(w), w.queue);
    match ev {
      case Wrote(ok) =>
        AttemptAppend(w.attempts, Attempt(w.pump.m, w.connections, ok));
        FrameAppend(w.wire, Data(w.pump.m));
        Regroup(Taken(w.attempts) + [w.pump.m], [], w.queue);
      case Beat(ok) => FrameAppend(w.wire, Heartbeat(w.pump.dropped));
      case _ =>
    }
  }

  lemma StepKeepsLosses(w: World, ev: Event)
    requires LossesOk(w) && Enabled(w, ev)
    ensures LossesOk(Step(w, ev))
  {
    if ev.Wrote? {
      AttemptAppend(w.attempts, Attempt(w.pump.m, w.connections, ev.ok));
    }
  }

  lemma StepKeepsCounters(w: World, ev: Event)
    requires CountersOk(w) && Enabled(w, ev)
    ensures CountersOk(Step(w, ev))
  {
    if ev.Sent? {
      SubsequenceBoth(w.accepted, w.offered, ev.m);
      SubsequenceSkips(w.accepted, w.offered, ev.m);
    }
  }

  lemma StepKeepsBeats(w: World, ev: Event)
    requires BeatsOk(w) && Enabled(w, ev)
    ensures BeatsOk(Step(w, ev))
  {
    match ev {
      case Wrote(ok) => FrameAppend(w.wire, Data(w.pump.m));
      case Beat(ok) => FrameAppend(w.wire, Heartbeat(w.pump.dropped));
      case _ =>
    }
  }

  lemma StepKeepsBackoff(w: World, ev: Event)
    requires BackoffOk(w) && Enabled(w, ev)
    ensures BackoffOk(Step(w, ev))
  {
    if ev.DialFailed? {
      assert Doubled(w.failures + 1) == 2 * Doubled(w.failures);
      DoubledSteps(w.failures);
    }
  }

  /** No power of two lies strictly between 32 and 60 or strictly between 60 and 64. */
  lemma {:induction false} DoubledSteps(k: nat)
    ensures Doubled(k) <= 32 || Doubled(k) >= 64
    ensures k <= 5 <==> Doubled(k) <= 32
    ensures Doubled(k) >= 1
  {
    if k > 6 {
      DoubledSteps(k - 1);
    } else {
      assert Doubled(1) == 2 && Doubled(2) == 4 && Doubled(3) == 8;
      assert Doubled(4) == 16 && Doubled(5) == 32 && Doubled(6) == 64;
    }
  }

  lemma {:induction false} RunKeepsInv(evs: seq<Event>)
    requires ValidRun(evs)
    ensures Inv(Run(evs))
  {
    if evs != [] {
      var w, ev := Run(Front(evs)), Last(evs);
      RunKeepsInv(Front(evs));
      StepKeepsFlow(w, ev);
      StepKeepsLosses(w, ev);
      StepKeepsCounters(w, ev);
      StepKeepsBeats(w, ev);
      StepKeepsBackoff(w, ev);
    }
  }

  // ---- what holds over every run, across any number of reconnects -------------------------------

  lemma {:induction false} KeptAndLost(attempts: seq<Attempt>)
    ensures Subsequence(Kept(attempts), Taken(attempts))
    ensures |Taken(attempts)| == |Kept(attempts)| + |Lost(attempts)|
  {
    if attempts != [] {
      KeptAndLost(Front(attempts));
      SubsequenceBoth(Kept(Front(attempts)), Taken(Front(attempts)), Last(attempts).m);
      SubsequenceSkips(Kept(Front(attempts)), Taken(Front(attempts)), Last(attempts).m);
    }
  }

  lemma {:induction false} SubsequenceOfMore(a: seq<Message>, b: seq<Message>, more: seq<Message>)
    requires Subsequence(a, b)
    ensures Subsequence(a, b + more)
  {
    if more == [] {
      assert b + more == b;
    } else {
      SubsequenceOfMore(a, b, Front(more));
      SubsequenceSkips(a, b + Front(more), Last(more));
      assert b + Front(more) + [Last(more)] == b + more;
    }
  }

  /** The messages on the wire are an order-preserving part of those Send accepted, and each accepted one is on
      the wire, being written, queued, or lost. */
  predicate Accounted(w: World) {
    && Subsequence(Written(w.wire), w.accepted)
    && |w.accepted| == |Written(w.wire)| + |InHand(w)| + |w.queue| + |Lost(w.attempts)|
  }

  lemma FlowIsAccounted(w: World)
    requires FlowOk(w)
    ensures Accounted(w)
  {
    KeptAndLost(w.attempts);
    SubsequenceOfMore(Kept(w.attempts), Taken(w.attempts), InHand(w) + w.queue);
    assert Taken(w.attempts) + InHand(w) + w.queue == Taken(w.attempts) + (InHand(w) + w.queue);
  }

  lemma WireFollowsSends(evs: seq<Event>)
    requires ValidRun(evs)
    ensures Accounted(Run(evs))
  {
    RunKeepsInv(evs);
    FlowIsAccounted(Run(evs));
  }

  lemma {:induction false} Increasing(xs: seq<Attempt>, max: nat)
    requires forall i, j :: 0 <= i < j < |xs| ==> xs[i].connection < xs[j].connection
    requires forall i :: 0 <= i < |xs| ==> 0 < xs[i].connection <= max
    ensures |xs| <= max
  {
    if xs != [] {
      Increasing(Front(xs), Last(xs).connection - 1);
    }
  }

  /** Each connection loses at most one message, so no more are lost than connections were made. */
  lemma OneLossPerConnection(evs: seq<Event>, i: nat, j: nat)
    requires ValidRun(evs)
    ensures i < j < |Lost(Run(evs).attempts)| ==>
              Lost(Run(evs).attempts)[i].connection != Lost(Run(evs).attempts)[j].connection
    ensures |Lost(Run(evs).attempts)| <= Run(evs).connections
  {
    RunKeepsInv(evs);
    Increasing(Lost(Run(evs).attempts), Run(evs).connections);
  }

  function Refused(evs: seq<Event>): nat
    requires ValidRun(evs)
  {
    if evs == [] then 0
    else Refused(Front(evs)) + if Last(evs).Sent? && |Run(Front(evs)).queue| == SEND_QUEUE_SIZE then 1 else 0
  }

  lemma StepCounts(w: World, ev: Event)
    requires Enabled(w, ev) && |w.queue| <= SEND_QUEUE_SIZE
    ensures Step(w, ev).droppedMessages ==
            w.droppedMessages + if ev.Sent? && |w.queue| == SEND_QUEUE_SIZE then 1 else 0
  {
  }

  /** droppedMessages is the number of sends that found the queue full, across all connections. */
  lemma {:induction false} DroppedCountsFullQueue(evs: seq<Event>)
    requires ValidRun(evs)
    ensures Run(evs).droppedMessages == Refused(evs)
  {
    if evs != [] {
      DroppedCountsFullQueue(Front(evs));
      RunKeepsInv(Front(evs));
      StepCounts(Run(Front(evs)), Last(evs));
    }
  }

  function Sends(evs: seq<Event>): seq<Message> {
    if evs == [] then []
    else if Last(evs).Sent? then Sends(Front(evs)) + [Last(evs).m]
    else Sends(Front(evs))
  }

  /** The messages whose Send found room. */
  function SendsWithRoom(evs: seq<Event>): seq<Message>
    requires ValidRun(evs)
  {
    if evs == [] then []
    else if Last(evs).Sent? && |Run(Front(evs)).queue| < 256 then SendsWithRoom(Front(evs)) + [Last(evs).m]
    else SendsWithRoom(Front(evs))
  }

  lemma {:induction false} AcceptsWhatFits(evs: seq<Event>)
    requires ValidRun(evs)
    ensures Run(evs).offered == Sends(evs) && Run(evs).accepted == SendsWithRoom(evs)
  {
    if evs != [] {
      AcceptsWhatFits(Front(evs));
    }
  }

  /** Every send was accepted, in order, or counted as dropped: accepted if and only if the queue had room. */
  lemma SendsAreCounted(evs: seq<Event>)
    requires ValidRun(evs)
    ensures CountersOk(Run(evs)) && Run(evs).offered == Sends(evs) && Run(evs).accepted == SendsWithRoom(evs)
  {
    RunKeepsInv(evs);
    AcceptsWhatFits(evs);
  }

  /** What the last tick put into its heartbeat: the number of sends refused up to then. */
  function AtLastTick(evs: seq<Event>): nat
    requires ValidRun(evs)
  {
    if evs == [] then 0 else if Last(evs).Ticked? then Refused(Front(evs)) else AtLastTick(Front(evs))
  }

  /** The counters of the heartbeats that were written. */
  function BeatsOf(evs: seq<Event>): seq<nat>
    requires ValidRun(evs)
  {
    if evs == [] then []
    else if Last(evs) == Beat(true) then BeatsOf(Front(evs)) + [AtLastTick(Front(evs))]
    else BeatsOf(Front(evs))
  }

  /** A heartbeat carries the number of sends that had been refused when it was prepared. */
  lemma {:induction false} HeartbeatsCarryRefusals(evs: seq<Event>)
    requires ValidRun(evs)
    ensures Beats(Run(evs).wire) == BeatsOf(evs)
    ensures Run(evs).pump.Beating? ==> Run(evs).pump.dropped == AtLastTick(evs)
  {
    if evs != [] {
      var w := Run(Front(evs));
      HeartbeatsCarryRefusals(Front(evs));
      DroppedCountsFullQueue(Front(evs));
      match Last(evs) {
        case Wrote(ok) => FrameAppend(w.wire, Data(w.pump.m));
        case Beat(ok) => FrameAppend(w.wire, Heartbeat(w.pump.dropped));
        case _ =>
      }
    }
  }

  /** The hub reads a counter that never goes back and never runs ahead of the agent's. */
  lemma HeartbeatsNeverGoBack(evs: seq<Event>, i: nat, j: nat)
    requires ValidRun(evs) && i < j < |Beats(Run(evs).wire)|
    ensures Beats(Run(evs).wire)[i] <= Beats(Run(evs).wire)[j] <= Run(evs).droppedMessages
  {
    RunKeepsInv(evs);
    assert BeatsOk(Run(evs));
  }

  /** Connected, and neither has a write failed nor the pump been told to stop since. */
  predicate IsUp(evs: seq<Event>) {
    evs != [] &&
      match Last(evs)
      case Connected => true
      case Wrote(ok) => ok && IsUp(Front(evs))
      case Beat(ok) => ok && IsUp(Front(evs))
      case Left => false
      case _ => IsUp(Front(evs))
  }

  /** The pump runs from a connection to the first failed write on it, of a message or of a heartbeat. */
  lemma {:induction false} PumpFollowsConnection(evs: seq<Event>)
    requires ValidRun(evs)
    ensures Run(evs).pump.Down? <==> !IsUp(evs)
  {
    if evs != [] {
      PumpFollowsConnection(Front(evs));
    }
  }

  /** How many dials have failed since the last connection. */
  function FailedInARow(evs: seq<Event>): nat {
    if evs == [] then 0
    else match Last(evs)
      case Connected => 0
      case DialFailed => FailedInARow(Front(evs)) + 1
      case _ => FailedInARow(Front(evs))
  }

  lemma {:induction false} FailuresFollowDials(evs: seq<Event>)
    requires ValidRun(evs)
    ensures Run(evs).failures == FailedInARow(evs)
  {
    if evs != [] {
      FailuresFollowDials(Front(evs));
    }
  }

  /** The wait after k failed dials in a row: two to the k seconds, at most a minute. */
  lemma BackoffDoubles(evs: seq<Event>)
    requires ValidRun(evs)
    ensures Run(evs).currentBackoff ==
            if FailedInARow(evs) <= 5 then Doubled(FailedInARow(evs)) * 1_000_000_000 else 60_000_000_000
  {
    RunKeepsInv(evs);
    FailuresFollowDials(evs);
    DoubledSteps(Run(evs).failures);
  }
}
