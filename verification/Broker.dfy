/**
 The hub's request/response broker (internal/hub/commands/broker.go). Send and HandleResponse are cut into
 their atomic sections: what happens under the mutex, one channel operation, one select. Any interleaving of
 the sections of any number of calls is a run. Request ids are opaque.
 */
module Broker {
  import opened Sequences
  import opened Wrappers

  type RequestId = nat
  type SendId = nat
  type HandlerId = nat

  /** serial tells two responses with equal contents apart. */
  datatype Response = Response(requestId: RequestId, serial: nat)

  datatype Outcome = Returned(resp: Response) | Unreachable | TimedOut | Cancelled

  /** Registered: in the pending map, SendCommand not done. Leaving: outcome known, deferred delete still to run. */
  datatype Phase = Registered | Waiting | Leaving(outcome: Outcome) | Done(outcome: Outcome)

  /** One Send call with the channel of capacity one that only it reads. */
  datatype Call = Call(requestId: RequestId, phase: Phase, buffer: Option<Response>)

  /** A HandleResponse call that has taken a channel out of the map and not yet written to it. */
  datatype Delivery = Delivery(resp: Response, to: SendId)

  /** arrived and first are history: every response looked up so far, and for each Send the first response
      carrying its id that was looked up while it was in flight. */
  datatype World = World(
    pending: map<RequestId, SendId>,
    calls: map<SendId, Call>,
    deliveries: map<HandlerId, Delivery>,
    arrived: set<Response>,
    first: map<SendId, Response>)

  datatype Event =
    | Register(s: SendId, r: RequestId)
    | Dispatch(s: SendId, reachable: bool)
    | Lookup(h: HandlerId, resp: Response)
    | Deliver(h: HandlerId)
    | Receive(s: SendId)
    | GiveUp(s: SendId, why: Outcome)
    | Unregister(s: SendId)

  const EMPTY := World(map[], map[], map[], {}, map[])

  predicate InFlight(w: World, s: SendId) {
    s in w.calls && !w.calls[s].phase.Done?
  }

  /** The in-flight call a response belongs to, for the history only. */
  ghost predicate Owner(w: World, r: RequestId, s: SendId) {
    InFlight(w, s) && w.calls[s].requestId == r
  }

  ghost function Firsts(w: World, resp: Response): map<SendId, Response> {
    w.first + map s | s in w.calls && Owner(w, resp.requestId, s) && s !in w.first :: resp
  }

  ghost predicate Enabled(w: World, ev: Event) {
    match ev
    case Register(s, r) => s !in w.calls && s !in w.first
    case Dispatch(s, _) => s in w.calls && w.calls[s].phase.Registered?
    case Lookup(h, resp) => h !in w.deliveries && resp !in w.arrived
    case Deliver(h) => h in w.deliveries && w.deliveries[h].to in w.calls
    case Receive(s) => s in w.calls && w.calls[s].phase.Waiting? && w.calls[s].buffer.Some?
    case GiveUp(s, why) => s in w.calls && w.calls[s].phase.Waiting? && (why.TimedOut? || why.Cancelled?)
    case Unregister(s) => s in w.calls && w.calls[s].phase.Leaving?
  }

  ghost function Step(w: World, ev: Event): World
    requires Enabled(w, ev)
  {
    match ev
    case Register(s, r) =>
      w.(pending := w.pending[r := s], calls := w.calls[s := Call(r, Registered, None)])
    case Dispatch(s, reachable) =>
      w.(calls := w.calls[s := w.calls[s].(phase := if reachable then Waiting else Leaving(Unreachable))])
    case Lookup(h, resp) =>
      var w1 := w.(arrived := w.arrived + {resp}, first := Firsts(w, resp));
      if resp.requestId in w.pending then
        w1.(pending := w.pending - {resp.requestId},
            deliveries := w.deliveries[h := Delivery(resp, w.pending[resp.requestId])])
      else w1
    case Deliver(h) =>
      var d := w.deliveries[h];
      var w1 := w.(deliveries := w.deliveries - {h});
      if w.calls[d.to].buffer.None? then
        w1.(calls := w.calls[d.to := w.calls[d.to].(buffer := Some(d.resp))])
      else w1
    case Receive(s) =>
      var c := w.calls[s];
      w.(calls := w.calls[s := c.(phase := Leaving(Returned(c.buffer.value)), buffer := None)])
    case GiveUp(s, why) =>
      w.(calls := w.calls[s := w.calls[s].(phase := Leaving(why))])
    case Unregister(s) =>
      var c := w.calls[s];
      w.(calls := w.calls[s := c.(phase := Done(c.phase.outcome))], pending := w.pending - {c.requestId})
  }

  ghost predicate ValidRun(evs: seq<Event>)
    decreases |evs|, 0
  {
    evs == [] || (ValidRun(Front(evs)) && Enabled(Run(Front(evs)), Last(evs)))
  }

  ghost function Run(evs: seq<Event>): World
    requires ValidRun(evs)
    decreases |evs|, 1
  {
    if evs == [] then EMPTY else Step(Run(Front(evs)), Last(evs))
  }

  /** Callers use a request id for one Send at a time. */
  ghost predicate DistinctIds(w: World, ev: Event) {
    ev.Register? ==> forall t <- w.calls :: !Owner(w, ev.r, t)
  }

  ghost predicate OneSendPerId(evs: seq<Event>)
    requires ValidRun(evs)
  {
    evs == [] || (OneSendPerId(Front(evs)) && DistinctIds(Run(Front(evs)), Last(evs)))
  }

  // ---- the sections as code ---------------------------------------------------------------------

  /** The broker's own state is the pending map; the calls and deliveries are the goroutines using it. */
  class PendingMap {
    var pending: map<RequestId, SendId>
    var calls: map<SendId, Call>
    var deliveries: map<HandlerId, Delivery>
    ghost var arrived: set<Response>
    ghost var first: map<SendId, Response>

    ghost function State(): World
      reads this
    {
      World(pending, calls, deliveries, arrived, first)
    }

    constructor ()
      ensures State() == EMPTY
    {
      pending, calls, deliveries := map[], map[], map[];
      arrived, first := {}, map[];
    }

    /** Send, up to and including the first critical section. */
    method RegisterCall(s: SendId, r: RequestId)
      requires Enabled(State(), Register(s, r))
      modifies this
      ensures State() == Step(old(State()), Register(s, r))
    {
      pending := pending[r := s];
      calls := calls[s := Call(r, Registered, None)];
    }

    /** SendCommand and the check of its error. */
    method DispatchCall(s: SendId, reachable: bool)
      requires Enabled(State(), Dispatch(s, reachable))
      modifies this
      ensures State() == Step(old(State()), Dispatch(s, reachable))
    {
      if !reachable {
        calls := calls[s := calls[s].(phase := Leaving(Unreachable))];
        return;
      }
      calls := calls[s := calls[s].(phase := Waiting)];
    }

    /** HandleResponse's critical section. */
    method TakeWaiter(h: HandlerId, resp: Response) returns (found: bool)
      requires Enabled(State(), Lookup(h, resp))
      modifies this
      ensures State() == Step(old(State()), Lookup(h, resp))
      ensures found <==> resp.requestId in old(pending)
    {
      arrived, first := arrived + {resp}, Firsts(State(), resp);
      found := resp.requestId in pending;
      if found {
        var ch := pending[resp.requestId];
        pending := pending - {resp.requestId};
        deliveries := deliveries[h := Delivery(resp, ch)];
      }
    }

    /** HandleResponse's non-blocking channel send; false is its default branch. */
    method DeliverResponse(h: HandlerId) returns (delivered: bool)
      requires Enabled(State(), Deliver(h))
      modifies this
      ensures State() == Step(old(State()), Deliver(h))
      ensures delivered <==> old(calls[deliveries[h].to].buffer.None?)
    {
      var d := deliveries[h];
      deliveries := deliveries - {h};
      delivered := calls[d.to].buffer.None?;
      if delivered {
        calls := calls[d.to := calls[d.to].(buffer := Some(d.resp))];
      }
    }

    /** One branch of Send's select. */
    method Select(s: SendId, ev: Event) returns (outcome: Outcome)
      requires (ev == Receive(s) || (ev.GiveUp? && ev.s == s)) && Enabled(State(), ev)
      modifies this
      ensures State() == Step(old(State()), ev)
      ensures calls[s].phase == Leaving(outcome)
    {
      var c := calls[s];
      if ev.Receive? {
        outcome := Returned(c.buffer.value);
        c := c.(buffer := None);
      } else {
        outcome := ev.why;
      }
      calls := calls[s := c.(phase := Leaving(outcome))];
    }

    /** Send's deferred delete. */
    method UnregisterCall(s: SendId)
      requires Enabled(State(), Unregister(s))
      modifies this
      ensures State() == Step(old(State()), Unregister(s))
    {
      var c := calls[s];
      pending := pending - {c.requestId};
      calls := calls[s := c.(phase := Done(c.phase.outcome))];
    }
  }

  // ---- the invariant ----------------------------------------------------------------------------

  ghost predicate PendingOk(w: World, r: RequestId)
    requires r in w.pending
  {
    var s := w.pending[r];
    Owner(w, r, s) && w.calls[s].buffer.None? && s !in w.first
  }

  ghost predicate DeliveryOk(w: World, h: HandlerId)
    requires h in w.deliveries
  {
    var d := w.deliveries[h];
    && d.to in w.calls && w.calls[d.to].buffer.None? && w.calls[d.to].requestId == d.resp.requestId
    && d.to in w.first && w.first[d.to] == d.resp
    && !(w.calls[d.to].phase.Leaving? && w.calls[d.to].phase.outcome.Returned?)
    && !(w.calls[d.to].phase.Done? && w.calls[d.to].phase.outcome.Returned?)
  }

  ghost predicate Holds(w: World, h: HandlerId, s: SendId) {
    h in w.deliveries && w.deliveries[h].to == s
  }

  /** The outcome a call is leaving or has left with. */
  function OutcomeOf(c: Call): Option<Outcome> {
    match c.phase
    case Leaving(o) => Some(o)
    case Done(o) => Some(o)
    case _ => None
  }

  ghost predicate CallOk(w: World, s: SendId)
    requires s in w.calls
  {
    var c := w.calls[s];
    && (InFlight(w, s) && s !in w.first ==> c.requestId in w.pending && w.pending[c.requestId] == s)
    && (c.buffer.Some? ==> s in w.first && w.first[s] == c.buffer.value)
    && (OutcomeOf(c).Some? && OutcomeOf(c).value.Returned? ==>
          s in w.first && OutcomeOf(c) == Some(Returned(w.first[s])) && c.buffer.None?)
    && (s in w.first && (c.phase.Registered? || c.phase.Waiting?) ==>
          c.buffer.Some? || exists h <- w.deliveries :: Holds(w, h, s))
  }

  ghost predicate PendingsOk(w: World) {
    forall r {:trigger PendingOk(w, r)} :: r in w.pending ==> PendingOk(w, r)
  }

  ghost predicate DeliveriesOk(w: World) {
    && (forall h {:trigger DeliveryOk(w, h)} :: h in w.deliveries ==> DeliveryOk(w, h))
    && (forall h <- w.deliveries, g <- w.deliveries :: w.deliveries[h].to == w.deliveries[g].to ==> h == g)
  }

  ghost predicate IdsDistinct(w: World) {
    forall s <- w.calls, t <- w.calls ::
      InFlight(w, s) && InFlight(w, t) && w.calls[s].requestId == w.calls[t].requestId ==> s == t
  }

  ghost predicate CallsOk(w: World) {
    (forall s {:trigger CallOk(w, s)} :: s in w.calls ==> CallOk(w, s)) && IdsDistinct(w)
  }

  ghost predicate FirstsOk(w: World) {
    && (forall s <- w.first :: s in w.calls && w.first[s] in w.arrived && w.first[s].requestId == w.calls[s].requestId)
    && (forall s <- w.first, t <- w.first :: w.first[s] == w.first[t] ==> s == t)
  }

  ghost predicate Inv(w: World) {
    PendingsOk(w) && DeliveriesOk(w) && CallsOk(w) && FirstsOk(w)
  }

  lemma StepKeepsInv(w: World, ev: Event)
    requires Inv(w) && Enabled(w, ev) && DistinctIds(w, ev)
    ensures Inv(Step(w, ev))
  {
    match ev {
      case Register(s, r) => RegisterKeepsInv(w, s, r);
      case Lookup(h, resp) => LookupKeepsInv(w, h, resp);
      case Deliver(h) => DeliverKeepsInv(w, h);
      case _ => PhaseKeepsInv(w, ev);
    }
  }

  lemma RegisterKeepsInv(w: World, s: SendId, r: RequestId)
    requires Inv(w) && Enabled(w, Register(s, r)) && DistinctIds(w, Register(s, r))
    ensures Inv(Step(w, Register(s, r)))
  {
    var w' := Step(w, Register(s, r));
    forall q <- w'.pending ensures PendingOk(w', q) {
      assert q in w.pending ==> PendingOk(w, q);
    }
    forall h <- w'.deliveries ensures DeliveryOk(w', h) {
      assert DeliveryOk(w, h);
    }
    forall t <- w'.calls ensures CallOk(w', t) {
      if t != s {
        assert CallOk(w, t) && !Owner(w, r, t);
        RegisterKeepsCall(w, s, r, t);
      }
    }
    RegisterKeepsIds(w, s, r);
  }

  lemma RegisterKeepsCall(w: World, s: SendId, r: RequestId, t: SendId)
    requires Enabled(w, Register(s, r)) && t in w.calls && CallOk(w, t) && !Owner(w, r, t)
    ensures CallOk(Step(w, Register(s, r)), t)
  {
    if h :| h in w.deliveries && Holds(w, h, t) {
      assert Holds(Step(w, Register(s, r)), h, t);
    }
  }

  lemma RegisterKeepsIds(w: World, s: SendId, r: RequestId)
    requires IdsDistinct(w) && Enabled(w, Register(s, r)) && DistinctIds(w, Register(s, r))
    ensures IdsDistinct(Step(w, Register(s, r)))
  {
    var w' := Step(w, Register(s, r));
    forall t <- w'.calls, u <- w'.calls |
      InFlight(w', t) && InFlight(w', u) && w'.calls[t].requestId == w'.calls[u].requestId ensures t == u
    {
      assert t in w.calls ==> !Owner(w, r, t);
      assert u in w.calls ==> !Owner(w, r, u);
      assert t in w.calls && u in w.calls ==> InFlight(w, t) && InFlight(w, u);
    }
  }

  /** Dispatch, Receive, GiveUp and Unregister change one call's phase, at most empty its buffer, and at most take
      its own entry out of the map. */
  lemma PhaseKeepsDeliveries(w: World, ev: Event)
    requires PendingsOk(w) && DeliveriesOk(w)
    requires Enabled(w, ev) && (ev.Dispatch? || ev.Receive? || ev.GiveUp? || ev.Unregister?) && CallOk(w, ev.s)
    ensures PendingsOk(Step(w, ev)) && DeliveriesOk(Step(w, ev))
  {
    var w' := Step(w, ev);
    forall q <- w'.pending ensures PendingOk(w', q) {
      assert PendingOk(w, q);
    }
    forall h <- w'.deliveries ensures DeliveryOk(w', h) {
      assert DeliveryOk(w, h);
    }
  }

  lemma PhaseKeepsCall(w: World, ev: Event)
    requires Inv(w) && Enabled(w, ev) && (ev.Dispatch? || ev.Receive? || ev.GiveUp? || ev.Unregister?)
    ensures CallOk(Step(w, ev), ev.s)
  {
    var w' := Step(w, ev);
    assert CallOk(w, ev.s);
    if h :| h in w.deliveries && Holds(w, h, ev.s) {
      assert Holds(w', h, ev.s);
    }
  }

  lemma PhaseKeepsOtherCall(w: World, ev: Event, t: SendId)
    requires Enabled(w, ev) && (ev.Dispatch? || ev.Receive? || ev.GiveUp? || ev.Unregister?)
    requires IdsDistinct(w) && t in w.calls && t != ev.s && CallOk(w, t)
    ensures t in Step(w, ev).calls && CallOk(Step(w, ev), t)
  {
    var w' := Step(w, ev);
    if h :| h in w.deliveries && Holds(w, h, t) {
      assert Holds(w', h, t);
    }
  }

  lemma PhaseKeepsIds(w: World, ev: Event)
    requires IdsDistinct(w) && FirstsOk(w)
    requires Enabled(w, ev) && (ev.Dispatch? || ev.Receive? || ev.GiveUp? || ev.Unregister?)
    ensures IdsDistinct(Step(w, ev)) && FirstsOk(Step(w, ev))
  {
    var w' := Step(w, ev);
    forall t <- w'.calls ensures InFlight(w', t) ==> InFlight(w, t) && w'.calls[t].requestId == w.calls[t].requestId {
    }
  }

  lemma PhaseKeepsInv(w: World, ev: Event)
    requires Inv(w) && Enabled(w, ev) && (ev.Dispatch? || ev.Receive? || ev.GiveUp? || ev.Unregister?)
    ensures Inv(Step(w, ev))
  {
    var w' := Step(w, ev);
    assert CallOk(w, ev.s);
    PhaseKeepsDeliveries(w, ev);
    PhaseKeepsIds(w, ev);
    forall t | t in w'.calls ensures CallOk(w', t) {
      if t == ev.s {
        PhaseKeepsCall(w, ev);
      } else {
        assert CallOk(w, t);
        PhaseKeepsOtherCall(w, ev, t);
      }
    }
  }

  lemma LookupKeepsInv(w: World, h: HandlerId, resp: Response)
    requires Inv(w) && Enabled(w, Lookup(h, resp))
    ensures Inv(Step(w, Lookup(h, resp)))
  {
    LookupKeepsPending(w, h, resp);
    LookupKeepsDeliveries(w, h, resp);
    LookupKeepsCalls(w, h, resp);
  }

  /** The call that owns a looked-up id is the one the map names, unless it was answered before. */
  lemma LookupFinds(w: World, h: HandlerId, resp: Response, s: SendId)
    requires Inv(w) && Enabled(w, Lookup(h, resp)) && Owner(w, resp.requestId, s)
    ensures if s in w.first then resp.requestId !in w.pending
            else resp.requestId in w.pending && w.pending[resp.requestId] == s
    ensures forall t <- w.calls :: Owner(w, resp.requestId, t) ==> t == s
  {
    assert CallOk(w, s);
    if resp.requestId in w.pending {
      assert PendingOk(w, resp.requestId);
    }
  }

  lemma LookupKeepsPending(w: World, h: HandlerId, resp: Response)
    requires Inv(w) && Enabled(w, Lookup(h, resp))
    ensures PendingsOk(Step(w, Lookup(h, resp))) && FirstsOk(Step(w, Lookup(h, resp)))
  {
    var w' := Step(w, Lookup(h, resp));
    forall q <- w'.pending ensures PendingOk(w', q) {
      assert PendingOk(w, q);
    }
    forall s <- w'.first, t <- w'.first | w'.first[s] == w'.first[t] ensures s == t {
      if s !in w.first {
        LookupFinds(w, h, resp, s);
      } else if t !in w.first {
        LookupFinds(w, h, resp, t);
      }
    }
  }

  lemma LookupKeepsDeliveries(w: World, h: HandlerId, resp: Response)
    requires PendingsOk(w) && DeliveriesOk(w) && (forall s <- w.calls :: CallOk(w, s)) && Enabled(w, Lookup(h, resp))
    ensures DeliveriesOk(Step(w, Lookup(h, resp)))
  {
    var w' := Step(w, Lookup(h, resp));
    forall g <- w'.deliveries ensures DeliveryOk(w', g) {
      if g in w.deliveries {
        assert DeliveryOk(w, g);
      } else {
        assert PendingOk(w, resp.requestId) && CallOk(w, w.pending[resp.requestId]);
      }
    }
    forall g <- w'.deliveries, i <- w'.deliveries | w'.deliveries[g].to == w'.deliveries[i].to ensures g == i {
      assert resp.requestId in w.pending ==> PendingOk(w, resp.requestId);
      assert g in w.deliveries ==> DeliveryOk(w, g);
      assert i in w.deliveries ==> DeliveryOk(w, i);
    }
  }

  lemma LookupKeepsCalls(w: World, h: HandlerId, resp: Response)
    requires Inv(w) && Enabled(w, Lookup(h, resp))
    ensures CallsOk(Step(w, Lookup(h, resp)))
  {
    var w' := Step(w, Lookup(h, resp));
    forall s <- w'.calls ensures CallOk(w', s) {
      LookupKeepsCall(w, h, resp, s);
    }
    forall s <- w'.calls ensures InFlight(w', s) == InFlight(w, s) {
    }
  }

  lemma LookupKeepsCall(w: World, h: HandlerId, resp: Response, s: SendId)
    requires Inv(w) && Enabled(w, Lookup(h, resp)) && s in w.calls
    ensures CallOk(Step(w, Lookup(h, resp)), s)
  {
    var w' := Step(w, Lookup(h, resp));
    assert CallOk(w, s);
    if g :| g in w.deliveries && Holds(w, g, s) {
      assert Holds(w', g, s);
    }
    if Owner(w, resp.requestId, s) {
      LookupFinds(w, h, resp, s);
      assert s !in w.first ==> Holds(w', h, s);
    }
  }

  lemma DeliverKeepsInv(w: World, h: HandlerId)
    requires Inv(w) && Enabled(w, Deliver(h))
    ensures Inv(Step(w, Deliver(h)))
  {
    var w' := Step(w, Deliver(h));
    assert DeliveryOk(w, h);
    forall r <- w'.pending ensures PendingOk(w', r) {
      assert PendingOk(w, r);
    }
    forall g <- w'.deliveries ensures DeliveryOk(w', g) {
      assert DeliveryOk(w, g);
    }
    forall s <- w'.calls ensures CallOk(w', s) {
      assert CallOk(w, s);
      DeliverKeepsCall(w, h, s);
    }
    forall s <- w'.calls ensures InFlight(w', s) == InFlight(w, s) && w'.calls[s].requestId == w.calls[s].requestId {
    }
  }

  lemma DeliverKeepsCall(w: World, h: HandlerId, s: SendId)
    requires Enabled(w, Deliver(h)) && DeliveryOk(w, h) && s in w.calls && CallOk(w, s)
    ensures s in Step(w, Deliver(h)).calls && CallOk(Step(w, Deliver(h)), s)
  {
    if g :| g in w.deliveries && Holds(w, g, s) && s != w.deliveries[h].to {
      assert Holds(Step(w, Deliver(h)), g, s);
    }
  }

  lemma {:induction false} RunKeepsInv(evs: seq<Event>)
    requires ValidRun(evs) && OneSendPerId(evs)
    ensures Inv(Run(evs))
  {
    if evs != [] {
      RunKeepsInv(Front(evs));
      StepKeepsInv(Run(Front(evs)), Last(evs));
    }
  }

  // ---- what callers can rely on -----------------------------------------------------------------

  /** Which events look up a response with s's id while s is in flight. */
  ghost function Arrivals(evs: seq<Event>, s: SendId): (flags: seq<bool>)
    requires ValidRun(evs)
    ensures |flags| == |evs|
  {
    if evs == [] then []
    else Arrivals(Front(evs), s) + [Last(evs).Lookup? && Owner(Run(Front(evs)), Last(evs).resp.requestId, s)]
  }

  predicate FirstAt(flags: seq<bool>, i: nat) {
    i < |flags| && flags[i] && forall j: nat :: j < i ==> !flags[j]
  }

  lemma StepFirst(w: World, ev: Event, s: SendId)
    requires Enabled(w, ev)
    ensures s in w.first ==> s in Step(w, ev).first && Step(w, ev).first[s] == w.first[s]
    ensures s !in w.first ==>
              if ev.Lookup? && Owner(w, ev.resp.requestId, s)
              then s in Step(w, ev).first && Step(w, ev).first[s] == ev.resp
              else s !in Step(w, ev).first
  {
  }

  /** The history variable says what its name promises, in terms of the events alone. */
  ghost predicate FirstExplained(evs: seq<Event>, s: SendId)
    requires ValidRun(evs)
  {
    var flags := Arrivals(evs, s);
    if s in Run(evs).first then
      exists i: nat :: FirstAt(flags, i) && evs[i].Lookup? && evs[i].resp == Run(evs).first[s]
    else forall i :: 0 <= i < |flags| ==> !flags[i]
  }

  lemma {:induction false} FirstIsFirstArrival(evs: seq<Event>, s: SendId)
    requires ValidRun(evs)
    ensures FirstExplained(evs, s)
  {
    if evs != [] {
      var before, flags := Run(Front(evs)), Arrivals(evs, s);
      FirstIsFirstArrival(Front(evs), s);
      StepFirst(before, Last(evs), s);
      if s in before.first {
        var i: nat :| FirstAt(Arrivals(Front(evs), s), i)
                   && Front(evs)[i].Lookup? && Front(evs)[i].resp == before.first[s];
        assert FirstAt(flags, i);
      } else {
        assert flags[|evs| - 1] ==> FirstAt(flags, |evs| - 1);
      }
    }
  }

  /** A Send that returns a response returns the first one carrying its own id that arrived while it was in flight. */
  lemma ReturnsFirstOwnResponse(evs: seq<Event>, s: SendId, resp: Response)
    requires ValidRun(evs) && OneSendPerId(evs)
    requires s in Run(evs).calls && OutcomeOf(Run(evs).calls[s]) == Some(Returned(resp))
    ensures resp.requestId == Run(evs).calls[s].requestId && s in Run(evs).first && Run(evs).first[s] == resp
    ensures exists i: nat :: FirstAt(Arrivals(evs, s), i) && evs[i].Lookup? && evs[i].resp == resp
  {
    RunKeepsInv(evs);
    FirstIsFirstArrival(evs, s);
    assert CallOk(Run(evs), s);
  }

  /** No response is consumed by two Sends. */
  lemma ConsumedOnce(evs: seq<Event>, s: SendId, t: SendId, resp: Response)
    requires ValidRun(evs) && OneSendPerId(evs) && s in Run(evs).calls && t in Run(evs).calls
    requires OutcomeOf(Run(evs).calls[s]) == Some(Returned(resp))
    requires OutcomeOf(Run(evs).calls[t]) == Some(Returned(resp))
    ensures s == t
  {
    RunKeepsInv(evs);
    ReturnsFirstOwnResponse(evs, s, resp);
    ReturnsFirstOwnResponse(evs, t, resp);
  }

  /** The non-blocking send never takes its default branch: a channel is written at most once. */
  lemma DeliveryAlwaysFits(evs: seq<Event>, h: HandlerId)
    requires ValidRun(evs) && OneSendPerId(evs) && h in Run(evs).deliveries
    ensures Enabled(Run(evs), Deliver(h)) && Run(evs).calls[Run(evs).deliveries[h].to].buffer.None?
  {
    RunKeepsInv(evs);
    assert DeliveryOk(Run(evs), h);
  }

  /** Every entry of the map belongs to a Send that has not returned. */
  lemma PendingNamesInFlight(evs: seq<Event>, r: RequestId)
    requires ValidRun(evs) && OneSendPerId(evs) && r in Run(evs).pending
    ensures InFlight(Run(evs), Run(evs).pending[r])
  {
    RunKeepsInv(evs);
    assert PendingOk(Run(evs), r);
  }

  /** Nothing is left in the pending map once every Send has returned. */
  lemma PendingDrains(evs: seq<Event>)
    requires ValidRun(evs) && OneSendPerId(evs) && forall s <- Run(evs).calls :: Run(evs).calls[s].phase.Done?
    ensures Run(evs).pending == map[]
  {
    forall r | r in Run(evs).pending ensures InFlight(Run(evs), Run(evs).pending[r]) {
      PendingNamesInFlight(evs, r);
    }
  }

  /** An unanswered Send is found by the next response with its id, and an answered one that still waits has its
      response in its channel or about to be put there. */
  lemma NoWaiterIsForgotten(evs: seq<Event>, s: SendId)
    requires ValidRun(evs) && OneSendPerId(evs) && s in Run(evs).calls
    requires Run(evs).calls[s].phase.Registered? || Run(evs).calls[s].phase.Waiting?
    ensures var w := Run(evs);
            if s in w.first then
              || w.calls[s].buffer == Some(w.first[s])
              || exists h <- w.deliveries :: w.deliveries[h] == Delivery(w.first[s], s)
            else w.calls[s].requestId in w.pending && w.pending[w.calls[s].requestId] == s
  {
    var w := Run(evs);
    RunKeepsInv(evs);
    assert CallOk(w, s);
    if s in w.first && w.calls[s].buffer.None? {
      var h :| h in w.deliveries && Holds(w, h, s);
      assert DeliveryOk(w, h);
    }
  }

  // ---- how a Send leaves ------------------------------------------------------------------------

  /** What the events say of a Send: its id, how far it has come, and what it leaves with. */
  ghost predicate Explained(evs: seq<Event>, s: SendId, c: Call) {
    && Register(s, c.requestId) in evs
    && (c.phase.Registered? <==> Dispatch(s, true) !in evs && Dispatch(s, false) !in evs)
    && (OutcomeOf(c) == Some(Unreachable) <==> Dispatch(s, false) in evs)
    && (OutcomeOf(c) == Some(TimedOut) <==> GiveUp(s, TimedOut) in evs)
    && (OutcomeOf(c) == Some(Cancelled) <==> GiveUp(s, Cancelled) in evs)
    && (OutcomeOf(c).Some? && OutcomeOf(c).value.Returned? <==> Receive(s) in evs)
    && (c.phase.Done? <==> Unregister(s) in evs)
  }

  predicate Concerns(ev: Event, s: SendId) {
    match ev
    case Register(t, _) => t == s
    case Dispatch(t, _) => t == s
    case Receive(t) => t == s
    case GiveUp(t, _) => t == s
    case Unregister(t) => t == s
    case _ => false
  }

  /** Other events leave a Send's id and phase alone, and only its registration brings it into being. */
  lemma OthersDoNotConcern(w: World, ev: Event, s: SendId)
    requires Enabled(w, ev) && !Concerns(ev, s)
    ensures s in Step(w, ev).calls <==> s in w.calls
    ensures s in w.calls ==>
              Step(w, ev).calls[s].requestId == w.calls[s].requestId && Step(w, ev).calls[s].phase == w.calls[s].phase
  {
  }

  ghost predicate NoneConcern(evs: seq<Event>, s: SendId) {
    forall ev <- evs :: !Concerns(ev, s)
  }

  ghost predicate CallExplained(evs: seq<Event>, s: SendId)
    requires ValidRun(evs)
  {
    if s in Run(evs).calls then Explained(evs, s, Run(evs).calls[s]) else NoneConcern(evs, s)
  }

  lemma OneMoreEvent(evs: seq<Event>, ev: Event)
    requires evs != []
    ensures ev in evs <==> ev in Front(evs) || ev == Last(evs)
  {
    assert evs == Front(evs) + [Last(evs)];
  }

  lemma Unconcerned(evs: seq<Event>, s: SendId)
    requires evs != [] && ValidRun(evs) && CallExplained(Front(evs), s) && !Concerns(Last(evs), s)
    ensures CallExplained(evs, s)
  {
    var w := Run(Front(evs));
    OthersDoNotConcern(w, Last(evs), s);
    hide Step;
    forall ev | Concerns(ev, s) ensures ev in evs <==> ev in Front(evs) {
      OneMoreEvent(evs, ev);
    }
    if s !in w.calls {
      forall ev <- evs ensures !Concerns(ev, s) {
        OneMoreEvent(evs, ev);
      }
    }
  }

  lemma Concerned(evs: seq<Event>, s: SendId)
    requires evs != [] && ValidRun(evs) && CallExplained(Front(evs), s) && Concerns(Last(evs), s)
    ensures CallExplained(evs, s)
  {
    forall ev ensures ev in evs <==> ev in Front(evs) || ev == Last(evs) {
      OneMoreEvent(evs, ev);
    }
    if Last(evs).Register? {
      forall ev | Concerns(ev, s) ensures ev !in Front(evs) {
      }
    }
  }

  /** A Send leaves with "agent not reachable" if and only if its dispatch found no agent, with a timeout or a
      cancellation if and only if it gave up with that one, and with a response if and only if it received one. */
  lemma {:induction false} CallFollowsEvents(evs: seq<Event>, s: SendId)
    requires ValidRun(evs)
    ensures CallExplained(evs, s)
  {
    if evs != [] {
      CallFollowsEvents(Front(evs), s);
      if Concerns(Last(evs), s) {
        Concerned(evs, s);
      } else {
        Unconcerned(evs, s);
      }
    }
  }

  // ---- which runs keep every waiter listed ------------------------------------------------------

  /** A Send that has not been answered and still wants to be. */
  ghost predicate Awaits(w: World, t: SendId) {
    t in w.calls && (w.calls[t].phase.Registered? || w.calls[t].phase.Waiting?) && t !in w.first
  }

  /** Every such Send is the one the map names for its id, so the next response with that id finds it. */
  ghost predicate AllListed(w: World) {
    forall t <- w.calls :: Awaits(w, t) ==> w.calls[t].requestId in w.pending && w.pending[w.calls[t].requestId] == t
  }

  /** The call registers an id that another Send is waiting with, or leaves one to which another Send has come. */
  ghost predicate Collides(w: World, ev: Event)
    requires Enabled(w, ev)
  {
    match ev
    case Register(_, r) => exists t <- w.calls :: Awaits(w, t) && w.calls[t].requestId == r
    case Unregister(s) => exists t <- w.calls :: Awaits(w, t) && w.calls[t].requestId == w.calls[s].requestId
    case _ => false
  }

  lemma ListedExactlyWhen(w: World, ev: Event)
    requires Enabled(w, ev) && AllListed(w)
    ensures AllListed(Step(w, ev)) <==> !Collides(w, ev)
  {
    var w' := Step(w, ev);
    forall t <- w.calls ensures Awaits(w', t) ==> Awaits(w, t) && w'.calls[t].requestId == w.calls[t].requestId {
    }
    if ev.Register? || ev.Unregister? {
      forall t <- w.calls ensures Awaits(w, t) ==> Awaits(w', t) {
      }
    }
  }

  ghost predicate AlwaysListed(evs: seq<Event>)
    requires ValidRun(evs)
  {
    AllListed(Run(evs)) && (evs != [] ==> AlwaysListed(Front(evs)))
  }

  ghost predicate NeverCollides(evs: seq<Event>)
    requires ValidRun(evs)
  {
    evs == [] || (NeverCollides(Front(evs)) && !Collides(Run(Front(evs)), Last(evs)))
  }

  /** Whatever ids the callers use, every unanswered waiter stays listed throughout a run if and only if no Send
      registers an id another one waits with, and none leaves its id to one that has come since. */
  lemma {:induction false} ListedUnlessCollides(evs: seq<Event>)
    requires ValidRun(evs)
    ensures AlwaysListed(evs) <==> NeverCollides(evs)
  {
    if evs != [] {
      ListedUnlessCollides(Front(evs));
      if AlwaysListed(Front(evs)) {
        assert AllListed(Run(Front(evs)));
        ListedExactlyWhen(Run(Front(evs)), Last(evs));
      }
    }
  }

  lemma AfterOne(evs: seq<Event>, ev: Event, w: World) returns (longer: seq<Event>)
    requires ValidRun(evs) && Enabled(Run(evs), ev) && w == Step(Run(evs), ev)
    ensures longer == evs + [ev] && ValidRun(longer) && Run(longer) == w
  {
    longer := evs + [ev];
    assert Front(longer) == evs;
  }

  function Alone(pending: map<RequestId, SendId>, calls: map<SendId, Call>): World {
    World(pending, calls, map[], {}, map[])
  }

  /** Two Sends share an id: the first times out, the second registers, and the first takes its entry along. */
  lemma SharedIdForgetsWaiter()
    ensures exists evs: seq<Event>, t: SendId ::
              ValidRun(evs) && Awaits(Run(evs), t) && Run(evs).calls[t].requestId !in Run(evs).pending
  {
    var one, two := Call(7, Leaving(TimedOut), None), Call(7, Registered, None);
    var evs := AfterOne([], Register(1, 7), Alone(map[7 := 1], map[1 := Call(7, Registered, None)]));
    evs := AfterOne(evs, Dispatch(1, true), Alone(map[7 := 1], map[1 := Call(7, Waiting, None)]));
    evs := AfterOne(evs, GiveUp(1, TimedOut), Alone(map[7 := 1], map[1 := one]));
    evs := AfterOne(evs, Register(2, 7), Alone(map[7 := 2], map[1 := one, 2 := two]));
    evs := AfterOne(evs, Unregister(1), Alone(map[], map[1 := Call(7, Done(TimedOut), None), 2 := two]));
    assert Awaits(Run(evs), 2);
  }
}
