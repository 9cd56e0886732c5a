/**
 The JavaScript side of a subscription: `dispatch`, acknowledgement and `close` of `MonitorLogSubscription`,
 `ObjectWatch` and `ImageUpdateWatch`, and the replay of events that came in before the object existed.

 JavaScript runs one callback at a time, so a subscription's life is a sequence of inputs. What the
 listeners do during an `emit` is part of the input.
 */
module Dispatch {
  import opened Sums
  import opened Wrappers
  import opened Delivery

  /** What a subscription emits. The arrival number stands for the identity of the signal. */
  datatype Emission =
    | Notification(arrival: nat, dropped: nat)
    | Log(arrival: nat, dropped: nat)
    | Update(arrival: nat, coalesced: nat)
    | Overflow(dropped: nat)
    | Error(code: int)
    | Closed
  {
    predicate Carries() { Notification? || Log? || Update? }
  }

  /**
   What the listeners do: close during the overflow event, acknowledge so many times, close during the
   main event; and `hears`, whether there is a listener for errors at all.
   */
  datatype Reaction = Reaction(hears: bool, closesEarly: bool, acks: nat, closes: bool)

  /** During the replay nobody can have attached a listener yet. */
  const NO_REACTION := Reaction(false, false, 0, false)

  /** A notification handed to the listeners, with the `acknowledged` flag its `ack` closes over. */
  datatype Notice = Notice(arrival: nat, acknowledged: bool)

  /**
   `acks`: the native acknowledgements initiated; `handleCloses`: the native closes initiated; `resolving`: one of
   these is still to resolve.
   */
  datatype Subscription = Subscription(flavour: Flavour, autoAck: bool, closed: bool, trace: seq<Emission>,
                                       notices: seq<Notice>, acks: seq<nat>, handleCloses: nat, resolving: bool)
  {
    function Emit(e: Emission): Subscription { this.(trace := trace + [e]) }

    /** The synchronous part of `close`. */
    function BeginClose(): Subscription
    {
      if closed then this else this.(closed := true, handleCloses := handleCloses + 1, resolving := true)
    }

    /** The rest of `close`, when the native close has resolved. */
    function EndClose(): Subscription { if resolving then this.(resolving := false).Emit(Closed) else this }

    function BeginCloseIf(b: bool): Subscription { if b then BeginClose() else this }

    /** `ack` of the `i`-th notification: the second and later calls reject and do nothing. */
    function Ack(i: nat): Subscription
      requires i < |notices|
    {
      if notices[i].acknowledged then this
      else this.(notices := notices[i := notices[i].(acknowledged := true)], acks := acks + [notices[i].arrival])
    }
  }

  function New(flavour: Flavour, autoAck: bool): Subscription
  {
    Subscription(flavour, autoAck, false, [], [], [], 0, false)
  }

  function EmitOverflow(s: Subscription, dropped: nat, closes: bool): Subscription
  {
    if dropped > 0 then s.Emit(Overflow(dropped)).BeginCloseIf(closes) else s
  }

  /** Hand out a notification, let the listeners react, and acknowledge for them if they did not. */
  function HandOut(s: Subscription, a: nat, dropped: nat, r: Reaction): Subscription
  {
    var i := |s.notices|;
    var emitted := s.(notices := s.notices + [Notice(a, false)]).Emit(Notification(a, dropped));
    var reacted := (if r.acks > 0 then emitted.Ack(i) else emitted).BeginCloseIf(r.closes);
    if s.autoAck then reacted.Ack(i) else reacted
  }

  /** An emitter throws the error that it is to emit when nobody listens for errors. */
  predicate Throws(s: Subscription, e: Event, r: Reaction) { !s.closed && e.Failure? && !r.hears }

  function Dispatched(s: Subscription, e: Event, r: Reaction): Subscription
  {
    if s.closed || Throws(s, e, r) then s
    else
      match e
      case Failure(code) => s.Emit(Error(code)).BeginCloseIf(r.closes)
      case Signal(a, p) =>
        match s.flavour
        case ImageUpdates => s.Emit(Update(a, p)).BeginCloseIf(r.closes)
        case MonitorLines => EmitOverflow(s, p, r.closesEarly).Emit(Log(a, p)).BeginCloseIf(r.closes)
        case ObjectNotices => HandOut(EmitOverflow(s, p, r.closesEarly), a, p, r)
  }

  datatype Input = Deliver(e: Event, r: Reaction) | LateAck(i: nat) | CloseCall | CloseResolved

  function Step(s: Subscription, input: Input): Subscription
  {
    match input
    case Deliver(e, r) => Dispatched(s, e, r)
    case LateAck(i) => if i < |s.notices| then s.Ack(i) else s
    case CloseCall => s.BeginClose()
    case CloseResolved => s.EndClose()
  }

  function Run(s: Subscription, inputs: seq<Input>): Subscription
  {
    if inputs == [] then s else Step(Run(s, inputs[..|inputs| - 1]), inputs[|inputs| - 1])
  }

  function EventsIn(inputs: seq<Input>): seq<Event>
  {
    if inputs == [] then []
    else
      var last := inputs[|inputs| - 1];
      var before := EventsIn(inputs[..|inputs| - 1]);
      if last.Deliver? then before + [last.e] else before
  }

  /** The events dispatched while the subscription is open. */
  function OpenEvents(s: Subscription, inputs: seq<Input>): seq<Event>
  {
    if inputs == [] then []
    else
      var front, last := inputs[..|inputs| - 1], inputs[|inputs| - 1];
      if last.Deliver? && !Run(s, front).closed then OpenEvents(s, front) + [last.e] else OpenEvents(s, front)
  }

  function Replay(early: seq<Event>): seq<Input>
  {
    seq(|early|, i requires 0 <= i < |early| => Input.Deliver(early[i], NO_REACTION))
  }

  /** How many early events are replayed before one of them throws, or all of them. */
  function Survivors(early: seq<Event>): (n: nat)
    ensures n <= |early| && (n < |early| ==> early[n].Failure?)
    ensures forall k :: 0 <= k < n ==> early[k].Signal?
  {
    if early == [] || early[0].Failure? then 0 else 1 + Survivors(early[1..])
  }

  /**
   What `watch`, `monitorLogs` and `watchUpdates` come to, given what came in early: the subscription, or the
   error that its replay throws. Node.js delivers events from its event loop only, so that none comes in early.
   */
  function Replayed(flavour: Flavour, autoAck: bool, early: seq<Event>): Result<Subscription, int>
  {
    var n := Survivors(early);
    if n < |early| then Err(early[n].code) else Ok(Run(New(flavour, autoAck), Replay(early)))
  }

  lemma {:induction false} RunConcat(s: Subscription, a: seq<Input>, b: seq<Input>)
    ensures Run(s, a + b) == Run(Run(s, a), b)
    ensures EventsIn(a + b) == EventsIn(a) + EventsIn(b)
  {
    if b == [] {
      assert a + b == a;
    } else {
      assert (a + b)[..|a + b| - 1] == a + b[..|b| - 1];
      RunConcat(s, a, b[..|b| - 1]);
    }
  }

  lemma {:induction false} ReplayEvents(early: seq<Event>)
    ensures EventsIn(Replay(early)) == early
  {
    if early != [] {
      var front := early[..|early| - 1];
      assert Replay(early)[..|early| - 1] == Replay(front);
      ReplayEvents(front);
    }
  }

  // ---------------------------------------------------------------- what the trace tells

  /** How many signals an emission tells the listeners about. */
  function Told(e: Emission): nat
  {
    match e
    case Notification(_, _) => 1
    case Log(_, _) => 1
    case Update(_, coalesced) => coalesced
    case Overflow(dropped) => dropped
    case _ => 0
  }

  function ToldOf(): Emission -> nat { (e: Emission) => Told(e) }

  /** From the trace alone one reads off the arrival number of everything in it. */
  predicate Readable(trace: seq<Emission>)
  {
    forall i :: 0 <= i < |trace| && trace[i].Carries() ==> trace[i].arrival + 1 == Sum(ToldOf(), trace[..i + 1])
  }

  lemma ReadablePrefix(trace: seq<Emission>, n: nat)
    requires Readable(trace) && n <= |trace|
    ensures Readable(trace[..n])
  {
    forall i | 0 <= i < n && trace[i].Carries()
      ensures trace[..n][..i + 1] == trace[..i + 1]
    {
    }
  }

  /** The last emission completes the sum, if it carries a signal. */
  predicate Completes(trace: seq<Emission>, e: Emission)
  {
    e.Carries() ==> e.arrival + 1 == Sum(ToldOf(), trace) + Told(e)
  }

  lemma LastCompletes(trace: seq<Emission>, e: Emission)
    requires Readable(trace + [e])
    ensures Completes(trace, e)
  {
    var all := trace + [e];
    SumAppend(ToldOf(), trace, e);
    assert all[|trace|] == e && all[..|trace| + 1] == all;
  }

  lemma StillReadable(trace: seq<Emission>, e: Emission)
    requires Readable(trace) && Completes(trace, e)
    ensures Readable(trace + [e])
  {
    var all := trace + [e];
    SumAppend(ToldOf(), trace, e);
    forall i | 0 <= i < |all| && all[i].Carries()
      ensures all[i].arrival + 1 == Sum(ToldOf(), all[..i + 1])
    {
      if i < |trace| {
        assert all[i] == trace[i] && all[..i + 1] == trace[..i + 1];
      } else {
        assert all[..i + 1] == all;
      }
    }
  }

  lemma ReadableAppend(trace: seq<Emission>, e: Emission)
    ensures Sum(ToldOf(), trace + [e]) == Sum(ToldOf(), trace) + Told(e)
    ensures Readable(trace + [e]) <==> Readable(trace) && Completes(trace, e)
  {
    SumAppend(ToldOf(), trace, e);
    if Readable(trace + [e]) {
      ReadablePrefix(trace + [e], |trace|);
      assert (trace + [e])[..|trace|] == trace;
      LastCompletes(trace, e);
    } else if Readable(trace) && Completes(trace, e) {
      StillReadable(trace, e);
    }
  }

  /** What one event adds to the trace of an open subscription. */
  function Emissions(flavour: Flavour, e: Event, hears: bool): seq<Emission>
  {
    match e
    case Failure(code) => if hears then [Error(code)] else []
    case Signal(a, p) =>
      if flavour.ImageUpdates? then [Update(a, p)]
      else (if p > 0 then [Overflow(p)] else []) + [if flavour.MonitorLines? then Log(a, p) else Notification(a, p)]
  }

  /** `s'` is `s`, closed if `b` says so: the native close is initiated by the first close only. */
  predicate ClosesIf(s: Subscription, s': Subscription, b: bool)
  {
    && s'.closed == (s.closed || b)
    && s'.handleCloses == s.handleCloses + (if b && !s.closed then 1 else 0)
    && s'.resolving == (s.resolving || (b && !s.closed))
  }

  /** `s'` has handed out this notification, acknowledged as said; no other. */
  predicate HandsOut(s: Subscription, s': Subscription, notice: Notice)
  {
    s'.notices == s.notices + [notice] && s'.acks == s.acks + if notice.acknowledged then [notice.arrival] else []
  }

  predicate HandsOutNone(s: Subscription, s': Subscription) { s'.notices == s.notices && s'.acks == s.acks }

  lemma HandOutOutcome(s: Subscription, a: nat, p: nat, r: Reaction)
    ensures var s' := HandOut(s, a, p, r);
            && s'.flavour == s.flavour && s'.autoAck == s.autoAck
            && s'.trace == s.trace + [Notification(a, p)] && ClosesIf(s, s', r.closes)
            && HandsOut(s, s', Notice(a, s.autoAck || r.acks > 0))
  {
    var notices := s.notices + [Notice(a, false)];
    assert notices[|s.notices| := Notice(a, true)] == s.notices + [Notice(a, true)];
  }

  /** What a closed subscription, and an error that nobody hears, come to: nothing. */
  lemma DispatchedNothing(s: Subscription, e: Event, r: Reaction)
    requires s.closed || (e.Failure? && !r.hears)
    ensures Dispatched(s, e, r) == s
  {
  }

  /** What a heard error comes to. */
  lemma DispatchedError(s: Subscription, code: int, r: Reaction)
    requires !s.closed && r.hears
    ensures var s' := Dispatched(s, Failure(code), r);
            && s'.flavour == s.flavour && s'.autoAck == s.autoAck
            && s'.trace == s.trace + [Error(code)] && ClosesIf(s, s', r.closes) && HandsOutNone(s, s')
  {
  }

  /**
   What a signal comes to. The loss before it comes first, if there is one; then the signal, with its payload.
   Only a notification is handed out, and it is acknowledged exactly if the listeners do so or `autoAck` is on.
   */
  lemma DispatchedSignal(s: Subscription, a: nat, p: nat, r: Reaction)
    requires !s.closed
    ensures var s' := Dispatched(s, Signal(a, p), r);
            var overflow := if p > 0 then [Overflow(p)] else [];
            && s'.flavour == s.flavour && s'.autoAck == s.autoAck
            && match s.flavour
               case ObjectNotices =>
                 && s'.trace == s.trace + overflow + [Notification(a, p)]
                 && ClosesIf(s, s', r.closes || (p > 0 && r.closesEarly))
                 && HandsOut(s, s', Notice(a, s.autoAck || r.acks > 0))
               case MonitorLines =>
                 && s'.trace == s.trace + overflow + [Log(a, p)]
                 && ClosesIf(s, s', r.closes || (p > 0 && r.closesEarly)) && HandsOutNone(s, s')
               case ImageUpdates =>
                 && s'.trace == s.trace + [Update(a, p)]
                 && ClosesIf(s, s', r.closes) && HandsOutNone(s, s')
  {
    var overflowed := EmitOverflow(s, p, r.closesEarly);
    assert overflowed.trace == s.trace + if p > 0 then [Overflow(p)] else [];
    HandOutOutcome(overflowed, a, p, r);
  }

  /** The flavour and the acknowledgement mode are fixed, a closed subscription is inert, an open one emits. */
  lemma DispatchedTrace(s: Subscription, e: Event, r: Reaction)
    ensures var s' := Dispatched(s, e, r);
            && s'.trace == (if s.closed then s.trace else s.trace + Emissions(s.flavour, e, r.hears))
            && s'.flavour == s.flavour && s'.autoAck == s.autoAck && (s.closed ==> s' == s)
            && (s'.closed ==> s.closed || r.closes || r.closesEarly)
  {
    if s.closed || (e.Failure? && !r.hears) {
      DispatchedNothing(s, e, r);
    } else {
      match e
      case Failure(code) => DispatchedError(s, code, r);
      case Signal(a, p) => DispatchedSignal(s, a, p, r);
    }
  }

  /** An overflow event before the main one only adds to the sum. */
  lemma OverflowReadable(dropped: nat, e: Emission, trace: seq<Emission>)
    requires e.Carries()
    ensures var all := trace + [Overflow(dropped), e];
            && Sum(ToldOf(), all) == Sum(ToldOf(), trace) + dropped + Told(e)
            && (Readable(all) <==> Readable(trace) && e.arrival + 1 == Sum(ToldOf(), trace) + dropped + Told(e))
  {
    ReadableAppend(trace, Overflow(dropped));
    ReadableAppend(trace + [Overflow(dropped)], e);
    assert trace + [Overflow(dropped), e] == trace + [Overflow(dropped)] + [e];
  }

  /** An overflow and a signal. */
  lemma TwoReadable(flavour: Flavour, e: Event, hears: bool, trace: seq<Emission>)
    requires e.Signal? && e.payload > 0 && !flavour.ImageUpdates?
    ensures var all := trace + Emissions(flavour, e, hears);
            && Sum(ToldOf(), all) == Sum(ToldOf(), trace) + Weight(flavour, e)
            && (Readable(all) <==> Readable(trace) && e.arrival + 1 == Sum(ToldOf(), trace) + Weight(flavour, e))
  {
    var main := if flavour.MonitorLines? then Log(e.arrival, e.payload) else Notification(e.arrival, e.payload);
    assert Emissions(flavour, e, hears) == [Overflow(e.payload), main];
    OverflowReadable(e.payload, main, trace);
  }

  /** A signal alone, or an error that is heard. */
  lemma OneReadable(flavour: Flavour, e: Event, hears: bool, trace: seq<Emission>)
    requires if e.Signal? then e.payload == 0 || flavour.ImageUpdates? else hears
    ensures var all := trace + Emissions(flavour, e, hears);
            && Sum(ToldOf(), all) == Sum(ToldOf(), trace) + Weight(flavour, e)
            && (Readable(all) <==>
                Readable(trace) && (e.Signal? ==> e.arrival + 1 == Sum(ToldOf(), trace) + Weight(flavour, e)))
  {
    var main := match e
                case Failure(code) => Error(code)
                case Signal(a, p) =>
                  match flavour
                  case ImageUpdates => Update(a, p)
                  case MonitorLines => Log(a, p)
                  case ObjectNotices => Notification(a, p);
    assert Emissions(flavour, e, hears) == [main];
    ReadableAppend(trace, main);
  }

  /** An event's emissions tell of what it stands for, and are readable exactly if its signal completes the sum. */
  lemma EmissionsReadable(flavour: Flavour, e: Event, hears: bool, trace: seq<Emission>)
    ensures Sum(ToldOf(), trace + Emissions(flavour, e, hears)) == Sum(ToldOf(), trace) + Weight(flavour, e)
    ensures Readable(trace + Emissions(flavour, e, hears)) <==>
            Readable(trace) && (e.Signal? ==> e.arrival + 1 == Sum(ToldOf(), trace) + Weight(flavour, e))
  {
    if e.Signal? && e.payload > 0 && !flavour.ImageUpdates? {
      TwoReadable(flavour, e, hears, trace);
    } else if e.Signal? || hears {
      OneReadable(flavour, e, hears, trace);
    } else {
      assert trace + Emissions(flavour, e, hears) == trace;
    }
  }
}
