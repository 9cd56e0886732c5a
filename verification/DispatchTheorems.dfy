/** What listeners can rely on, from the native callbacks to the emitted events. */
module DispatchTheorems {
  import opened Sums
  import opened Wrappers
  import D = Delivery
  import opened DeliveryIndex
  import opened Dispatch

  lemma StepClosed(s: Subscription, input: Input)
    ensures s.closed ==> Step(s, input).closed
    ensures Step(s, input).flavour == s.flavour && Step(s, input).autoAck == s.autoAck
  {
    if input.Deliver? {
      DispatchedTrace(s, input.e, input.r);
    }
  }

  /** What kind of subscription it is never changes. */
  lemma {:induction false} RunFlavour(flavour: D.Flavour, autoAck: bool, inputs: seq<Input>)
    ensures var js := Run(New(flavour, autoAck), inputs); js.flavour == flavour && js.autoAck == autoAck
  {
    if inputs != [] {
      var front := inputs[..|inputs| - 1];
      RunFlavour(flavour, autoAck, front);
      StepClosed(Run(New(flavour, autoAck), front), inputs[|inputs| - 1]);
    }
  }

  /** What is dispatched while open is what came in first. */
  lemma {:induction false} OpenEventsFirst(s: Subscription, inputs: seq<Input>)
    ensures OpenEvents(s, inputs) <= EventsIn(inputs)
    ensures !Run(s, inputs).closed ==> OpenEvents(s, inputs) == EventsIn(inputs)
  {
    if inputs != [] {
      var front := inputs[..|inputs| - 1];
      OpenEventsFirst(s, front);
      StepClosed(Run(s, front), inputs[|inputs| - 1]);
    }
  }

  /** The trace tells of what the events dispatched while open stand for, and reads as well as they do. */
  predicate TraceOk(s: Subscription, events: seq<D.Event>)
  {
    && (Readable(s.trace) <==> Indexed(s.flavour, events))
    && Sum(ToldOf(), s.trace) == Sum(D.WeightOf(s.flavour), events)
  }

  lemma DispatchReadable(s: Subscription, events: seq<D.Event>, e: D.Event, r: Reaction)
    requires TraceOk(s, events) && !s.closed
    ensures TraceOk(Dispatched(s, e, r), events + [e])
  {
    DispatchedTrace(s, e, r);
    SumAppend(D.WeightOf(s.flavour), events, e);
    IndexedAppend(s.flavour, events, e);
    EmissionsReadable(s.flavour, e, r.hears, s.trace);
  }

  lemma StepReadable(s: Subscription, events: seq<D.Event>, input: Input)
    requires TraceOk(s, events)
    ensures TraceOk(Step(s, input), if input.Deliver? && !s.closed then events + [input.e] else events)
  {
    StepClosed(s, input);
    match input
    case Deliver(e, r) => if !s.closed { DispatchReadable(s, events, e, r); }
    case CloseResolved => ReadableAppend(s.trace, Closed);
    case _ =>
  }

  lemma {:induction false} RunReadable(flavour: D.Flavour, autoAck: bool, inputs: seq<Input>)
    ensures Run(New(flavour, autoAck), inputs).flavour == flavour
    ensures TraceOk(Run(New(flavour, autoAck), inputs), OpenEvents(New(flavour, autoAck), inputs))
  {
    if inputs != [] {
      var front, last := inputs[..|inputs| - 1], inputs[|inputs| - 1];
      RunReadable(flavour, autoAck, front);
      StepClosed(Run(New(flavour, autoAck), front), last);
      StepReadable(Run(New(flavour, autoAck), front), OpenEvents(New(flavour, autoAck), front), last);
    }
  }

  /**
   End to end and exactly, for any interleaving of native callbacks, whatever the listeners do and whenever
   anybody closes: every notification, log line or update that JavaScript emits has as its arrival number the
   count of such events plus the reported losses up to and including it, less one, if and only if each event
   dispatched while the subscription was open had been enqueued in its turn.
   */
  lemma TraceTellsIff(s0: D.State, run: seq<D.Step>, autoAck: bool, inputs: seq<Input>)
    requires D.Init(s0) && D.Valid(s0, run) && D.Exec(s0, run).passed < D.U64
    requires EventsIn(inputs) == D.Exec(s0, run).delivered
    ensures var js, events := Run(New(s0.flavour, autoAck), inputs), OpenEvents(New(s0.flavour, autoAck), inputs);
            && (Readable(js.trace) <==> InTurn(s0, run, |events|))
            && Sum(ToldOf(), js.trace) == Sum(D.WeightOf(s0.flavour), events)
  {
    var s, events := D.Exec(s0, run), OpenEvents(New(s0.flavour, autoAck), inputs);
    OpenEventsFirst(New(s0.flavour, autoAck), inputs);
    RunReadable(s0.flavour, autoAck, inputs);
    assert events == s.delivered[..|events|] == D.Events(s)[..|events|];
    IndexedIff(s0, run, |events|);
  }

  /** So with serial native callbacks the trace always tells the arrivals, and, while open, all that was delivered. */
  lemma TraceTellsArrivals(s0: D.State, run: seq<D.Step>, autoAck: bool, inputs: seq<Input>)
    requires D.Init(s0) && D.Valid(s0, run) && Serial(s0, run) && D.Exec(s0, run).passed < D.U64
    requires EventsIn(inputs) == D.Exec(s0, run).delivered
    ensures Readable(Run(New(s0.flavour, autoAck), inputs).trace)
    ensures var js := Run(New(s0.flavour, autoAck), inputs);
            !js.closed ==> Sum(ToldOf(), js.trace) == Sum(D.WeightOf(s0.flavour), D.Exec(s0, run).delivered)
  {
    TraceTellsIff(s0, run, autoAck, inputs);
    OpenEventsFirst(New(s0.flavour, autoAck), inputs);
    SerialInTurn(s0, run, |OpenEvents(New(s0.flavour, autoAck), inputs)|);
  }

  // ---------------------------------------------------------------- every event once, in order

  /** The event that an emission is about; overflow and close events are about none. */
  function About(e: Emission): seq<D.Event>
  {
    match e
    case Notification(a, p) => [D.Signal(a, p)]
    case Log(a, p) => [D.Signal(a, p)]
    case Update(a, p) => [D.Signal(a, p)]
    case Error(code) => [D.Failure(code)]
    case Overflow(_) => []
    case Closed => []
  }

  function EventsOf(trace: seq<Emission>): seq<D.Event>
  {
    if trace == [] then [] else EventsOf(trace[..|trace| - 1]) + About(trace[|trace| - 1])
  }

  /** Each subscription emits its own kind of event. */
  predicate OfKind(flavour: D.Flavour, e: Emission)
  {
    && (e.Notification? || e.Error? ==> flavour.ObjectNotices?) && (e.Log? ==> flavour.MonitorLines?)
    && (e.Update? ==> flavour.ImageUpdates?)
  }

  /** The events dispatched while the subscription is open, but for errors that nobody hears. */
  function HeardEvents(s: Subscription, inputs: seq<Input>): seq<D.Event>
  {
    if inputs == [] then []
    else
      var front, last := inputs[..|inputs| - 1], inputs[|inputs| - 1];
      if last.Deliver? && !Run(s, front).closed && (last.e.Signal? || last.r.hears) then
        HeardEvents(s, front) + [last.e]
      else HeardEvents(s, front)
  }

  lemma EventsOfAppend(trace: seq<Emission>, e: Emission)
    ensures EventsOf(trace + [e]) == EventsOf(trace) + About(e)
    ensures About(e) == [] ==> EventsOf(trace + [e]) == EventsOf(trace)
  {
    assert (trace + [e])[..|trace|] == trace;
  }

  /** An overflow before the main event is about nothing. */
  lemma OverflowAbout(trace: seq<Emission>, p: nat, main: Emission)
    ensures EventsOf(trace + (if p > 0 then [Overflow(p)] else []) + [main]) == EventsOf(trace) + About(main)
  {
    if p > 0 {
      EventsOfAppend(trace, Overflow(p));
      EventsOfAppend(trace + [Overflow(p)], main);
    } else {
      assert trace + [] == trace;
      EventsOfAppend(trace, main);
    }
  }

  lemma SignalAbout(s: Subscription, a: nat, p: nat, r: Reaction)
    requires !s.closed
    ensures EventsOf(Dispatched(s, D.Signal(a, p), r).trace) == EventsOf(s.trace) + [D.Signal(a, p)]
  {
    DispatchedSignal(s, a, p, r);
    match s.flavour
    case ObjectNotices => OverflowAbout(s.trace, p, Notification(a, p));
    case MonitorLines => OverflowAbout(s.trace, p, Log(a, p));
    case ImageUpdates => EventsOfAppend(s.trace, Update(a, p));
  }

  lemma ErrorAbout(s: Subscription, code: int, r: Reaction)
    requires !s.closed && r.hears
    ensures EventsOf(Dispatched(s, D.Failure(code), r).trace) == EventsOf(s.trace) + [D.Failure(code)]
  {
    DispatchedError(s, code, r);
    EventsOfAppend(s.trace, Error(code));
  }

  lemma DispatchAbout(s: Subscription, e: D.Event, r: Reaction)
    requires !s.closed
    ensures EventsOf(Dispatched(s, e, r).trace) ==
            if e.Signal? || r.hears then EventsOf(s.trace) + [e] else EventsOf(s.trace)
  {
    match e
    case Signal(a, p) => SignalAbout(s, a, p, r);
    case Failure(code) => if r.hears { ErrorAbout(s, code, r); } else { DispatchedNothing(s, e, r); }
  }

  lemma StepAbout(s: Subscription, input: Input)
    ensures EventsOf(Step(s, input).trace) ==
            if input.Deliver? && !s.closed && (input.e.Signal? || input.r.hears) then EventsOf(s.trace) + [input.e]
            else EventsOf(s.trace)
  {
    match input
    case Deliver(e, r) => if s.closed { DispatchedNothing(s, e, r); } else { DispatchAbout(s, e, r); }
    case CloseResolved => EventsOfAppend(s.trace, Closed);
    case _ =>
  }

  /**
   Whatever the listeners do: each event dispatched while the subscription is open, but for errors that nobody
   hears, is emitted exactly once, in order, with its arrival number and its loss or count.
   */
  lemma {:induction false} EmittedOnceInOrder(flavour: D.Flavour, autoAck: bool, inputs: seq<Input>)
    ensures EventsOf(Run(New(flavour, autoAck), inputs).trace) == HeardEvents(New(flavour, autoAck), inputs)
  {
    if inputs != [] {
      var front := inputs[..|inputs| - 1];
      EmittedOnceInOrder(flavour, autoAck, front);
      StepAbout(Run(New(flavour, autoAck), front), inputs[|inputs| - 1]);
    }
  }

  predicate AllOfKind(flavour: D.Flavour, trace: seq<Emission>) { forall e :: e in trace ==> OfKind(flavour, e) }

  lemma StepOfKind(s: Subscription, input: Input)
    requires AllOfKind(s.flavour, s.trace) && (input.Deliver? && input.e.Failure? ==> s.flavour.ObjectNotices?)
    ensures AllOfKind(s.flavour, Step(s, input).trace)
  {
    if input.Deliver? {
      var e, r := input.e, input.r;
      if s.closed || (e.Failure? && !r.hears) { DispatchedNothing(s, e, r); }
      else if e.Failure? { DispatchedError(s, e.code, r); }
      else { DispatchedSignal(s, e.arrival, e.payload, r); }
    }
  }

  /** And as the kind of event that its subscription is for. */
  lemma {:induction false} EmittedAsItsKind(flavour: D.Flavour, autoAck: bool, inputs: seq<Input>)
    requires forall i :: 0 <= i < |inputs| && inputs[i].Deliver? && inputs[i].e.Failure? ==> flavour.ObjectNotices?
    ensures AllOfKind(flavour, Run(New(flavour, autoAck), inputs).trace)
  {
    if inputs != [] {
      var front := inputs[..|inputs| - 1];
      EmittedAsItsKind(flavour, autoAck, front);
      RunFlavour(flavour, autoAck, front);
      StepOfKind(Run(New(flavour, autoAck), front), inputs[|inputs| - 1]);
    }
  }

  // ---------------------------------------------------------------- the replay of early events

  /** Nothing closes the subscription during its replay. */
  lemma {:induction false} ReplayStaysOpen(flavour: D.Flavour, autoAck: bool, early: seq<D.Event>)
    ensures !Run(New(flavour, autoAck), Replay(early)).closed
  {
    if early != [] {
      var front := early[..|early| - 1];
      assert Replay(early)[..|early| - 1] == Replay(front);
      ReplayStaysOpen(flavour, autoAck, front);
      DispatchedTrace(Run(New(flavour, autoAck), Replay(front)), early[|early| - 1], NO_REACTION);
    }
  }

  /** Replaying an early event throws if and only if it is an error. */
  lemma ReplayThrowsIff(flavour: D.Flavour, autoAck: bool, early: seq<D.Event>, k: nat)
    requires k < |early|
    ensures Throws(Run(New(flavour, autoAck), Replay(early[..k])), early[k], NO_REACTION) <==> early[k].Failure?
  {
    ReplayStaysOpen(flavour, autoAck, early[..k]);
  }

  /**
   A replay with no error among the early events is as if they had been dispatched directly; and only
   then does the caller get its subscription.
   */
  lemma ReplayIsDirect(flavour: D.Flavour, autoAck: bool, early: seq<D.Event>, later: seq<Input>)
    ensures Replayed(flavour, autoAck, early).Ok? <==> forall k :: 0 <= k < |early| ==> early[k].Signal?
    ensures var r := Replayed(flavour, autoAck, early);
            r.Ok? ==>
              && Run(r.value, later) == Run(New(flavour, autoAck), Replay(early) + later)
              && EventsIn(Replay(early) + later) == early + EventsIn(later)
    ensures NobodyAcks(Replay(early))
  {
    RunConcat(New(flavour, autoAck), Replay(early), later);
    ReplayEvents(early);
    assert Survivors(early) < |early| ==> !early[Survivors(early)].Signal?;
  }

  /** An early error costs the caller the watch, and the notification behind it is neither emitted nor acknowledged. */
  lemma EarlyErrorLoses(autoAck: bool, code: int, arrival: nat, dropped: nat)
    ensures var early := [D.Failure(code), D.Signal(arrival, dropped)];
            && Replayed(D.ObjectNotices, autoAck, early) == Err(code)
            && Run(New(D.ObjectNotices, autoAck), Replay(early[..Survivors(early)])) == New(D.ObjectNotices, autoAck)
  {
  }

  // ---------------------------------------------------------------- acknowledgement

  function NoticeOf(a: nat): Notice -> nat { (n: Notice) => if n.arrival == a then 1 else 0 }

  function AckedNotice(a: nat): Notice -> nat { (n: Notice) => if n.arrival == a && n.acknowledged then 1 else 0 }

  /** Native acknowledgements are those of the acknowledged notices, and only delivered signals become notices. */
  predicate AcksOk(s: Subscription, events: seq<D.Event>, a: nat)
  {
    && Sum(D.Is(a), s.acks) == Sum(AckedNotice(a), s.notices)
    && Sum(NoticeOf(a), s.notices) <= Sum(D.EventIs(a), events)
  }

  lemma AckKeeps(s: Subscription, i: nat, a: nat)
    requires i < |s.notices| && Sum(D.Is(a), s.acks) == Sum(AckedNotice(a), s.notices)
    ensures var s' := s.Ack(i);
            && Sum(D.Is(a), s'.acks) == Sum(AckedNotice(a), s'.notices)
            && Sum(NoticeOf(a), s'.notices) == Sum(NoticeOf(a), s.notices)
            && |s'.notices| == |s.notices| && s'.notices[i].acknowledged
            && forall j :: 0 <= j < |s.notices| ==> s.notices[j].acknowledged ==> s'.notices[j].acknowledged
  {
    if !s.notices[i].acknowledged {
      var n := s.notices[i].(acknowledged := true);
      SumUpdate(AckedNotice(a), s.notices, i, n);
      SumUpdate(NoticeOf(a), s.notices, i, n);
      SumAppend(D.Is(a), s.acks, n.arrival);
    }
  }

  /** A dispatched event hands out a notification, or nothing. */
  lemma DispatchHandsOut(s: Subscription, e: D.Event, r: Reaction)
    ensures var s' := Dispatched(s, e, r);
            && s'.autoAck == s.autoAck
            && if !s.closed && e.Signal? && s.flavour.ObjectNotices? then
                 HandsOut(s, s', Notice(e.arrival, s.autoAck || r.acks > 0))
               else HandsOutNone(s, s')
  {
    if s.closed || (e.Failure? && !r.hears) {
      DispatchedNothing(s, e, r);
    } else {
      match e
      case Failure(code) => DispatchedError(s, code, r);
      case Signal(a, p) => DispatchedSignal(s, a, p, r);
    }
  }

  lemma HandsOutAcks(s: Subscription, s': Subscription, n: Notice, a: nat)
    requires HandsOut(s, s', n) && Sum(D.Is(a), s.acks) == Sum(AckedNotice(a), s.notices)
    ensures Sum(D.Is(a), s'.acks) == Sum(AckedNotice(a), s'.notices)
    ensures Sum(NoticeOf(a), s'.notices) == Sum(NoticeOf(a), s.notices) + (if n.arrival == a then 1 else 0)
  {
    SumAppend(AckedNotice(a), s.notices, n);
    SumAppend(NoticeOf(a), s.notices, n);
    SumOption(D.Is(a), s.acks, if n.acknowledged then [n.arrival] else []);
  }

  lemma DispatchAcks(s: Subscription, events: seq<D.Event>, e: D.Event, r: Reaction, a: nat)
    requires AcksOk(s, events, a)
    ensures AcksOk(Dispatched(s, e, r), events + [e], a)
  {
    SumAppend(D.EventIs(a), events, e);
    DispatchHandsOut(s, e, r);
    if !s.closed && e.Signal? && s.flavour.ObjectNotices? {
      HandsOutAcks(s, Dispatched(s, e, r), Notice(e.arrival, s.autoAck || r.acks > 0), a);
    }
  }

  lemma StepAcks(s: Subscription, events: seq<D.Event>, input: Input, a: nat)
    requires AcksOk(s, events, a)
    ensures AcksOk(Step(s, input), if input.Deliver? then events + [input.e] else events, a)
  {
    match input
    case Deliver(e, r) => DispatchAcks(s, events, e, r, a);
    case LateAck(i) => if i < |s.notices| { AckKeeps(s, i, a); }
    case _ =>
  }

  lemma {:induction false} RunAcks(flavour: D.Flavour, autoAck: bool, inputs: seq<Input>, a: nat)
    ensures AcksOk(Run(New(flavour, autoAck), inputs), EventsIn(inputs), a)
  {
    if inputs != [] {
      var front := inputs[..|inputs| - 1];
      RunAcks(flavour, autoAck, front, a);
      StepAcks(Run(New(flavour, autoAck), front), EventsIn(front), inputs[|inputs| - 1], a);
    }
  }

  lemma {:induction false} AckedAtMostNotices(notices: seq<Notice>, a: nat)
    ensures Sum(AckedNotice(a), notices) <= Sum(NoticeOf(a), notices)
    ensures (forall i :: 0 <= i < |notices| ==> notices[i].acknowledged) ==>
              Sum(AckedNotice(a), notices) == Sum(NoticeOf(a), notices)
  {
    if notices != [] {
      AckedAtMostNotices(notices[..|notices| - 1], a);
    }
  }

  /**
   Acknowledged at most once in total, under any interleaving of native callbacks and any behaviour
   of the listeners: the empty acknowledgements made in C++ and those initiated in JavaScript together.
   */
  lemma AckedAtMostOnce(s0: D.State, run: seq<D.Step>, autoAck: bool, inputs: seq<Input>, a: nat)
    requires D.Init(s0) && D.Valid(s0, run) && EventsIn(inputs) == D.Exec(s0, run).delivered
    ensures Sum(D.Is(a), D.Exec(s0, run).acked) + Sum(D.Is(a), Run(New(s0.flavour, autoAck), inputs).acks) <= 1
  {
    var s, js := D.Exec(s0, run), Run(New(s0.flavour, autoAck), inputs);
    D.ReachedPlaces(s0, run, a);
    RunAcks(s0.flavour, autoAck, inputs, a);
    AckedAtMostNotices(js.notices, a);
    SumConcat(D.EventIs(a), s.delivered, s.queue);
  }

  /** A step leaves a notice that is there as it is, unless it is a late acknowledgement of that notice. */
  lemma StepNotice(s: Subscription, input: Input, n: nat)
    requires n < |s.notices|
    ensures var s' := Step(s, input);
            && n < |s'.notices| && s'.notices[n].arrival == s.notices[n].arrival
            && (s'.notices[n].acknowledged <==> s.notices[n].acknowledged || input == LateAck(n))
  {
    if input.Deliver? {
      DispatchHandsOut(s, input.e, input.r);
    }
  }

  /** Some input behind position `i` acknowledges the notice `n`. */
  predicate AckedLater(inputs: seq<Input>, i: nat, n: nat)
  {
    exists k :: i < k < |inputs| && inputs[k] == LateAck(n)
  }

  lemma AckedLaterAppend(inputs: seq<Input>, i: nat, n: nat)
    requires i < |inputs| - 1
    ensures AckedLater(inputs, i, n) <==>
            AckedLater(inputs[..|inputs| - 1], i, n) || inputs[|inputs| - 1] == LateAck(n)
  {
    var front := inputs[..|inputs| - 1];
    if k :| i < k < |inputs| && inputs[k] == LateAck(n) {
      assert k < |front| ==> front[k] == inputs[k];
    }
    if k :| i < k < |front| && front[k] == LateAck(n) {
      assert inputs[k] == front[k];
    }
  }

  /** Input `i` dispatches a notification to the open subscription `s`. */
  predicate Dispatches(s: Subscription, inputs: seq<Input>, i: nat)
    requires i < |inputs|
  {
    inputs[i].Deliver? && inputs[i].e.Signal? && !Run(s, inputs[..i]).closed
  }

  /**
   Exactly which notifications are acknowledged, whatever the listeners do: one dispatched while open has
   its acknowledgement initiated if and only if `autoAck` is on, the listeners acknowledge it during its
   dispatch, or somebody acknowledges it later.
   */
  lemma {:induction false} AckedIff(autoAck: bool, inputs: seq<Input>, i: nat)
    requires i < |inputs| && Dispatches(New(D.ObjectNotices, autoAck), inputs, i)
    ensures var n := |Run(New(D.ObjectNotices, autoAck), inputs[..i]).notices|;
            var js := Run(New(D.ObjectNotices, autoAck), inputs);
            && n < |js.notices| && js.notices[n].arrival == inputs[i].e.arrival
            && (js.notices[n].acknowledged <==> autoAck || inputs[i].r.acks > 0 || AckedLater(inputs, i, n))
    decreases |inputs|
  {
    var s0, front := New(D.ObjectNotices, autoAck), inputs[..|inputs| - 1];
    var n := |Run(s0, inputs[..i]).notices|;
    if i == |inputs| - 1 {
      RunFlavour(D.ObjectNotices, autoAck, front);
      DispatchHandsOut(Run(s0, front), inputs[i].e, inputs[i].r);
    } else {
      assert front[..i] == inputs[..i] && front[i] == inputs[i];
      AckedIff(autoAck, front, i);
      StepNotice(Run(s0, front), inputs[|inputs| - 1], n);
      AckedLaterAppend(inputs, i, n);
    }
  }

  /** The acknowledgements initiated in JavaScript are those of the acknowledged notices, one for each. */
  lemma AcksAreNotices(flavour: D.Flavour, autoAck: bool, inputs: seq<Input>, a: nat)
    ensures var js := Run(New(flavour, autoAck), inputs); Sum(D.Is(a), js.acks) == Sum(AckedNotice(a), js.notices)
  {
    RunAcks(flavour, autoAck, inputs, a);
  }

  /** Nobody acknowledges: `autoAck` is off, and no listener and no later call does. */
  predicate NobodyAcks(inputs: seq<Input>)
  {
    forall i :: 0 <= i < |inputs| ==> !inputs[i].LateAck? && (inputs[i].Deliver? ==> inputs[i].r.acks == 0)
  }

  /** Then nothing is acknowledged. */
  lemma {:induction false} NobodyAcksNothing(flavour: D.Flavour, inputs: seq<Input>)
    requires NobodyAcks(inputs)
    ensures Run(New(flavour, false), inputs).acks == [] && !Run(New(flavour, false), inputs).autoAck
  {
    if inputs != [] {
      var front, last := inputs[..|inputs| - 1], inputs[|inputs| - 1];
      NobodyAcksNothing(flavour, front);
      if last.Deliver? {
        DispatchHandsOut(Run(New(flavour, false), front), last.e, last.r);
      }
    }
  }

  /**
   With automatic acknowledgement, each notification dispatched while the subscription is open has
   exactly one acknowledgement initiated, and none in C++, whatever the listeners do: acknowledge it
   any number of times, at once or later, or close the subscription.
   */
  lemma AutoAckExactlyOnce(s0: D.State, run: seq<D.Step>, inputs: seq<Input>, i: nat)
    requires D.Init(s0) && D.Valid(s0, run) && s0.flavour.ObjectNotices? &&
             EventsIn(inputs) == D.Exec(s0, run).delivered
    requires i < |inputs| && inputs[i].Deliver? && inputs[i].e.Signal?
    requires !Run(New(D.ObjectNotices, true), inputs[..i]).closed
    ensures var a := inputs[i].e.arrival;
            Sum(D.Is(a), Run(New(D.ObjectNotices, true), inputs).acks) == 1 && Sum(D.Is(a), D.Exec(s0, run).acked) == 0
  {
    var js := Run(New(D.ObjectNotices, true), inputs);
    var a, n := inputs[i].e.arrival, |Run(New(D.ObjectNotices, true), inputs[..i]).notices|;
    AckedAtMostOnce(s0, run, true, inputs, a);
    RunAcks(D.ObjectNotices, true, inputs, a);
    AckedIff(true, inputs, i);
    SumAtLeast(AckedNotice(a), js.notices, n);
  }

  // ---------------------------------------------------------------- close

  /** Whether dispatching `e` to an open subscription closes it. */
  predicate ClosesDuring(flavour: D.Flavour, e: D.Event, r: Reaction)
  {
    match e
    case Failure(_) => r.hears && r.closes
    case Signal(_, p) => r.closes || (p > 0 && r.closesEarly && !flavour.ImageUpdates?)
  }

  predicate ClosesBy(flavour: D.Flavour, input: Input)
  {
    input.CloseCall? || (input.Deliver? && ClosesDuring(flavour, input.e, input.r))
  }

  lemma DispatchCloses(s: Subscription, e: D.Event, r: Reaction)
    ensures ClosesIf(s, Dispatched(s, e, r), ClosesDuring(s.flavour, e, r))
    ensures ClosedEvents(Dispatched(s, e, r).trace) == ClosedEvents(s.trace)
  {
    DispatchedTrace(s, e, r);
    if s.closed || (e.Failure? && !r.hears) {
      DispatchedNothing(s, e, r);
    } else {
      NoneClosed(s.trace, Emissions(s.flavour, e, r.hears));
      match e
      case Failure(code) => DispatchedError(s, code, r);
      case Signal(a, p) => DispatchedSignal(s, a, p, r);
    }
  }

  function IsClosed(): Emission -> nat { (e: Emission) => if e == Closed then 1 else 0 }

  /** How many close events there are. */
  function ClosedEvents(trace: seq<Emission>): nat { Sum(IsClosed(), trace) }

  lemma NoneClosed(trace: seq<Emission>, more: seq<Emission>)
    requires Closed !in more
    ensures ClosedEvents(trace + more) == ClosedEvents(trace)
  {
    SumConcat(IsClosed(), trace, more);
    SumZero(IsClosed(), more);
  }

  lemma StepCloses(s: Subscription, input: Input)
    requires s.resolving ==> s.closed
    ensures var s', b := Step(s, input), ClosesBy(s.flavour, input);
            && s'.closed == (s.closed || b)
            && s'.handleCloses == s.handleCloses + (if b && !s.closed then 1 else 0)
            && (s'.resolving <==> (s.resolving && !input.CloseResolved?) || (b && !s.closed))
            && ClosedEvents(s'.trace) + (if s'.resolving then 1 else 0) - s'.handleCloses
               == ClosedEvents(s.trace) + (if s.resolving then 1 else 0) - s.handleCloses
  {
    match input
    case Deliver(e, r) => DispatchCloses(s, e, r);
    case CloseResolved => SumAppend(IsClosed(), s.trace, Closed);
    case _ =>
  }

  /** A native close that was under way has resolved. */
  predicate Resolved(s: Subscription, inputs: seq<Input>)
  {
    exists k :: 0 <= k < |inputs| && inputs[k].CloseResolved? && Run(s, inputs[..k]).closed
  }

  /** A closed subscription stays closed. */
  lemma {:induction false} StaysClosed(s: Subscription, inputs: seq<Input>, k: nat)
    requires k <= |inputs| && Run(s, inputs[..k]).closed
    ensures Run(s, inputs).closed
  {
    if k == |inputs| {
      assert inputs[..k] == inputs;
    } else {
      var front := inputs[..|inputs| - 1];
      assert front[..k] == inputs[..k];
      StaysClosed(s, front, k);
      StepClosed(Run(s, front), inputs[|inputs| - 1]);
    }
  }

  lemma ResolvedClosed(s: Subscription, inputs: seq<Input>)
    requires Resolved(s, inputs)
    ensures Run(s, inputs).closed
  {
    var k :| 0 <= k < |inputs| && inputs[k].CloseResolved? && Run(s, inputs[..k]).closed;
    StaysClosed(s, inputs, k);
  }

  lemma ResolvedAppend(s: Subscription, inputs: seq<Input>)
    requires inputs != []
    ensures var front, last := inputs[..|inputs| - 1], inputs[|inputs| - 1];
            Resolved(s, inputs) <==> Resolved(s, front) || (last.CloseResolved? && Run(s, front).closed)
  {
    var front := inputs[..|inputs| - 1];
    if k :| 0 <= k < |front| && front[k].CloseResolved? && Run(s, front[..k]).closed {
      assert inputs[k] == front[k] && inputs[..k] == front[..k];
    }
    if k :| 0 <= k < |inputs| && inputs[k].CloseResolved? && Run(s, inputs[..k]).closed {
      assert inputs[..k] == if k < |front| then front[..k] else front;
    }
  }

  /**
   Closing, exactly: the subscription is closed if and only if somebody has called `close`, the listeners
   included; the native close is then initiated, once; and there is one close event if that has resolved, and
   none if not.
   */
  lemma {:induction false} ClosedIff(flavour: D.Flavour, autoAck: bool, inputs: seq<Input>)
    ensures var js := Run(New(flavour, autoAck), inputs);
            && (js.closed <==> exists i :: 0 <= i < |inputs| && ClosesBy(flavour, inputs[i]))
            && js.handleCloses == (if js.closed then 1 else 0)
            && (js.resolving <==> js.closed && !Resolved(New(flavour, autoAck), inputs))
            && ClosedEvents(js.trace) == if Resolved(New(flavour, autoAck), inputs) then 1 else 0
  {
    if inputs != [] {
      var front, last := inputs[..|inputs| - 1], inputs[|inputs| - 1];
      ClosedIff(flavour, autoAck, front);
      RunFlavour(flavour, autoAck, front);
      StepCloses(Run(New(flavour, autoAck), front), last);
      ResolvedAppend(New(flavour, autoAck), inputs);
      if Resolved(New(flavour, autoAck), front) {
        ResolvedClosed(New(flavour, autoAck), front);
      }
      assert inputs == front + [last];
    }
  }

  /** After `close` nothing is emitted but the `close` event itself. */
  lemma {:induction false} SilentAfterClose(s: Subscription, inputs: seq<Input>)
    requires s.closed
    ensures var s' := Run(s, inputs);
            && s'.closed && s.trace <= s'.trace
            && forall i :: |s.trace| <= i < |s'.trace| ==> s'.trace[i] == Closed
  {
    if inputs != [] {
      SilentAfterClose(s, inputs[..|inputs| - 1]);
    }
  }
}
