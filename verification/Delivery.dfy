/**
 Bounded event delivery: the native callbacks of an object watch, a monitor log and an image update
 watch, the queue of their thread-safe function, and the JavaScript side that drains it.

 A callback is a thread that loads `closed`, exchanges the loss counter with zero, tries to enqueue,
 and on refusal adds back what it took plus itself; each of these is one step, so every interleaving
 of any number of callbacks with the consumer and with `Data::close` is a run.
 */
module Delivery {
  import opened Sums
  import opened Wrappers

  const U64: nat := 0x1_0000_0000_0000_0000

  datatype Flavour = ObjectNotices | MonitorLines | ImageUpdates

  /** A signal is known by its arrival number, counted from 0 over those that passed the closed check. */
  datatype Event = Signal(arrival: nat, payload: nat) | Failure(code: int)

  datatype Pc =
    | Idle
    | Checked(arrival: nat)
    | Posting(arrival: nat, payload: nat)
    | Refused(arrival: nat, payload: nat)
    | Acking(arrival: nat)
    | Reporting(code: int)

  /**
     counter    `dropped` or `coalesced`
     released   the thread-safe function is closing
     delivered  the events handed to JavaScript so far
     refused    the arrivals whose loss has been added to the counter so far
     acked      the arrivals acknowledged empty so far
     passed     how many signals have passed the closed check
   */
  datatype State = State(flavour: Flavour, capacity: nat, counter: nat, closed: bool, released: bool,
                         queue: seq<Event>, callbacks: seq<Pc>,
                         delivered: seq<Event>, refused: seq<nat>, acked: seq<nat>, passed: nat)
  {
    predicate Room() { |queue| < capacity && !released }

    function At(t: nat, pc: Pc): State
      requires t < |callbacks|
    {
      this.(callbacks := callbacks[t := pc])
    }
  }

  datatype Step = Arrive(t: nat) | Fail(t: nat, code: int) | Advance(t: nat) | Deliver | Close | Release

  /** What the event carries: the losses before it, or, for image updates, those and itself. */
  function Payload(flavour: Flavour, taken: nat): nat { if flavour.ImageUpdates? then (taken + 1) % U64 else taken }

  /** What a refused event adds back. */
  function GiveBack(flavour: Flavour, payload: nat): nat
  {
    if flavour.ImageUpdates? then payload else (payload + 1) % U64
  }

  function Next(s: State, t: nat): State
    requires t < |s.callbacks|
  {
    match s.callbacks[t]
    case Idle => s
    case Checked(a) => s.(counter := 0).At(t, Posting(a, Payload(s.flavour, s.counter)))
    case Posting(a, p) =>
      if s.Room() then s.(queue := s.queue + [Signal(a, p)]).At(t, Idle) else s.At(t, Refused(a, p))
    case Refused(a, p) =>
      s.(counter := (s.counter + GiveBack(s.flavour, p)) % U64, refused := s.refused + [a])
       .At(t, if s.flavour.ObjectNotices? then Acking(a) else Idle)
    case Acking(a) => s.(acked := s.acked + [a]).At(t, Idle)
    case Reporting(code) => (if s.Room() then s.(queue := s.queue + [Failure(code)]) else s).At(t, Idle)
  }

  predicate Enabled(s: State, step: Step)
  {
    match step
    case Arrive(t) => t < |s.callbacks| && s.callbacks[t].Idle?
    case Fail(t, _) => t < |s.callbacks| && s.callbacks[t].Idle? && s.flavour.ObjectNotices?
    case Advance(t) => t < |s.callbacks| && !s.callbacks[t].Idle?
    case Deliver => s.queue != []
    case Close => true
    case Release => s.closed
  }

  function Apply(s: State, step: Step): State
    requires Enabled(s, step)
  {
    match step
    case Arrive(t) => if s.closed then s else s.(passed := s.passed + 1).At(t, Checked(s.passed))
    case Fail(t, code) => if s.closed then s else s.At(t, Reporting(code))
    case Advance(t) => Next(s, t)
    case Deliver => s.(queue := s.queue[1..], delivered := s.delivered + [s.queue[0]])
    case Close => s.(closed := true)
    case Release => s.(released := true)
  }

  predicate Init(s: State)
  {
    && s.capacity > 0 && s.counter == 0 && !s.closed && !s.released && s.queue == []
    && s.delivered == [] && s.refused == [] && s.acked == [] && s.passed == 0
    && forall t :: 0 <= t < |s.callbacks| ==> s.callbacks[t].Idle?
  }

  predicate Valid(s: State, run: seq<Step>)
    decreases |run|
  {
    run == [] || (Enabled(s, run[0]) && Valid(Apply(s, run[0]), run[1..]))
  }

  function Exec(s: State, run: seq<Step>): State
    requires Valid(s, run)
    decreases |run|
  {
    if run == [] then s else Exec(Apply(s, run[0]), run[1..])
  }

  /** Everything that was ever enqueued, in order. */
  function Events(s: State): seq<Event> { s.delivered + s.queue }

  // ---------------------------------------------------------------- one step seen through a measure

  /** What the step enqueues. */
  function Enqueued(s: State, step: Step): Option<Event>
    requires Enabled(s, step)
  {
    if !step.Advance? || !s.Room() then None
    else match s.callbacks[step.t]
         case Posting(a, p) => Some(Signal(a, p))
         case Reporting(code) => Some(Failure(code))
         case _ => None
  }

  function AsSeq(e: Option<Event>): seq<Event> { if e.Some? then [e.value] else [] }

  /** First in, first out: a step only appends to what was enqueued, and moves its oldest part to JavaScript. */
  lemma StepKeepsOrder(s: State, step: Step)
    requires Enabled(s, step)
    ensures Events(Apply(s, step)) == Events(s) + AsSeq(Enqueued(s, step))
    ensures s.delivered <= Apply(s, step).delivered
  {
  }

  /**
   A callback's event is enqueued exactly if the queue is not full and the thread-safe function not closing
   when it tries; nothing else ever is.
   */
  lemma EnqueuesIff(s: State, step: Step)
    requires Enabled(s, step)
    ensures var s', room := Apply(s, step), |s.queue| < s.capacity && !s.released;
            if step.Advance? && s.callbacks[step.t].Posting? && room then
              Events(s') == Events(s) + [Signal(s.callbacks[step.t].arrival, s.callbacks[step.t].payload)]
            else if step.Advance? && s.callbacks[step.t].Reporting? && room then
              Events(s') == Events(s) + [Failure(s.callbacks[step.t].code)]
            else Events(s') == Events(s)
  {
    StepKeepsOrder(s, step);
  }

  function Moves(step: Step): bool { step.Arrive? || step.Fail? || step.Advance? }

  /** The steps that move a callback touch no other; the rest touch none. */
  lemma StepCallbacks(s: State, step: Step)
    requires Enabled(s, step)
    ensures |Apply(s, step).callbacks| == |s.callbacks|
    ensures Moves(step) ==>
              Apply(s, step).callbacks == s.callbacks[step.t := Apply(s, step).callbacks[step.t]]
    ensures !Moves(step) ==> Apply(s, step).callbacks == s.callbacks
  {
  }

  lemma EventSums(s: State, step: Step, f: Event -> nat)
    requires Enabled(s, step)
    ensures Sum(f, Events(Apply(s, step))) ==
            Sum(f, Events(s)) + (if Enqueued(s, step).Some? then f(Enqueued(s, step).value) else 0)
  {
    StepKeepsOrder(s, step);
    SumOption(f, Events(s), AsSeq(Enqueued(s, step)));
  }

  lemma CallbackSums(s: State, step: Step, g: Pc -> nat)
    requires Enabled(s, step)
    ensures |Apply(s, step).callbacks| == |s.callbacks|
    ensures Sum(g, Apply(s, step).callbacks) ==
            if Moves(step) then
              Sum(g, s.callbacks) - g(s.callbacks[step.t]) + g(Apply(s, step).callbacks[step.t])
            else Sum(g, s.callbacks)
  {
    StepCallbacks(s, step);
    if Moves(step) {
      SumUpdate(g, s.callbacks, step.t, Apply(s, step).callbacks[step.t]);
    }
  }

  lemma StepSums(s: State, step: Step, f: Event -> nat, g: Pc -> nat)
    requires Enabled(s, step)
    ensures var s' := Apply(s, step);
            && Sum(f, Events(s')) ==
                Sum(f, Events(s)) + (if Enqueued(s, step).Some? then f(Enqueued(s, step).value) else 0)
            && |s'.callbacks| == |s.callbacks|
            && Sum(g, s'.callbacks) ==
                 if Moves(step) then Sum(g, s.callbacks) - g(s.callbacks[step.t]) + g(s'.callbacks[step.t])
                 else Sum(g, s.callbacks)
  {
    EventSums(s, step, f);
    CallbackSums(s, step, g);
  }

  // ---------------------------------------------------------------- loss conservation

  /** How many signals an event stands for. */
  function Weight(flavour: Flavour, e: Event): nat
  {
    match e
    case Signal(_, p) => if flavour.ImageUpdates? then p else p + 1
    case Failure(_) => 0
  }

  /** How many signals a callback under way stands for. */
  function Share(flavour: Flavour, pc: Pc): nat
  {
    match pc
    case Checked(_) => 1
    case Posting(_, p) => if flavour.ImageUpdates? then p else p + 1
    case Refused(_, p) => if flavour.ImageUpdates? then p else p + 1
    case _ => 0
  }

  function WeightOf(flavour: Flavour): Event -> nat { e => Weight(flavour, e) }

  function ShareOf(flavour: Flavour): Pc -> nat { pc => Share(flavour, pc) }

  predicate Conserved(s: State)
  {
    s.passed < U64 ==>
      s.passed == Sum(WeightOf(s.flavour), Events(s)) + s.counter + Sum(ShareOf(s.flavour), s.callbacks)
  }

  /**
   What a callback's step takes from the counter and its own share it puts into the queue, the counter or its share.
   */
  lemma StepBalances(s: State, step: Step)
    requires Enabled(s, step) && Moves(step) && Apply(s, step).passed < U64
    requires s.counter + Share(s.flavour, s.callbacks[step.t]) <= s.passed
    ensures var s' := Apply(s, step);
            s'.counter + Share(s.flavour, s'.callbacks[step.t])
            + (if Enqueued(s, step).Some? then Weight(s.flavour, Enqueued(s, step).value) else 0) - s'.passed
            == s.counter + Share(s.flavour, s.callbacks[step.t]) - s.passed
  {
    if step.Advance? {
      match s.callbacks[step.t]
      case Checked(_) =>
        assert Payload(s.flavour, s.counter) == if s.flavour.ImageUpdates? then s.counter + 1 else s.counter;
      case Refused(_, p) =>
        assert s.counter + GiveBack(s.flavour, p) == s.counter + Share(s.flavour, s.callbacks[step.t]) < U64;
      case _ =>
    }
  }

  lemma StepConserves(s: State, step: Step)
    requires Enabled(s, step) && Conserved(s)
    ensures Conserved(Apply(s, step))
  {
    var s' := Apply(s, step);
    var f, g := WeightOf(s.flavour), ShareOf(s.flavour);
    StepSums(s, step, f, g);
    if Moves(step) && s'.passed < U64 {
      var t := step.t;
      assert g(s.callbacks[t]) == Share(s.flavour, s.callbacks[t]) &&
          g(s'.callbacks[t]) == Share(s.flavour, s'.callbacks[t]);
      assert s.passed <= s'.passed && s'.flavour == s.flavour;
      SumAtLeast(g, s.callbacks, t);
      StepBalances(s, step);
    } else if !Moves(step) {
      QuietStep(s, step);
    }
  }

  lemma QuietStep(s: State, step: Step)
    requires Enabled(s, step) && !Moves(step)
    ensures Enqueued(s, step).None?
    ensures var s' := Apply(s, step); s'.counter == s.counter && s'.passed == s.passed && s'.flavour == s.flavour
  {
  }

  lemma {:induction false} RunConserves(s: State, run: seq<Step>)
    requires Valid(s, run) && Conserved(s)
    ensures Conserved(Exec(s, run)) && Exec(s, run).flavour == s.flavour
    decreases |run|
  {
    if run != [] {
      StepConserves(s, run[0]);
      RunConserves(Apply(s, run[0]), run[1..]);
    }
  }

  lemma InitConserves(s: State)
    requires Init(s)
    ensures Conserved(s)
  {
    SumZero(ShareOf(s.flavour), s.callbacks);
  }

  /**
   Nothing is lost without a trace, for every interleaving: the signals that passed the closed check
   are those that delivered events stand for, those that queued events stand for, the counter, and
   the shares of the callbacks under way.
   */
  lemma LossConserved(s0: State, run: seq<Step>)
    requires Init(s0) && Valid(s0, run) && Exec(s0, run).passed < U64
    ensures var s := Exec(s0, run);
            s.passed == Sum(WeightOf(s.flavour), s.delivered) + Sum(WeightOf(s.flavour), s.queue)
                        + s.counter + Sum(ShareOf(s.flavour), s.callbacks)
  {
    var s := Exec(s0, run);
    InitConserves(s0);
    RunConserves(s0, run);
    SumConcat(WeightOf(s.flavour), s.delivered, s.queue);
  }

  /**
   Exactly when the counter is what JavaScript has not been told: when neither the queue nor a callback
   under way stands for a signal.
   */
  lemma CounterIsUntold(s0: State, run: seq<Step>)
    requires Init(s0) && Valid(s0, run) && Exec(s0, run).passed < U64
    ensures var s := Exec(s0, run);
            s.counter == s.passed - Sum(WeightOf(s.flavour), s.delivered) <==>
            && (forall i :: 0 <= i < |s.queue| ==> Weight(s.flavour, s.queue[i]) == 0)
            && (forall t :: 0 <= t < |s.callbacks| ==> Share(s.flavour, s.callbacks[t]) == 0)
  {
    var s := Exec(s0, run);
    LossConserved(s0, run);
    SumZeroIff(WeightOf(s.flavour), s.queue);
    SumZeroIff(ShareOf(s.flavour), s.callbacks);
    assert forall i :: 0 <= i < |s.queue| ==> WeightOf(s.flavour)(s.queue[i]) == Weight(s.flavour, s.queue[i]);
    assert forall t :: 0 <= t < |s.callbacks| ==>
                         ShareOf(s.flavour)(s.callbacks[t]) == Share(s.flavour, s.callbacks[t]);
  }

  /** Error events take queue slots, but neither read nor change the counter, nor count as a loss. */
  lemma ErrorsTouchNoCounter(s: State, step: Step)
    requires Enabled(s, step) && (step.Fail? || (step.Advance? && s.callbacks[step.t].Reporting?))
    ensures var s' := Apply(s, step);
            && s'.counter == s.counter && s'.passed == s.passed && s'.refused == s.refused && s'.acked == s.acked
            && Sum(WeightOf(s.flavour), Events(s')) == Sum(WeightOf(s.flavour), Events(s))
            && Sum(ShareOf(s.flavour), s'.callbacks) == Sum(ShareOf(s.flavour), s.callbacks)
            && (step.Advance? && s.Room() ==> |s'.queue| == |s.queue| + 1)
  {
    StepSums(s, step, WeightOf(s.flavour), ShareOf(s.flavour));
  }

  /** The queue never holds more than `queueSize` events, and what was enqueued is never reordered or taken back. */
  lemma {:induction false} QueueIsBoundedFifo(s: State, run: seq<Step>)
    requires Valid(s, run) && |s.queue| <= s.capacity
    ensures |Exec(s, run).queue| <= s.capacity && Exec(s, run).capacity == s.capacity
    ensures Events(s) <= Events(Exec(s, run)) && s.delivered <= Exec(s, run).delivered
    decreases |run|
  {
    if run != [] {
      StepKeepsOrder(s, run[0]);
      QueueIsBoundedFifo(Apply(s, run[0]), run[1..]);
    }
  }

  // ---------------------------------------------------------------- after the close

  /** The flags say exactly whether the run, or what came before it, closed or released the subscription. */
  lemma {:induction false} FlagsIff(s: State, run: seq<Step>)
    requires Valid(s, run)
    ensures Exec(s, run).closed <==> s.closed || Close in run
    ensures Exec(s, run).released <==> s.released || Release in run
    decreases |run|
  {
    if run != [] {
      assert run == [run[0]] + run[1..];
      StepFlags(s, run[0]);
      FlagsIff(Apply(s, run[0]), run[1..]);
    }
  }

  lemma StepFlags(s: State, step: Step)
    requires Enabled(s, step)
    ensures Apply(s, step).closed <==> s.closed || step == Close
    ensures Apply(s, step).released <==> s.released || step == Release
    ensures s.closed ==> Apply(s, step).passed == s.passed
  {
  }

  /** The callback has passed its closed check and is still to enqueue `e`, whatever it reports. */
  predicate Carries(pc: Pc, e: Event)
  {
    match e
    case Signal(a, _) => (pc.Checked? || pc.Posting?) && pc.arrival == a
    case Failure(code) => pc == Reporting(code)
  }

  /** A step of a closed subscription lets nothing new past the check. */
  lemma ClosedStep(s: State, step: Step, t: nat, e: Event)
    requires Enabled(s, step) && s.closed && t < |s.callbacks|
    ensures t < |Apply(s, step).callbacks|
    ensures Carries(Apply(s, step).callbacks[t], e) ==> Carries(s.callbacks[t], e)
  {
  }

  /**
   Once `closed` is set nothing passes the check any more, in any run: what is enqueued afterwards comes from
   callbacks that were already past it.
   */
  lemma {:induction false} ClosedLetsNothingPass(s: State, run: seq<Step>, i: nat)
    requires Valid(s, run) && s.closed
    ensures Exec(s, run).passed == s.passed
    ensures |Events(s)| <= i < |Events(Exec(s, run))| ==>
              exists t :: 0 <= t < |s.callbacks| && Carries(s.callbacks[t], Events(Exec(s, run))[i])
    decreases |run|
  {
    if run != [] {
      var s1 := Apply(s, run[0]);
      StepFlags(s, run[0]);
      EnqueuesIff(s, run[0]);
      QueueIsAppended(s1, run[1..]);
      ClosedLetsNothingPass(s1, run[1..], i);
      if |Events(s)| <= i < |Events(Exec(s1, run[1..]))| {
        var e := Events(Exec(s1, run[1..]))[i];
        if i < |Events(s1)| {
          assert Carries(s.callbacks[run[0].t], e);
        } else {
          var t :| 0 <= t < |s1.callbacks| && Carries(s1.callbacks[t], e);
          StepCallbacks(s, run[0]);
          ClosedStep(s, run[0], t, e);
        }
      }
    }
  }

  lemma {:induction false} QueueIsAppended(s: State, run: seq<Step>)
    requires Valid(s, run)
    ensures Events(s) <= Events(Exec(s, run))
    decreases |run|
  {
    if run != [] {
      StepKeepsOrder(s, run[0]);
      QueueIsAppended(Apply(s, run[0]), run[1..]);
    }
  }

  /** Once the thread-safe function is released nothing is enqueued any more, in any run. */
  lemma {:induction false} ReleasedEnqueuesNothing(s: State, run: seq<Step>)
    requires Valid(s, run) && s.released
    ensures Events(Exec(s, run)) == Events(s)
    decreases |run|
  {
    if run != [] {
      StepFlags(s, run[0]);
      EnqueuesIff(s, run[0]);
      ReleasedEnqueuesNothing(Apply(s, run[0]), run[1..]);
    }
  }

  // ---------------------------------------------------------------- every signal in exactly one place

  function EventIs(a: nat): Event -> nat { (e: Event) => if e.Signal? && e.arrival == a then 1 else 0 }

  function UnderWay(a: nat): Pc -> nat
  {
    (pc: Pc) => if (pc.Checked? || pc.Posting? || pc.Refused?) && pc.arrival == a then 1 else 0
  }

  function AckUnderWay(a: nat): Pc -> nat { (pc: Pc) => if pc.Acking? && pc.arrival == a then 1 else 0 }

  function Is(a: nat): nat -> nat { b => if a == b then 1 else 0 }

  /** Signal `a` is under way, enqueued or refused, and exactly one of these, once it has arrived. */
  predicate Placed(s: State, a: nat)
  {
    Sum(EventIs(a), Events(s)) + Sum(UnderWay(a), s.callbacks) + Sum(Is(a), s.refused) == if a < s.passed then 1 else 0
  }

  /** Each refused notification is acknowledged once, or about to be; nothing else is. */
  predicate AckedOnce(s: State, a: nat)
  {
    Sum(Is(a), s.acked) + Sum(AckUnderWay(a), s.callbacks) ==
        if s.flavour.ObjectNotices? then Sum(Is(a), s.refused) else 0
  }

  /** A step refuses at most the one signal it is about. */
  function Refusals(s: State, step: Step): seq<nat>
  {
    if step.Advance? && step.t < |s.callbacks| && s.callbacks[step.t].Refused? then [s.callbacks[step.t].arrival]
    else []
  }

  lemma StepRefuses(s: State, step: Step)
    requires Enabled(s, step)
    ensures Apply(s, step).refused == s.refused + Refusals(s, step)
  {
  }

  /** A callback's step moves its signal on, to exactly one next place. */
  lemma StepMoves(s: State, step: Step, a: nat)
    requires Enabled(s, step) && Moves(step)
    ensures var s' := Apply(s, step);
            (if Enqueued(s, step).Some? then EventIs(a)(Enqueued(s, step).value) else 0)
            + UnderWay(a)(s'.callbacks[step.t])
            + (if Refusals(s, step) != [] then Is(a)(Refusals(s, step)[0]) else 0)
            == UnderWay(a)(s.callbacks[step.t]) + (if s'.passed > s.passed && a == s.passed then 1 else 0)
    ensures s.passed <= Apply(s, step).passed <= s.passed + 1
  {
  }

  lemma StepPlaces(s: State, step: Step, a: nat)
    requires Enabled(s, step) && Placed(s, a)
    ensures Placed(Apply(s, step), a)
  {
    var s' := Apply(s, step);
    StepSums(s, step, EventIs(a), UnderWay(a));
    StepRefuses(s, step);
    SumOption(Is(a), s.refused, Refusals(s, step));
    if Moves(step) {
      StepMoves(s, step, a);
    } else {
      QuietStep(s, step);
    }
  }

  /** A step acknowledges at most the one notification it is about. */
  function Acknowledgements(s: State, step: Step): seq<nat>
  {
    if step.Advance? && step.t < |s.callbacks| && s.callbacks[step.t].Acking? then [s.callbacks[step.t].arrival]
    else []
  }

  lemma StepAcknowledges(s: State, step: Step)
    requires Enabled(s, step)
    ensures Apply(s, step).acked == s.acked + Acknowledgements(s, step) && Apply(s, step).flavour == s.flavour
  {
  }

  /** A refused notification goes on to its acknowledgement, and from there to the acknowledged. */
  lemma StepMovesAck(s: State, step: Step, a: nat)
    requires Enabled(s, step) && Moves(step)
    ensures (if Acknowledgements(s, step) != [] then Is(a)(Acknowledgements(s, step)[0]) else 0)
            + AckUnderWay(a)(Apply(s, step).callbacks[step.t])
            == AckUnderWay(a)(s.callbacks[step.t])
               + (if s.flavour.ObjectNotices? && Refusals(s, step) != [] then Is(a)(Refusals(s, step)[0]) else 0)
  {
  }

  lemma StepAcks(s: State, step: Step, a: nat)
    requires Enabled(s, step) && AckedOnce(s, a)
    ensures AckedOnce(Apply(s, step), a)
  {
    CallbackSums(s, step, AckUnderWay(a));
    StepRefuses(s, step);
    StepAcknowledges(s, step);
    SumOption(Is(a), s.refused, Refusals(s, step));
    SumOption(Is(a), s.acked, Acknowledgements(s, step));
    if Moves(step) {
      StepMovesAck(s, step, a);
    }
  }

  lemma {:induction false} RunPlaces(s: State, run: seq<Step>, a: nat)
    requires Valid(s, run) && Placed(s, a) && AckedOnce(s, a)
    ensures Placed(Exec(s, run), a) && AckedOnce(Exec(s, run), a)
    decreases |run|
  {
    if run != [] {
      StepPlaces(s, run[0], a);
      StepAcks(s, run[0], a);
      RunPlaces(Apply(s, run[0]), run[1..], a);
    }
  }

  lemma ReachedPlaces(s0: State, run: seq<Step>, a: nat)
    requires Init(s0) && Valid(s0, run)
    ensures Placed(Exec(s0, run), a) && AckedOnce(Exec(s0, run), a)
  {
    SumZero(UnderWay(a), s0.callbacks);
    SumZero(AckUnderWay(a), s0.callbacks);
    RunPlaces(s0, run, a);
  }

  /** No callback under way is that of notification `a`, whatever the others do. */
  predicate Completed(s: State, a: nat)
  {
    forall t :: 0 <= t < |s.callbacks| ==> UnderWay(a)(s.callbacks[t]) == 0 && AckUnderWay(a)(s.callbacks[t]) == 0
  }

  /**
   Acknowledgement discipline, at any moment of any interleaving: an object notification is one of queued,
   handed to JavaScript and acknowledged empty exactly if its callback has completed, and then it is one
   of these only; the last exactly if it was refused.
   */
  lemma ExactlyOneFate(s0: State, run: seq<Step>, a: nat)
    requires Init(s0) && Valid(s0, run) && s0.flavour.ObjectNotices? && a < Exec(s0, run).passed
    ensures var s := Exec(s0, run);
            && Sum(EventIs(a), s.delivered) + Sum(EventIs(a), s.queue) + Sum(Is(a), s.acked)
               == (if Completed(s, a) then 1 else 0)
            && (Completed(s, a) ==> Sum(Is(a), s.acked) == Sum(Is(a), s.refused))
  {
    var s := Exec(s0, run);
    ReachedPlaces(s0, run, a);
    RunFlavour(s0, run);
    SumZeroIff(UnderWay(a), s.callbacks);
    SumZeroIff(AckUnderWay(a), s.callbacks);
    SumConcat(EventIs(a), s.delivered, s.queue);
  }

  /** Log lines and image updates are never acknowledged. */
  lemma OnlyNotificationsAcked(s0: State, run: seq<Step>)
    requires Init(s0) && Valid(s0, run) && !s0.flavour.ObjectNotices?
    ensures Exec(s0, run).acked == []
  {
    var s := Exec(s0, run);
    RunFlavour(s0, run);
    if s.acked != [] {
      ReachedPlaces(s0, run, s.acked[0]);
      SumAtLeast(Is(s.acked[0]), s.acked, 0);
    }
  }

  lemma {:induction false} RunFlavour(s: State, run: seq<Step>)
    requires Valid(s, run)
    ensures Exec(s, run).flavour == s.flavour
    decreases |run|
  {
    if run != [] {
      RunFlavour(Apply(s, run[0]), run[1..]);
    }
  }

  /** At any moment: no signal is enqueued twice, and none is both handed on and acknowledged empty. */
  lemma NeverTwice(s0: State, run: seq<Step>, i: nat, j: nat)
    requires Init(s0) && Valid(s0, run)
    requires i < |Events(Exec(s0, run))| && Events(Exec(s0, run))[i].Signal?
    ensures var s, e := Exec(s0, run), Events(Exec(s0, run))[i];
            && e.arrival < s.passed && e.arrival !in s.acked
            && (i < j < |Events(s)| ==> Events(s)[j].Signal? ==> Events(s)[j].arrival != e.arrival)
  {
    var s := Exec(s0, run);
    var a := Events(s)[i].arrival;
    ReachedPlaces(s0, run, a);
    SumAtLeast(EventIs(a), Events(s), i);
    if a in s.acked {
      var k :| 0 <= k < |s.acked| && s.acked[k] == a;
      SumAtLeast(Is(a), s.acked, k);
    }
    if i < j < |Events(s)| {
      SumAtLeastTwo(EventIs(a), Events(s), i, j);
    }
  }
}
