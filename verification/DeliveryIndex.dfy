/** When what JavaScript receives tells it exactly which arrivals it received. */
module DeliveryIndex {
  import opened Sums
  import opened Delivery

  /** Each signal's arrival number is the running sum of what the events up to it stand for, less one. */
  predicate Indexed(flavour: Flavour, events: seq<Event>)
  {
    forall i :: 0 <= i < |events| && events[i].Signal? ==>
      events[i].arrival + 1 == Sum(WeightOf(flavour), events[..i + 1])
  }

  /** The last event completes the sum, if it is a signal. */
  predicate Completes(flavour: Flavour, events: seq<Event>, e: Event)
  {
    e.Signal? ==> e.arrival + 1 == Sum(WeightOf(flavour), events) + Weight(flavour, e)
  }

  lemma IndexedPrefix(flavour: Flavour, events: seq<Event>, n: nat)
    requires Indexed(flavour, events) && n <= |events|
    ensures Indexed(flavour, events[..n])
  {
    forall i | 0 <= i < n && events[i].Signal?
      ensures events[..n][..i + 1] == events[..i + 1]
    {
    }
  }

  lemma LastCompletes(flavour: Flavour, events: seq<Event>, e: Event)
    requires Indexed(flavour, events + [e])
    ensures Completes(flavour, events, e)
  {
    var all := events + [e];
    SumAppend(WeightOf(flavour), events, e);
    assert all[|events|] == e && all[..|events| + 1] == all;
  }

  lemma StillIndexed(flavour: Flavour, events: seq<Event>, e: Event)
    requires Indexed(flavour, events) && Completes(flavour, events, e)
    ensures Indexed(flavour, events + [e])
  {
    var all := events + [e];
    SumAppend(WeightOf(flavour), events, e);
    forall i | 0 <= i < |all| && all[i].Signal?
      ensures all[i].arrival + 1 == Sum(WeightOf(flavour), all[..i + 1])
    {
      if i < |events| {
        assert all[i] == events[i] && all[..i + 1] == events[..i + 1];
      } else {
        assert all[..i + 1] == all;
      }
    }
  }

  lemma IndexedAppend(flavour: Flavour, events: seq<Event>, e: Event)
    ensures Indexed(flavour, events + [e]) <==> Indexed(flavour, events) && Completes(flavour, events, e)
  {
    if Indexed(flavour, events + [e]) {
      IndexedPrefix(flavour, events + [e], |events|);
      assert (events + [e])[..|events|] == events;
      LastCompletes(flavour, events, e);
    } else if Indexed(flavour, events) && Completes(flavour, events, e) {
      StillIndexed(flavour, events, e);
    }
  }

  // ---------------------------------------------------------------- the exact condition

  /** What the counter and the callbacks other than `t`'s stand for. */
  function Others(s: State, t: nat): nat
    requires t < |s.callbacks|
  {
    s.counter + Sum(ShareOf(s.flavour), s.callbacks[t := Idle])
  }

  /** If the step enqueues a signal, then the counter and the other callbacks stand for exactly the later arrivals. */
  predicate TakesTurn(s: State, step: Step)
    requires Enabled(s, step)
  {
    Enqueued(s, step).Some? && Enqueued(s, step).value.Signal? ==>
      Others(s, step.t) + Enqueued(s, step).value.arrival + 1 == s.passed
  }

  /** Exactly then the enqueued signal's arrival number completes the running sum. */
  lemma EnqueuedIff(s: State, step: Step)
    requires Enabled(s, step) && Conserved(s) && s.passed < U64 && Enqueued(s, step).Some?
    ensures Completes(s.flavour, Events(s), Enqueued(s, step).value) <==> TakesTurn(s, step)
  {
    SumUpdate(ShareOf(s.flavour), s.callbacks, step.t, Idle);
  }

  /** Each of the first `n` signals that the run enqueues takes its turn. */
  predicate InTurn(s: State, run: seq<Step>, n: nat)
    requires Valid(s, run)
    decreases |run|
  {
    run == [] || ((|Events(s)| < n ==> TakesTurn(s, run[0])) && InTurn(Apply(s, run[0]), run[1..], n))
  }

  /** The first `n` events, or all there are. */
  function First(events: seq<Event>, n: nat): seq<Event> { if n <= |events| then events[..n] else events }

  lemma StepIndexed(s: State, step: Step, n: nat)
    requires Enabled(s, step) && Conserved(s) && s.passed < U64
    ensures Indexed(s.flavour, First(Events(Apply(s, step)), n)) <==>
            Indexed(s.flavour, First(Events(s), n)) && (|Events(s)| < n ==> TakesTurn(s, step))
  {
    var events, events' := Events(s), Events(Apply(s, step));
    StepKeepsOrder(s, step);
    if Enqueued(s, step).None? {
      assert events' == events;
    } else if n <= |events| {
      assert events'[..n] == events[..n];
    } else {
      var e := Enqueued(s, step).value;
      EnqueuedIff(s, step);
      IndexedAppend(s.flavour, events, e);
      assert events' == events + [e] && First(events', n) == events' && First(events, n) == events;
    }
  }

  lemma StepFlavour(s: State, step: Step)
    requires Enabled(s, step)
    ensures var s' := Apply(s, step);
            s'.flavour == s.flavour && |s'.callbacks| == |s.callbacks| && s.passed <= s'.passed
  {
  }

  lemma {:induction false} RunIndexed(s: State, run: seq<Step>, n: nat)
    requires Valid(s, run) && Conserved(s) && Exec(s, run).passed < U64
    ensures s.passed < U64 && Exec(s, run).flavour == s.flavour
    ensures Indexed(s.flavour, First(Events(Exec(s, run)), n)) <==>
            Indexed(s.flavour, First(Events(s), n)) && InTurn(s, run, n)
    decreases |run|
  {
    if run != [] {
      StepConserves(s, run[0]);
      StepFlavour(s, run[0]);
      RunIndexed(Apply(s, run[0]), run[1..], n);
      StepIndexed(s, run[0], n);
    }
  }

  /**
   Exact index reconstruction, for any interleaving: the arrival numbers of the first `n` events are the
   running sums of what the events stand for, less one, if and only if each of these events, when it was
   enqueued, left in the counter and in the other callbacks exactly the later arrivals.
   */
  lemma IndexedIff(s0: State, run: seq<Step>, n: nat)
    requires Init(s0) && Valid(s0, run) && Exec(s0, run).passed < U64 && n <= |Events(Exec(s0, run))|
    ensures Indexed(s0.flavour, Events(Exec(s0, run))[..n]) <==> InTurn(s0, run, n)
  {
    InitConserves(s0);
    RunIndexed(s0, run, n);
    assert First(Events(s0), n) == [];
  }

  /** The same of what has been delivered so far. */
  lemma DeliveredIndexedIff(s0: State, run: seq<Step>)
    requires Init(s0) && Valid(s0, run) && Exec(s0, run).passed < U64
    ensures Indexed(s0.flavour, Exec(s0, run).delivered) <==> InTurn(s0, run, |Exec(s0, run).delivered|)
  {
    var s := Exec(s0, run);
    IndexedIff(s0, run, |s.delivered|);
    assert Events(s)[..|s.delivered|] == s.delivered;
  }

  // ---------------------------------------------------------------- every event stands for a signal

  predicate PositiveEvents(flavour: Flavour, events: seq<Event>)
  {
    forall i :: 0 <= i < |events| ==> PositiveEvent(flavour, events[i])
  }

  predicate PositivePc(flavour: Flavour, pc: Pc) { pc.Posting? ==> Share(flavour, pc) > 0 }

  predicate PositiveEvent(flavour: Flavour, e: Event) { e.Signal? ==> Weight(flavour, e) > 0 }

  predicate Positive(s: State)
  {
    && PositiveEvents(s.flavour, Events(s))
    && forall t :: 0 <= t < |s.callbacks| ==> PositivePc(s.flavour, s.callbacks[t])
  }

  lemma CounterBelowPassed(s: State, t: nat)
    requires Conserved(s) && s.passed < U64 && t < |s.callbacks| && s.callbacks[t].Checked?
    ensures s.counter < s.passed
  {
    SumAtLeast(ShareOf(s.flavour), s.callbacks, t);
  }

  /** What is enqueued, and what the step's own callback then holds, stands for a signal. */
  lemma OwnPositive(s: State, step: Step)
    requires Enabled(s, step) && Conserved(s) && s.passed < U64 && Moves(step)
    requires PositivePc(s.flavour, s.callbacks[step.t])
    ensures Enqueued(s, step).Some? ==> PositiveEvent(s.flavour, Enqueued(s, step).value)
    ensures PositivePc(s.flavour, Apply(s, step).callbacks[step.t])
  {
    if step.Advance? && s.callbacks[step.t].Checked? {
      CounterBelowPassed(s, step.t);
    }
  }

  lemma EventsPositive(s: State, step: Step)
    requires Enabled(s, step) && PositiveEvents(s.flavour, Events(s))
    requires Enqueued(s, step).Some? ==> PositiveEvent(s.flavour, Enqueued(s, step).value)
    ensures PositiveEvents(s.flavour, Events(Apply(s, step)))
  {
    StepKeepsOrder(s, step);
  }

  /** A step moves its own callback only. */
  lemma OthersUnmoved(s: State, step: Step, t: nat)
    requires Enabled(s, step) && t < |s.callbacks| && (Moves(step) ==> t != step.t)
    ensures t < |Apply(s, step).callbacks| && Apply(s, step).callbacks[t] == s.callbacks[t]
  {
  }

  lemma StepPositive(s: State, step: Step)
    requires Enabled(s, step) && Conserved(s) && s.passed < U64 && Positive(s)
    ensures Positive(Apply(s, step))
  {
    StepFlavour(s, step);
    if Moves(step) {
      OwnPositive(s, step);
    } else {
      QuietStep(s, step);
    }
    EventsPositive(s, step);
    var s' := Apply(s, step);
    forall t | 0 <= t < |s'.callbacks|
      ensures PositivePc(s.flavour, s'.callbacks[t])
    {
      if !(Moves(step) && t == step.t) {
        OthersUnmoved(s, step, t);
      }
    }
  }

  lemma {:induction false} RunPositive(s: State, run: seq<Step>)
    requires Valid(s, run) && Conserved(s) && Positive(s) && Exec(s, run).passed < U64
    ensures s.passed < U64 && Exec(s, run).flavour == s.flavour && Positive(Exec(s, run))
    decreases |run|
  {
    if run != [] {
      StepConserves(s, run[0]);
      StepFlavour(s, run[0]);
      RunPassed(Apply(s, run[0]), run[1..]);
      StepPositive(s, run[0]);
      RunPositive(Apply(s, run[0]), run[1..]);
    }
  }

  lemma {:induction false} RunPassed(s: State, run: seq<Step>)
    requires Valid(s, run)
    ensures s.passed <= Exec(s, run).passed
    decreases |run|
  {
    if run != [] {
      StepFlavour(s, run[0]);
      RunPassed(Apply(s, run[0]), run[1..]);
    }
  }

  /** In every interleaving, a delivered signal stands for at least one: an update's count is never zero. */
  lemma DeliveredPositive(s0: State, run: seq<Step>)
    requires Init(s0) && Valid(s0, run) && Exec(s0, run).passed < U64
    ensures PositiveEvents(s0.flavour, Exec(s0, run).delivered)
  {
    InitConserves(s0);
    RunPositive(s0, run);
    var s := Exec(s0, run);
    assert forall i :: 0 <= i < |s.delivered| ==> s.delivered[i] == Events(s)[i];
  }

  // ---------------------------------------------------------------- serial callbacks

  predicate Active(pc: Pc) { pc.Checked? || pc.Posting? || pc.Refused? || pc.Acking? }

  predicate NoneActive(s: State) { forall t :: 0 <= t < |s.callbacks| ==> !Active(s.callbacks[t]) }

  /** A run in which a signal's callback starts only when no other one is under way; error callbacks may overlap. */
  predicate Serial(s: State, run: seq<Step>)
    requires Valid(s, run)
    decreases |run|
  {
    run == [] || ((run[0].Arrive? ==> NoneActive(s)) && Serial(Apply(s, run[0]), run[1..]))
  }

  predicate OneActive(s: State)
  {
    forall t, u :: 0 <= t < |s.callbacks| && 0 <= u < |s.callbacks| ==>
      Active(s.callbacks[t]) && Active(s.callbacks[u]) ==> t == u
  }

  /** The active callback is the latest arrival's, and from its exchange on the counter stays at zero. */
  predicate LatestOk(s: State, t: nat)
    requires t < |s.callbacks|
  {
    match s.callbacks[t]
    case Checked(a) => a + 1 == s.passed
    case Posting(a, _) => a + 1 == s.passed && s.counter == 0
    case Refused(a, _) => a + 1 == s.passed && s.counter == 0
    case _ => true
  }

  predicate Ordered(s: State) { OneActive(s) && forall t :: 0 <= t < |s.callbacks| ==> LatestOk(s, t) }

  lemma StepOneActive(s: State, step: Step)
    requires Enabled(s, step) && OneActive(s) && (step.Arrive? ==> NoneActive(s))
    ensures OneActive(Apply(s, step))
  {
    if Moves(step) {
      var t := step.t;
      assert Active(Apply(s, step).callbacks[t]) ==> Active(s.callbacks[t]) || NoneActive(s);
    }
  }

  /** Where the active callback's own step leads. */
  lemma OwnLatest(s: State, step: Step)
    requires Enabled(s, step) && Moves(step) && LatestOk(s, step.t)
    ensures LatestOk(Apply(s, step), step.t)
  {
  }

  /** A step of another callback changes neither the counter nor the number of arrivals while `t`'s is active. */
  lemma OtherLatest(s: State, step: Step, t: nat)
    requires Enabled(s, step) && OneActive(s) && (step.Arrive? ==> NoneActive(s))
    requires t < |s.callbacks| && LatestOk(s, t) && (Moves(step) ==> step.t != t)
    ensures LatestOk(Apply(s, step), t)
  {
    if Active(s.callbacks[t]) && Moves(step) {
      assert !Active(s.callbacks[step.t]);
    }
  }

  lemma StepOrdered(s: State, step: Step)
    requires Enabled(s, step) && Ordered(s) && (step.Arrive? ==> NoneActive(s))
    ensures Ordered(Apply(s, step))
  {
    var s' := Apply(s, step);
    StepFlavour(s, step);
    StepOneActive(s, step);
    forall t | 0 <= t < |s'.callbacks|
      ensures LatestOk(s', t)
    {
      if Moves(step) && step.t == t { OwnLatest(s, step); } else { OtherLatest(s, step, t); }
    }
  }

  /** With serial callbacks every signal takes its turn: the counter is zero and nobody else holds anything. */
  lemma OrderedTakesTurn(s: State, step: Step)
    requires Enabled(s, step) && Ordered(s)
    ensures TakesTurn(s, step)
  {
    if Enqueued(s, step).Some? && Enqueued(s, step).value.Signal? {
      var t := step.t;
      assert LatestOk(s, t);
      var rest := s.callbacks[t := Idle];
      forall u | 0 <= u < |rest|
        ensures ShareOf(s.flavour)(rest[u]) == 0
      {
        assert u != t ==> !Active(s.callbacks[u]);
      }
      SumZero(ShareOf(s.flavour), rest);
    }
  }

  lemma {:induction false} SerialInTurn(s: State, run: seq<Step>, n: nat)
    requires Valid(s, run) && Serial(s, run) && Ordered(s)
    ensures InTurn(s, run, n) && Ordered(Exec(s, run))
    decreases |run|
  {
    if run != [] {
      OrderedTakesTurn(s, run[0]);
      StepOrdered(s, run[0]);
      SerialInTurn(Apply(s, run[0]), run[1..], n);
    }
  }

  /** With serial callbacks, then, what is delivered is indexed. */
  lemma DeliveredIndexed(s0: State, run: seq<Step>)
    requires Init(s0) && Valid(s0, run) && Serial(s0, run) && Exec(s0, run).passed < U64
    ensures Indexed(s0.flavour, Exec(s0, run).delivered)
  {
    SerialInTurn(s0, run, |Exec(s0, run).delivered|);
    DeliveredIndexedIff(s0, run);
  }

  // ---------------------------------------------------------------- gaps

  /** The next signal in `events` after position `i`. */
  predicate NextSignal(events: seq<Event>, i: nat, j: nat)
  {
    && i < j < |events| && events[i].Signal? && events[j].Signal?
    && forall k :: i < k < j ==> !events[k].Signal?
  }

  lemma {:induction false} FailuresWeighNothing(flavour: Flavour, events: seq<Event>, i: nat, j: nat)
    requires i <= j <= |events| && forall k :: i <= k < j ==> events[k].Failure?
    ensures Sum(WeightOf(flavour), events[..j]) == Sum(WeightOf(flavour), events[..i])
    decreases j
  {
    if i < j {
      assert events[..j][..j - 1] == events[..j - 1];
      FailuresWeighNothing(flavour, events, i, j - 1);
    }
  }

  /**
   Delivered signals are an order-preserving subsequence of the arrivals, and the gap before each is
   what it reports: `dropped` for a notification or a log line, `coalesced` less one for an update.
   */
  lemma GapsReported(flavour: Flavour, events: seq<Event>, i: nat, j: nat)
    requires Indexed(flavour, events) && PositiveEvents(flavour, events) && NextSignal(events, i, j)
    ensures events[j].arrival == events[i].arrival + Weight(flavour, events[j])
    ensures events[i].arrival < events[j].arrival
    ensures !flavour.ImageUpdates? ==> events[j].payload == events[j].arrival - events[i].arrival - 1
    ensures flavour.ImageUpdates? ==> events[j].payload == events[j].arrival - events[i].arrival >= 1
  {
    FailuresWeighNothing(flavour, events, i + 1, j);
    assert events[..j + 1][..j] == events[..j];
  }

  /** Before the first delivered signal there is the loss it reports, and nothing else. */
  lemma FirstGapReported(flavour: Flavour, events: seq<Event>, j: nat)
    requires Indexed(flavour, events) && j < |events| && events[j].Signal? && forall k :: 0 <= k < j ==>
             !events[k].Signal?
    ensures events[j].arrival + 1 == Weight(flavour, events[j])
  {
    FailuresWeighNothing(flavour, events, 0, j);
    assert events[..j + 1][..j] == events[..j];
  }

  // ---------------------------------------------------------------- concurrent callbacks

  const START := State(ObjectNotices, 2, 0, false, false, [], [Idle, Idle], [], [], [], 0)

  lemma Prefixed(s: State, step: Step, rest: seq<Step>)
    requires Enabled(s, step) && Valid(Apply(s, step), rest)
    ensures Valid(s, [step] + rest) && Exec(s, [step] + rest) == Exec(Apply(s, step), rest)
  {
    assert ([step] + rest)[1..] == rest;
  }

  /** With two callbacks at once, the second arrival can be enqueued first, out of turn, and then reads as the first. */
  lemma ConcurrencyBreaksIndex() returns (run: seq<Step>)
    ensures Init(START) && Valid(START, run) && Exec(START, run).delivered == [Signal(1, 0)]
    ensures !Indexed(ObjectNotices, Exec(START, run).delivered) && !InTurn(START, run, 1)
  {
    var s1 := Apply(START, Arrive(0));
    var s2 := Apply(s1, Arrive(1));
    var s3 := Apply(s2, Advance(1));
    var s4 := Apply(s3, Advance(1));
    assert s4.queue == [Signal(1, 0)];
    assert Valid(s4, [Deliver]) && Exec(s4, [Deliver]).delivered == [Signal(1, 0)] by { Prefixed(s4, Deliver, []); }
    Prefixed(s3, Advance(1), [Deliver]);
    Prefixed(s2, Advance(1), [Advance(1)] + [Deliver]);
    run := [Advance(1)] + ([Advance(1)] + [Deliver]);
    Prefixed(s1, Arrive(1), run);
    Prefixed(START, Arrive(0), [Arrive(1)] + run);
    run := [Arrive(0)] + ([Arrive(1)] + run);
    Overtaken();
    RunsBelow(START, run);
    DeliveredIndexedIff(START, run);
  }

  lemma Overtaken()
    ensures !Indexed(ObjectNotices, [Signal(1, 0)])
  {
    var events := [Signal(1, 0)];
    assert events[..1] == events && events[..0] == [];
    assert Sum(WeightOf(ObjectNotices), events) == Weight(ObjectNotices, events[0]);
  }

  /** A run lets at most one signal past the closed check per step. */
  lemma {:induction false} RunsBelow(s: State, run: seq<Step>)
    requires Valid(s, run)
    ensures Exec(s, run).passed <= s.passed + |run|
    decreases |run|
  {
    if run != [] {
      RunsBelow(Apply(s, run[0]), run[1..]);
    }
  }
}
