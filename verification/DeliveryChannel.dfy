/** The native side of one subscription as an object: its atomics, its thread-safe function and its callbacks. */
module DeliveryChannel {
  import opened Delivery
  import opened DeliveryIndex

  function StepsLeft(pc: Pc): nat
  {
    match pc
    case Idle => 0
    case Acking(_) => 1
    case Reporting(_) => 1
    case Refused(_, _) => 2
    case Posting(_, _) => 3
    case Checked(_) => 4
  }

  /** Let callback 0 run to its end undisturbed. */
  function Finish(s: State): State
    requires |s.callbacks| == 1
    decreases StepsLeft(s.callbacks[0])
  {
    if s.callbacks[0].Idle? then s else Finish(Next(s, 0))
  }

  /** An undisturbed callback is a run of the step system, and a serial one. */
  lemma {:induction false} FinishIsRun(s: State) returns (run: seq<Step>)
    requires |s.callbacks| == 1
    ensures Valid(s, run) && Exec(s, run) == Finish(s) && Serial(s, run)
    ensures Finish(s).callbacks == [Idle]
    decreases StepsLeft(s.callbacks[0])
  {
    if s.callbacks[0].Idle? {
      run := [];
    } else {
      var rest := FinishIsRun(Next(s, 0));
      run := [Advance(0)] + rest;
      assert run[1..] == rest;
    }
  }

  /** Between callbacks: conserved, indexed, and within the queue's bound. */
  predicate Kept(s: State)
  {
    && s.callbacks == [Idle] && |s.queue| <= s.capacity && s.counter < U64 && Conserved(s)
    && (s.passed < U64 ==> Positive(s) && Indexed(s.flavour, Events(s)))
  }

  lemma {:induction false} RunCounter(s: State, run: seq<Step>)
    requires Valid(s, run) && s.counter < U64
    ensures Exec(s, run).counter < U64
    decreases |run|
  {
    if run != [] {
      StepCounter(s, run[0]);
      RunCounter(Apply(s, run[0]), run[1..]);
    }
  }

  lemma StepCounter(s: State, step: Step)
    requires Enabled(s, step) && s.counter < U64
    ensures Apply(s, step).counter < U64
  {
  }

  lemma KeptAs(s: State, s': State)
    requires Kept(s) && s' == s
    ensures Kept(s')
  {
  }

  /** A serial run keeps the index. */
  lemma SerialKeeps(s: State, run: seq<Step>)
    requires Kept(s) && Valid(s, run) && Serial(s, run) && Exec(s, run).passed < U64
    ensures Positive(Exec(s, run)) && Indexed(s.flavour, Events(Exec(s, run))) && Exec(s, run).flavour == s.flavour
  {
    var n := |Events(Exec(s, run))|;
    RunPassed(s, run);
    RunPositive(s, run);
    SerialInTurn(s, run, n);
    RunIndexed(s, run, n);
    QueueIsBoundedFifo(s, run);
    assert First(Events(s), n) == Events(s) && First(Events(Exec(s, run)), n) == Events(Exec(s, run));
  }

  /** A whole callback leaves the object conserved, indexed and at rest. */
  lemma CallbackKeeps(s: State, step: Step)
    requires Kept(s) && Enabled(s, step) && (step.Arrive? || step.Fail?)
    ensures Kept(Finish(Apply(s, step)))
  {
    var s1 := Apply(s, step);
    var rest := FinishIsRun(s1);
    var run := [step] + rest;
    Prefixed(s, step, rest);
    assert run[1..] == rest && Serial(s, run);
    RunConserves(s, run);
    RunCounter(s, run);
    QueueIsBoundedFifo(s, run);
    if Exec(s, run).passed < U64 {
      SerialKeeps(s, run);
    }
  }

  lemma TakeKeeps(s: State)
    requires Kept(s) && s.queue != []
    ensures Kept(Apply(s, Deliver))
  {
    StepConserves(s, Deliver);
    StepKeepsOrder(s, Deliver);
    if s.passed < U64 {
      StepPositive(s, Deliver);
      assert Events(Apply(s, Deliver)) == Events(s);
    }
  }

  class Channel {
    const flavour: Flavour
    const capacity: nat
    var counter: nat
    var closed: bool
    var released: bool
    var queue: seq<Event>
    ghost var delivered: seq<Event>
    ghost var refused: seq<nat>
    var acked: seq<nat>
    var passed: nat

    ghost function Abs(): State
      reads this
    {
      State(flavour, capacity, counter, closed, released, queue, [Idle], delivered, refused, acked, passed)
    }

    ghost predicate Valid()
      reads this
    {
      Kept(Abs())
    }

    constructor (flavour: Flavour, capacity: nat)
      requires capacity > 0
      ensures Valid() && Init(Abs()) && this.flavour == flavour && this.capacity == capacity
    {
      this.flavour, this.capacity := flavour, capacity;
      counter, closed, released, queue, acked, passed := 0, false, false, [], [], 0;
      delivered, refused := [], [];
      new;
      InitConserves(Abs());
    }

    /** `NonBlockingCall`. */
    method NonBlockingCall(e: Event) returns (ok: bool)
      modifies this`queue
      ensures ok <==> old(|queue|) < capacity && !old(released)
      ensures queue == if ok then old(queue) + [e] else old(queue)
    {
      ok := |queue| < capacity && !released;
      if ok {
        queue := queue + [e];
      }
    }

    /** The exchange of the flag in `Data::close`; true for the first caller. */
    method BeginClose() returns (first: bool)
      requires Valid()
      modifies this`closed
      ensures Valid() && Abs() == Apply(old(Abs()), Close) && closed && first == !old(closed)
    {
      StepConserves(Abs(), Close);
      first := !closed;
      closed := true;
    }

    /** `callback.Release()`. */
    method Release()
      requires Valid() && closed
      modifies this`released
      ensures Valid() && Abs() == Apply(old(Abs()), Step.Release) && released
    {
      StepConserves(Abs(), Step.Release);
      released := true;
    }

    /** `object_watch_cb`. */
    method OnNotification()
      requires Valid() && flavour.ObjectNotices?
      modifies this
      ensures Valid() && Abs() == Finish(Apply(old(Abs()), Arrive(0)))
      ensures old(closed) ==> Abs() == old(Abs())
      ensures !old(closed) ==> passed == old(passed) + 1
      ensures !old(closed) && old(|queue|) < capacity && !old(released) ==>
                && queue == old(queue) + [Signal(old(passed), old(counter))] && counter == 0
                && refused == old(refused) && acked == old(acked)
      ensures !old(closed) && !(old(|queue|) < capacity && !old(released)) ==>
                && queue == old(queue) && counter == (old(counter) + 1) % U64
                && refused == old(refused) + [old(passed)] && acked == old(acked) + [old(passed)]
      ensures closed == old(closed) && released == old(released) && delivered == old(delivered)
    {
      ghost var before := Abs();
      CallbackKeeps(before, Arrive(0));
      if closed {
        KeptAs(before, Abs());
        return;
      }
      var arrival := passed;
      passed := passed + 1;
      var dropped := counter;
      counter := 0;
      var ok := NonBlockingCall(Signal(arrival, dropped));
      if !ok {
        counter := (counter + (dropped + 1) % U64) % U64;
        refused := refused + [arrival];
        acked := acked + [arrival];
      }
      CallbackSteps(before);
      KeptAs(Finish(Apply(before, Arrive(0))), Abs());
    }

    /** `object_watch_error_cb`. */
    method OnError(code: int)
      requires Valid() && flavour.ObjectNotices?
      modifies this
      ensures Valid() && Abs() == Finish(Apply(old(Abs()), Fail(0, code)))
      ensures queue == if !old(closed) && old(|queue|) < capacity && !old(released) then old(queue) + [Failure(code)]
                       else old(queue)
      ensures Abs() == old(Abs()).(queue := queue)
    {
      ghost var before := Abs();
      CallbackKeeps(before, Fail(0, code));
      if closed {
        KeptAs(before, Abs());
        return;
      }
      var _ := NonBlockingCall(Failure(code));
      ErrorSteps(before, code);
      KeptAs(Finish(Apply(before, Fail(0, code))), Abs());
    }

    /** `monitor_log_cb`. */
    method OnLogLine()
      requires Valid() && flavour.MonitorLines?
      modifies this
      ensures Valid() && Abs() == Finish(Apply(old(Abs()), Arrive(0)))
      ensures old(closed) ==> Abs() == old(Abs())
      ensures !old(closed) ==> passed == old(passed) + 1
      ensures !old(closed) && old(|queue|) < capacity && !old(released) ==>
                && queue == old(queue) + [Signal(old(passed), old(counter))] && counter == 0
                && refused == old(refused) && acked == old(acked)
      ensures !old(closed) && !(old(|queue|) < capacity && !old(released)) ==>
                && queue == old(queue) && counter == (old(counter) + 1) % U64
                && refused == old(refused) + [old(passed)] && acked == old(acked)
      ensures closed == old(closed) && released == old(released) && delivered == old(delivered)
    {
      ghost var before := Abs();
      CallbackKeeps(before, Arrive(0));
      if closed {
        KeptAs(before, Abs());
        return;
      }
      var arrival := passed;
      passed := passed + 1;
      var dropped := counter;
      counter := 0;
      var ok := NonBlockingCall(Signal(arrival, dropped));
      if !ok {
        counter := (counter + (dropped + 1) % U64) % U64;
        refused := refused + [arrival];
      }
      CallbackSteps(before);
      KeptAs(Finish(Apply(before, Arrive(0))), Abs());
    }

    /** `image_update_cb`. */
    method OnUpdate()
      requires Valid() && flavour.ImageUpdates?
      modifies this
      ensures Valid() && Abs() == Finish(Apply(old(Abs()), Arrive(0)))
      ensures old(closed) ==> Abs() == old(Abs())
      ensures !old(closed) ==> passed == old(passed) + 1
      ensures !old(closed) && old(|queue|) < capacity && !old(released) ==>
                && queue == old(queue) + [Signal(old(passed), (old(counter) + 1) % U64)] && counter == 0
                && refused == old(refused) && acked == old(acked)
      ensures !old(closed) && !(old(|queue|) < capacity && !old(released)) ==>
                && queue == old(queue) && counter == (old(counter) + 1) % U64
                && refused == old(refused) + [old(passed)] && acked == old(acked)
      ensures closed == old(closed) && released == old(released) && delivered == old(delivered)
    {
      ghost var before := Abs();
      CallbackKeeps(before, Arrive(0));
      if closed {
        KeptAs(before, Abs());
        return;
      }
      var arrival := passed;
      passed := passed + 1;
      var count := (counter + 1) % U64;
      counter := 0;
      var ok := NonBlockingCall(Signal(arrival, count));
      if !ok {
        counter := (counter + count) % U64;
        refused := refused + [arrival];
      }
      CallbackSteps(before);
      KeptAs(Finish(Apply(before, Arrive(0))), Abs());
    }

    /** The queue's oldest event goes to JavaScript. */
    method Take() returns (e: Event)
      requires Valid() && queue != []
      modifies this
      ensures Valid() && Abs() == Apply(old(Abs()), Deliver)
      ensures old(queue) == [e] + queue && delivered == old(delivered) + [e]
      ensures Abs() == old(Abs()).(queue := queue, delivered := delivered)
    {
      TakeKeeps(Abs());
      e := queue[0];
      delivered := delivered + [e];
      queue := queue[1..];
    }
  }

  /** What an undisturbed error callback comes to; a closed object is left alone. */
  lemma ErrorSteps(s: State, code: int)
    requires s.callbacks == [Idle] && s.flavour.ObjectNotices?
    ensures Finish(Apply(s, Fail(0, code))) ==
            if !s.closed && |s.queue| < s.capacity && !s.released then s.(queue := s.queue + [Failure(code)]) else s
  {
    var s1 := Apply(s, Fail(0, code));
    if !s.closed {
      var s2 := Next(s1, 0);
      assert s2.callbacks == [Idle];
      assert Finish(s1) == Finish(s2) == s2;
    }
  }

  /** What an undisturbed callback comes to, in one go; a closed object is left alone. */
  lemma CallbackSteps(s: State)
    requires s.callbacks == [Idle]
    ensures var a, p := s.passed, if s.flavour.ImageUpdates? then (s.counter + 1) % U64 else s.counter;
            Finish(Apply(s, Arrive(0))) ==
            if s.closed then s
            else if |s.queue| < s.capacity && !s.released then
              s.(passed := a + 1, counter := 0, queue := s.queue + [Signal(a, p)])
            else s.(passed := a + 1, counter := (s.counter + 1) % U64, refused := s.refused + [a],
                    acked := if s.flavour.ObjectNotices? then s.acked + [a] else s.acked)
  {
    if !s.closed {
      OpenCallback(s);
    }
  }

  lemma OpenCallback(s: State)
    requires s.callbacks == [Idle] && !s.closed
    ensures var a, p := s.passed, Payload(s.flavour, s.counter);
            Finish(Apply(s, Arrive(0))) ==
            if s.Room() then s.(passed := a + 1, counter := 0, queue := s.queue + [Signal(a, p)])
            else s.(passed := a + 1, counter := GiveBack(s.flavour, p) % U64, refused := s.refused + [a],
                    acked := if s.flavour.ObjectNotices? then s.acked + [a] else s.acked)
  {
    var s1 := Apply(s, Arrive(0));
    var s2 := Next(s1, 0);
    var s3 := Next(s2, 0);
    if !s.Room() {
      var s4 := Next(s3, 0);
      if s.flavour.ObjectNotices? {
        var s5 := Next(s4, 0);
        assert Finish(s4) == s5;
      }
      assert Finish(s3) == Finish(s4);
    }
    assert Finish(s2) == Finish(s3) && Finish(s1) == Finish(s2);
  }
}
