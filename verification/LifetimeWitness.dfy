/** The overlap that the two-step `close_checked` allows, as concrete runs, and what it leaves behind. */
module LifetimeWitness {
  import opened Wrappers
  import opened Handles
  import opened Lifetime
  import opened LifetimeSafety
  import opened LifetimeSteps
  import opened LifetimeTheorems
  import opened LifetimeProgress
  import opened LifetimeClosing
  import opened LifetimeDangling

  const OPENED: Cell := NewCell(Some(0))

  /** The cluster, held by its wrapper, with lock and flag as in `cell`. */
  function Root(cell: Cell, driver: Option<Tid>): Node
  {
    NewHandle(Cluster, None, 0, None).(cell := cell, driver := driver)
  }

  /** A reachable state, whatever the history has recorded. */
  ghost predicate Looks(s: State, nodes: seq<Node>, threads: seq<Pc>)
  {
    Reachable(s) && Inv(s) && s.nodes == nodes && s.threads == threads
  }

  lemma ReachedBy(s0: State, run: seq<Step>)
    requires Init(s0) && Valid(s0, run)
    ensures Reachable(Exec(s0, run))
  {
  }

  lemma ReachableStep(s: State, step: Step)
    requires Reachable(s) && Enabled(s, step)
    ensures Reachable(Apply(s, step))
  {
    var s0, run :| Init(s0) && Valid(s0, run) && Exec(s0, run) == s;
    RunCons(s, step, []);
    assert [step] + [] == [step];
    RunConcat(s0, run, [step]);
    ReachedBy(s0, run + [step]);
  }

  lemma Go(s: State, step: Step, nodes: seq<Node>, threads: seq<Pc>) returns (s': State)
    requires Reachable(s) && Inv(s) && Enabled(s, step)
    requires Patch(s, step.t, StepDelta(s, step)).nodes == nodes
    requires s.threads[step.t := StepDelta(s, step).pc] == threads
    ensures Looks(s', nodes, threads)
  {
    ReachableStep(s, step);
    StepKeepsInv(s, step);
    s' := Apply(s, step);
  }

  lemma Started() returns (s: State)
    ensures Looks(s, [], [Idle, Idle])
  {
    s := State([], [Idle, Idle], {});
    InitInv(s);
    assert Valid(s, []) && Exec(s, []) == s;
  }

  lemma Connected() returns (s: State)
    ensures Looks(s, [Root(OPENED, None)], [Idle, Idle])
  {
    var s0 := Started();
    s := Go(s0, Begin(0, Connect), [Root(OPENED, None)], [Idle, Idle]);
  }

  lemma BothStarted() returns (s: State)
    ensures Looks(s, [Root(OPENED, None)], [OpenWait(0), CloseLoad(0)])
  {
    var s0 := Connected();
    var s1 := Go(s0, Begin(0, Open(0)), [Root(OPENED, None)], [OpenWait(0), Idle]);
    s := Go(s1, Begin(1, Close(0)), [Root(OPENED, None)], [OpenWait(0), CloseLoad(0)]);
  }

  lemma OpenInside() returns (s: State)
    ensures Looks(s, [Root(OPENED.Enter(0), None)], [OpenBody(0), CloseLoad(0)])
  {
    var s0 := BothStarted();
    s := Go(s0, Advance(0, true), [Root(OPENED.Enter(0), None)], [OpenBody(0), CloseLoad(0)]);
  }

  /** Thread 0 is opening a context while thread 1 loads the counter: both are let through. */
  lemma BothInside() returns (s: State)
    ensures Looks(s, [Root(OPENED.Enter(0), None)], [OpenBody(0), CloseWait(0, false)])
  {
    var s0 := OpenInside();
    s := Go(s0, Advance(1, true), [Root(OPENED.Enter(0), None)], [OpenBody(0), CloseWait(0, false)]);
  }

  const CREATED: Node := NewHandle(Context, Some(0), 1, Some(0))

  lemma ContextCreated() returns (s: State)
    ensures Looks(s, [Root(OPENED, None), CREATED], [OpenAdd(0, 1), CloseWait(0, false)])
  {
    var s0 := BothInside();
    assert OPENED.Enter(0).Leave(0) == OPENED;
    s := Go(s0, Advance(0, true), [Root(OPENED, None), CREATED], [OpenAdd(0, 1), CloseWait(0, false)]);
  }

  /** The cluster closes over the new context: its close still holds a stale zero. */
  lemma ClosedOver() returns (s: State)
    ensures Looks(s, [Root(OPENED.BeginClose(1), Some(1)), CREATED], [OpenAdd(0, 1), CloseBody(0, false, 0)])
  {
    var s0 := ContextCreated();
    s := Go(s0, Advance(1, true),
            [Root(OPENED.BeginClose(1), Some(1)), CREATED], [OpenAdd(0, 1), CloseBody(0, false, 0)]);
  }

  /**
   The exception in tree safety is real: a run of two threads in which a cluster passes its busy
   check, is closed, and is about to be shut down while a context just created under it exists.
   */
  lemma OverlapBreaksTreeSafety() returns (s: State)
    ensures Reachable(s) && Inv(s) && |s.nodes| == 2 && |s.threads| == 2
    ensures s.nodes[1].native && s.nodes[1].up == Some(0) && s.nodes[0].cell.closed
    ensures !AllOpen(s.nodes, 1) && s.threads[1].CloseBody? && 0 in s.exposed
  {
    s := ClosedOver();
    TreeSafety(s, 1);
  }

  // ---------------------------------------------------------------- a watch registered inside the window

  const HELD: Cell := OPENED.AddChild()

  /** The cluster, held by its own wrapper and by that of the context. */
  function Holder(cell: Cell): Node { Root(cell, None).(refs := 2) }

  const CONTEXT: Node := CREATED.(counted := true, driver := None, refs := 1, published := true)
  const FRESH: Cell := NewCell(Some(1))
  const COUNTED: Cell := FRESH.AddChild()
  const SHUT: Cell := COUNTED.BeginClose(1)

  const NEW_WATCH: Node := NewSub(Watch, 1, 0)
  const NATIVE_WATCH: Node := NEW_WATCH.(native := true, entered := true)
  const LIVE_WATCH: Node := NATIVE_WATCH.(driver := None, refs := 1, published := true)

  /** The three nodes, with the context's cell as given. */
  function Tree(cell: Cell, watch: Node): seq<Node> { [Holder(HELD), CONTEXT.(cell := cell), watch] }

  /** Thread 0 opens a context, undisturbed. */
  lemma OpenBegun() returns (s: State)
    ensures Looks(s, [Root(OPENED.Enter(0), None)], [OpenBody(0), Idle])
  {
    var s0 := Connected();
    var s1 := Go(s0, Begin(0, Open(0)), [Root(OPENED, None)], [OpenWait(0), Idle]);
    s := Go(s1, Advance(0, true), [Root(OPENED.Enter(0), None)], [OpenBody(0), Idle]);
  }

  lemma ContextMade() returns (s: State)
    ensures Looks(s, [Root(OPENED, None), CREATED], [OpenAdd(0, 1), Idle])
  {
    var s0 := OpenBegun();
    EnterLeave(OPENED, 0);
    s := Go(s0, Advance(0, true), [Root(OPENED, None), CREATED], [OpenAdd(0, 1), Idle]);
  }

  lemma ContextOpened() returns (s: State)
    ensures Looks(s, [Holder(HELD), CONTEXT], [Idle, Idle])
  {
    var s0 := ContextMade();
    s := Go(s0, Advance(0, true), [Holder(HELD), CONTEXT], [Idle, Idle]);
  }

  lemma WatchBegun() returns (s: State)
    ensures Looks(s, [Holder(HELD), CONTEXT], [SubAdd(1), CloseLoad(1)])
  {
    var s0 := ContextOpened();
    var s1 := Go(s0, Begin(0, Subscribe(1)), [Holder(HELD), CONTEXT], [SubAdd(1), Idle]);
    s := Go(s1, Begin(1, Close(1)), [Holder(HELD), CONTEXT], [SubAdd(1), CloseLoad(1)]);
  }

  /** The busy check of the context passes just before the watch is counted. */
  lemma ContextChecked() returns (s: State)
    ensures Looks(s, [Holder(HELD), CONTEXT], [SubAdd(1), CloseWait(1, false)])
  {
    var s0 := WatchBegun();
    s := Go(s0, Advance(1, true), [Holder(HELD), CONTEXT], [SubAdd(1), CloseWait(1, false)]);
  }

  lemma WatchCounted() returns (s: State)
    ensures Looks(s, Tree(COUNTED, NEW_WATCH), [SubWait(1, 2), CloseWait(1, false)])
  {
    var s0 := ContextChecked();
    s := Go(s0, Advance(0, true), Tree(COUNTED, NEW_WATCH), [SubWait(1, 2), CloseWait(1, false)]);
  }

  lemma WatchEntered() returns (s: State)
    ensures Looks(s, Tree(COUNTED.Enter(0), NEW_WATCH), [SubBody(1, 2), CloseWait(1, false)])
  {
    var s0 := WatchCounted();
    s := Go(s0, Advance(0, true), Tree(COUNTED.Enter(0), NEW_WATCH), [SubBody(1, 2), CloseWait(1, false)]);
  }

  lemma WatchRegistered() returns (s: State)
    ensures Looks(s, Tree(COUNTED.Enter(0), NATIVE_WATCH), [SubLeave(1, 2), CloseWait(1, false)])
  {
    var s0 := WatchEntered();
    s := Go(s0, Advance(0, true), Tree(COUNTED.Enter(0), NATIVE_WATCH), [SubLeave(1, 2), CloseWait(1, false)]);
  }

  lemma WatchLive() returns (s: State)
    ensures Looks(s, Tree(COUNTED, LIVE_WATCH), [Idle, CloseWait(1, false)])
  {
    var s0 := WatchRegistered();
    EnterLeave(COUNTED, 0);
    s := Go(s0, Advance(0, true), Tree(COUNTED, LIVE_WATCH), [Idle, CloseWait(1, false)]);
  }

  const CLOSING: Node := CONTEXT.(cell := SHUT, driver := Some(1))
  const DESTROYED: Node := CLOSING.(native := false, closes := 1)
  const GONE: Node := DESTROYED.(counted := false, driver := None)

  lemma ContextClosing() returns (s: State)
    ensures Looks(s, [Holder(HELD), CLOSING, LIVE_WATCH], [Idle, CloseBody(1, false, 1)])
  {
    var s0 := WatchLive();
    s := Go(s0, Advance(1, true), [Holder(HELD), CLOSING, LIVE_WATCH], [Idle, CloseBody(1, false, 1)]);
  }

  lemma ContextDestroyed() returns (s: State)
    ensures Looks(s, [Holder(HELD), DESTROYED, LIVE_WATCH], [Idle, CloseRemove(1, false)])
  {
    var s0 := ContextClosing();
    s := Go(s0, Advance(1, true), [Holder(HELD), DESTROYED, LIVE_WATCH], [Idle, CloseRemove(1, false)]);
  }

  lemma ContextGone() returns (s: State)
    ensures Looks(s, [Holder(OPENED), GONE, LIVE_WATCH], [Idle, CloseUnlock(1, false)])
  {
    var s0 := ContextDestroyed();
    AddRemoveCancel(OPENED);
    s := Go(s0, Advance(1, true), [Holder(OPENED), GONE, LIVE_WATCH], [Idle, CloseUnlock(1, false)]);
  }

  /** At rest: an open cluster, a closed context, and a live watch in it. */
  lemma WatchStranded() returns (s: State)
    ensures Looks(s, [Holder(OPENED), GONE.(cell := SHUT.EndClose()), LIVE_WATCH], [Idle, Idle])
  {
    var s0 := ContextGone();
    s := Go(s0, Advance(1, true), [Holder(OPENED), GONE.(cell := SHUT.EndClose()), LIVE_WATCH], [Idle, Idle]);
  }

  /**
   A stuck tree can be reached: at rest, a watch is open in its closed context with its wrapper still
   held, no close takes it down, and no run at all ever unregisters it.
   */
  lemma StuckTreeReached() returns (s: State)
    ensures Reachable(s) && Inv(s) && Quiescent(s) && |s.nodes| == 3 && s.nodes[2].native && s.nodes[2].refs > 0
    ensures !Closable(s, 2) && !Sound(s)
    ensures forall run :: Valid(s, run) ==> 2 < |Exec(s, run).nodes| && Exec(s, run).nodes[2].native
  {
    s := WatchStranded();
    assert 2 in OpenNodes(s);
    forall run | Valid(s, run)
      ensures 2 < |Exec(s, run).nodes| && Exec(s, run).nodes[2].native
    {
      NativeForever(s, run, 2);
    }
  }

  lemma ReachableRun(s: State, run: seq<Step>)
    requires Reachable(s) && Valid(s, run)
    ensures Reachable(Exec(s, run))
  {
    var s0, first :| Init(s0) && Valid(s0, first) && Exec(s0, first) == s;
    RunConcat(s0, first, run);
    ReachedBy(s0, first + run);
  }

  /**
   And from there, closing the watch, which throws, and dropping its wrapper: a callback runs without its
   `Data`, while the cluster is still there to make it.
   */
  lemma DanglingReached() returns (s: State)
    ensures Reachable(s) && Inv(s) && |s.threads| == 2 && Dangling(s, 2) && s.nodes[0].native
  {
    var s0 := WatchStranded();
    assert Kids(s0.nodes, 0) == {} && Kids(s0.nodes, 1) == {2};
    DanglesBeforeShutdownIff(s0, 2, 1, 0);
    var run :| Counts(s0, run, 1, 0) && Dangling(Exec(s0, run), 2) && 0 < |Exec(s0, run).nodes|
               && Exec(s0, run).nodes[0].native;
    RunKeepsInv(s0, run);
    ReachableRun(s0, run);
    s := Exec(s0, run);
  }
}
