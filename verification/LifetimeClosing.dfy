/**
 Closing at rest: which open nodes one close takes down, which trees closes alone take down, and that
 what they cannot take down stays.
 */
module LifetimeClosing {
  import opened Wrappers
  import opened Handles
  import opened Lifetime
  import opened LifetimeInvariant
  import opened LifetimeSafety
  import opened LifetimeSteps
  import opened LifetimeTheorems
  import opened LifetimeProgress

  /** How many operations a run starts. */
  function Starts(run: seq<Step>): nat
  {
    if run == [] then 0 else (if run[0].Begin? then 1 else 0) + Starts(run[1..])
  }

  lemma {:induction false} StartsConcat(a: seq<Step>, b: seq<Step>)
    ensures Starts(a + b) == Starts(a) + Starts(b)
  {
    if a == [] {
      assert a + b == b;
    } else {
      assert (a + b)[1..] == a[1..] + b;
      StartsConcat(a[1..], b);
    }
  }

  lemma {:induction false} AdvancesStartNothing(run: seq<Step>)
    requires OnlyAdvances(run)
    ensures Starts(run) == 0
  {
    if run != [] {
      AdvancesStartNothing(run[1..]);
    }
  }

  function CloseOp(kind: Kind, n: Id): Op { if IsHandle(kind) then Close(n) else End(n) }

  /** The run closes `n` with one operation of thread 0, undisturbed, and that operation ends. */
  ghost predicate OneClose(s: State, run: seq<Step>, n: Id)
    requires n < |s.nodes|
  {
    && run != [] && run[0] == Begin(0, CloseOp(s.nodes[n].kind, n)) && OnlyAdvances(run[1..])
    && Valid(s, run) && Quiescent(Exec(s, run))
  }

  /** What decides whether a close takes `n` down: its counter; or the handles that its teardown uses. */
  ghost predicate Closable(s: State, n: Id)
    requires n < |s.nodes|
  {
    if IsHandle(s.nodes[n].kind) then |Kids(s.nodes, n)| % COUNTER_LIMIT == 0
    else !ParentClosed(s.nodes, n) && (s.nodes[n].kind.Watch? ==> !GrandparentClosed(s.nodes, n))
  }

  // ---------------------------------------------------------------- one close, undisturbed

  /** The node that an explicit close is closing. */
  function Target(pc: Pc): Option<Id>
  {
    match pc
    case CloseLoad(n) => Some(n)
    case CloseWait(n, dtor) => if dtor then None else Some(n)
    case CloseBody(n, dtor, _) => if dtor then None else Some(n)
    case CloseRemove(n, dtor) => if dtor then None else Some(n)
    case CloseUnlock(n, dtor) => if dtor then None else Some(n)
    case EndExchange(w) => Some(w)
    case EndUnregisterWait(w, _) => Some(w)
    case EndUnregisterBody(w, _) => Some(w)
    case EndFlushWait(w, _) => Some(w)
    case EndFlushBody(w, _) => Some(w)
    case EndRelease(w) => Some(w)
    case EndRemove(w, _) => Some(w)
    case _ => None
  }

  /** Wrappers stay as they are, and so does every node but `n`, up to locks and counters. */
  predicate Aside(node0: Node, node: Node, mine: bool)
  {
    && node.kind == node0.kind && node.up == node0.up && node.refs == node0.refs
    && (node0.published ==> node.published)
    && (!mine ==> node.native == node0.native && node.counted == node0.counted && node.cell.closed == node0.cell.closed)
  }

  predicate WriteAside(nodes: seq<Node>, x: Write, n: Id)
  {
    x.Write? ==> x.n < |nodes| && Aside(nodes[x.n], x.node, x.n == n)
  }

  /** The step writes `n` only, up to locks and counters, and stays with it. */
  predicate DeltaAside(nodes: seq<Node>, d: Delta, n: Id)
  {
    && d.added.None? && WriteAside(nodes, d.first, n) && WriteAside(nodes, d.second, n)
    && (d.pc.Idle? || Target(d.pc) == Some(n))
  }

  lemma ClosingAside(nodes: seq<Node>, pc: Pc, ok: bool, n: Id)
    requires Fits(nodes, pc) && Closes(pc) && Target(pc) == Some(n)
    ensures DeltaAside(nodes, CloseAdvance(nodes, 0, pc, ok), n)
  {
    assert NodeTyped(nodes, n);
  }

  lemma EndingAside(nodes: seq<Node>, pc: Pc, ok: bool, n: Id)
    requires Fits(nodes, pc) && Ends(pc) && Target(pc) == Some(n)
    ensures DeltaAside(nodes, EndAdvance(nodes, 0, pc, ok), n)
  {
    assert NodeTyped(nodes, n);
  }

  lemma FlushingAside(nodes: seq<Node>, pc: Pc, ok: bool, n: Id)
    requires Fits(nodes, pc) && (pc.EndFlushWait? || pc.EndFlushBody?) && Target(pc) == Some(n)
    ensures DeltaAside(nodes, ReleaseAdvance(nodes, 0, pc, ok), n)
  {
    assert NodeTyped(nodes, n);
  }

  lemma ReleasingAside(nodes: seq<Node>, pc: Pc, ok: bool, n: Id)
    requires Fits(nodes, pc) && (pc.EndRelease? || pc.EndRemove?) && Target(pc) == Some(n)
    ensures DeltaAside(nodes, ReleaseAdvance(nodes, 0, pc, ok), n)
  {
    assert NodeTyped(nodes, n);
  }

  lemma AdvanceAside(s: State, ok: bool, n: Id)
    requires Enabled(s, Advance(0, ok)) && Target(s.threads[0]) == Some(n)
    ensures DeltaAside(s.nodes, AdvanceDelta(s.nodes, 0, s.threads[0], ok), n)
  {
    var pc := s.threads[0];
    if Closes(pc) { ClosingAside(s.nodes, pc, ok, n); }
    else if Ends(pc) { EndingAside(s.nodes, pc, ok, n); }
    else if pc.EndRelease? || pc.EndRemove? { ReleasingAside(s.nodes, pc, ok, n); }
    else { FlushingAside(s.nodes, pc, ok, n); }
  }

  /** The close has not been refused and has not thrown: it is still to flip the flag, or the flag is set. */
  predicate OnItsWay(pc: Pc, node: Node)
  {
    && !node.threw
    && if pc.CloseLoad? || pc.CloseWait? then !node.cell.closed
       else if pc.EndExchange? then !node.ended
       else if IsHandle(node.kind) then node.cell.closed else node.ended
  }

  /** The thread's next step takes the close of `n` further. */
  ghost predicate GoesOn(s: State, n: Id)
    requires Enabled(s, Advance(0, true)) && n < |s.nodes|
  {
    var d := AdvanceDelta(s.nodes, 0, s.threads[0], true);
    OnItsWay(d.pc, d.After(n, s.nodes[n]))
  }

  lemma CheckGoesOn(s: State, n: Id)
    requires Enabled(s, Advance(0, true)) && n < |s.nodes| && s.threads[0] == CloseLoad(n)
    requires OnItsWay(s.threads[0], s.nodes[n]) && s.nodes[n].cell.children == 0
    ensures GoesOn(s, n)
  {
  }

  lemma AcquireGoesOn(nodes: seq<Node>, n: Id)
    requires n < |nodes| && IsHandle(nodes[n].kind) && !nodes[n].cell.closed && !nodes[n].threw
    ensures var d := CloseWaitDelta(nodes, 0, n, false); OnItsWay(d.pc, d.After(n, nodes[n]))
  {
  }

  lemma NativeGoesOn(nodes: seq<Node>, n: Id)
    requires n < |nodes| && IsHandle(nodes[n].kind) && nodes[n].cell.closed && !nodes[n].threw
    ensures var d := CloseBodyDelta(nodes, n, false); OnItsWay(d.pc, d.After(n, nodes[n]))
    ensures var d := CloseUnlockDelta(nodes, n, false); OnItsWay(d.pc, d.After(n, nodes[n]))
  {
  }

  lemma UncountGoesOn(nodes: seq<Node>, n: Id)
    requires n < |nodes| && NodeTyped(nodes, n) && IsHandle(nodes[n].kind) && nodes[n].cell.closed && !nodes[n].threw
    ensures var d := CloseRemoveDelta(nodes, n, false); OnItsWay(d.pc, d.After(n, nodes[n]))
  {
    var d := CloseRemoveDelta(nodes, n, false);
    assert d.After(n, nodes[n]).cell == nodes[n].cell && d.After(n, nodes[n]).kind == nodes[n].kind;
  }

  lemma ClosingGoesOn(s: State, n: Id)
    requires Enabled(s, Advance(0, true)) && Target(s.threads[0]) == Some(n) && n < |s.nodes|
    requires OnItsWay(s.threads[0], s.nodes[n]) && Closes(s.threads[0])
    requires s.threads[0].CloseLoad? ==> s.nodes[n].cell.children == 0
    ensures GoesOn(s, n)
  {
    assert NodeTyped(s.nodes, n) && PcTyped(s.nodes, s.threads[0]);
    match s.threads[0]
    case CloseLoad(_) => CheckGoesOn(s, n);
    case CloseWait(_, _) => AcquireGoesOn(s.nodes, n);
    case CloseRemove(_, _) => UncountGoesOn(s.nodes, n);
    case _ => NativeGoesOn(s.nodes, n);
  }

  /** The handle that the thread is about to use, if any, is open. */
  predicate WayOpen(nodes: seq<Node>, pc: Pc)
  {
    WantedShared(pc).Some? ==> WantedShared(pc).value < |nodes| && nodes[WantedShared(pc).value].cell.Usable()
  }

  lemma EndingGoesOn(nodes: seq<Node>, pc: Pc, n: Id)
    requires Fits(nodes, pc) && Ends(pc) && Target(pc) == Some(n) && n < |nodes|
    requires OnItsWay(pc, nodes[n]) && WayOpen(nodes, pc)
    ensures var d := EndAdvance(nodes, 0, pc, true); OnItsWay(d.pc, d.After(n, nodes[n]))
  {
    assert NodeTyped(nodes, n);
  }

  lemma ReleasingGoesOn(nodes: seq<Node>, pc: Pc, n: Id)
    requires Fits(nodes, pc) && Releases(pc) && Target(pc) == Some(n) && n < |nodes|
    requires OnItsWay(pc, nodes[n]) && WayOpen(nodes, pc)
    ensures var d := ReleaseAdvance(nodes, 0, pc, true); OnItsWay(d.pc, d.After(n, nodes[n]))
  {
    assert NodeTyped(nodes, n);
  }

  /** Between `s0` and `s`, thread 0 alone has been closing `n`, unhindered. */
  ghost predicate Solo(s0: State, s: State, n: Id)
  {
    && Inv(s) && |s.nodes| == |s0.nodes| && |s.threads| > 0 && n < |s.nodes|
    && (forall t :: 0 < t < |s.threads| ==> s.threads[t].Idle?)
    && (s.threads[0].Idle? || Target(s.threads[0]) == Some(n))
    && (forall m :: 0 <= m < |s.nodes| ==> Aside(s0.nodes[m], s.nodes[m], m == n))
    && OnItsWay(s.threads[0], s.nodes[n])
  }

  lemma KidsAside(s0: State, s: State, n: Id)
    requires Solo(s0, s, n) && Typed(s0)
    ensures Kids(s.nodes, n) == Kids(s0.nodes, n)
  {
    assert NodeTyped(s.nodes, n);
    forall c | 0 <= c < |s.nodes|
      ensures c in Kids(s.nodes, n) <==> c in Kids(s0.nodes, n)
    {
      assert NodeTyped(s.nodes, c) && Aside(s0.nodes[c], s.nodes[c], c == n);
    }
  }

  /** The handles that a closable subscription's teardown uses are open, and stay so. */
  lemma WayStaysOpen(s0: State, s: State, n: Id)
    requires Solo(s0, s, n) && Closable(s0, n) && !s.threads[0].Idle?
    ensures WayOpen(s.nodes, s.threads[0])
  {
    AtFacts(s, 0);
    NodeFacts(s, n);
    assert Aside(s0.nodes[n], s.nodes[n], true);
    if s.threads[0].EndUnregisterWait? || s.threads[0].EndFlushWait? {
      HandleAside(s0, s, n, s.nodes[n].up.value);
    }
    if s.threads[0].EndFlushWait? {
      HandleAside(s0, s, n, s.threads[0].k);
    }
  }

  /** Another handle is as open as it was, and its position is the same. */
  lemma HandleAside(s0: State, s: State, n: Id, p: Id)
    requires Solo(s0, s, n) && p < |s.nodes| && p != n && IsHandle(s.nodes[p].kind)
    ensures s.nodes[p].cell.Usable() <==> !s0.nodes[p].cell.closed
    ensures s.nodes[p].up == s0.nodes[p].up
  {
    NodeFacts(s, p);
    assert Aside(s0.nodes[p], s.nodes[p], false);
  }

  lemma SoloGoesOn(s0: State, s: State, n: Id)
    requires Solo(s0, s, n) && Typed(s0) && Closable(s0, n) && !s.threads[0].Idle? && Enabled(s, Advance(0, true))
    ensures GoesOn(s, n)
  {
    WayStaysOpen(s0, s, n);
    if Closes(s.threads[0]) {
      AtFacts(s, 0);
      assert CountOk(s.nodes, n) && Aside(s0.nodes[n], s.nodes[n], true);
      KidsAside(s0, s, n);
      ClosingGoesOn(s, n);
    } else if Ends(s.threads[0]) {
      EndingGoesOn(s.nodes, s.threads[0], n);
    } else {
      ReleasingGoesOn(s.nodes, s.threads[0], n);
    }
  }

  lemma SoloReady(s0: State, s: State, n: Id)
    requires Solo(s0, s, n) && !s.threads[0].Idle?
    ensures Enabled(s, Advance(0, true))
  {
    NoDeadlock(s, 0);
    assert Ready(s, 0);
  }

  lemma PatchAside(s0: State, s: State, n: Id, d: Delta)
    requires |s.threads| > 0 && |s.nodes| == |s0.nodes| && DeltaAside(s.nodes, d, n)
    requires forall m :: 0 <= m < |s.nodes| ==> Aside(s0.nodes[m], s.nodes[m], m == n)
    ensures |Patch(s, 0, d).nodes| == |s.nodes|
    ensures forall m :: 0 <= m < |s.nodes| ==> Aside(s0.nodes[m], Patch(s, 0, d).nodes[m], m == n)
  {
    forall m | 0 <= m < |s.nodes|
      ensures Aside(s0.nodes[m], Patch(s, 0, d).nodes[m], m == n)
    {
      assert Aside(s0.nodes[m], s.nodes[m], m == n);
    }
  }

  lemma SoloStep(s0: State, s: State, n: Id)
    requires Solo(s0, s, n) && Typed(s0) && Closable(s0, n) && !s.threads[0].Idle?
    ensures Enabled(s, Advance(0, true)) && Solo(s0, Apply(s, Advance(0, true)), n)
  {
    SoloReady(s0, s, n);
    StepKeepsInv(s, Advance(0, true));
    AdvanceAside(s, true, n);
    SoloGoesOn(s0, s, n);
    PatchAside(s0, s, n, StepDelta(s, Advance(0, true)));
  }

  lemma {:induction false} FinishClose(s0: State, s: State, n: Id) returns (run: seq<Step>)
    requires Solo(s0, s, n) && Typed(s0) && Closable(s0, n)
    ensures Valid(s, run) && OnlyAdvances(run) && Solo(s0, Exec(s, run), n) && Exec(s, run).threads[0].Idle?
    decreases Rank(s.threads[0])
  {
    if s.threads[0].Idle? {
      run := [];
    } else {
      SoloStep(s0, s, n);
      RankDrops(s, 0, true);
      var rest := FinishClose(s0, Apply(s, Advance(0, true)), n);
      run := [Advance(0, true)] + rest;
      assert run[1..] == rest;
    }
  }

  /** A finished, unhindered close leaves its node neither native nor counted. */
  lemma SoloDone(s0: State, s: State, n: Id)
    requires Solo(s0, s, n) && s.threads[0].Idle? && s0.nodes[n].published
    ensures Quiescent(s) && Absent(s.nodes[n])
  {
    NodeFacts(s, n);
    assert Aside(s0.nodes[n], s.nodes[n], true);
  }

  /**
   At rest, an open node is counted by its parent, and a subscription among them has not been ended, unless its parent
   is closed.
   */
  lemma OpenNodeAtRest(s: State, n: Id)
    requires Inv(s) && Quiescent(s) && n < |s.nodes| && s.nodes[n].native
    ensures s.nodes[n].published && s.nodes[n].entered && (s.nodes[n].up.Some? ==> s.nodes[n].counted)
    ensures IsHandle(s.nodes[n].kind) ==> !s.nodes[n].cell.closed && !s.nodes[n].threw
    ensures !IsHandle(s.nodes[n].kind) ==> s.nodes[n].tally.flushed == 0
    ensures !IsHandle(s.nodes[n].kind) && !ParentClosed(s.nodes, n) ==> !s.nodes[n].ended && !s.nodes[n].threw
  {
    NodeFacts(s, n);
  }

  lemma BeginClose(s: State, n: Id)
    requires Inv(s) && Quiescent(s) && |s.threads| > 0
    requires n < |s.nodes| && s.nodes[n].native && s.nodes[n].refs > 0 && Closable(s, n)
    ensures Enabled(s, Begin(0, CloseOp(s.nodes[n].kind, n)))
    ensures Solo(s, Apply(s, Begin(0, CloseOp(s.nodes[n].kind, n))), n)
  {
    var step := Begin(0, CloseOp(s.nodes[n].kind, n));
    OpenNodeAtRest(s, n);
    assert Patch(s, 0, StepDelta(s, step)).nodes == s.nodes;
    StepKeepsInv(s, step);
  }

  /** A closable open node closes in one operation, which touches no other node. */
  lemma CloseNode(s: State, n: Id) returns (run: seq<Step>)
    requires Inv(s) && Quiescent(s) && |s.threads| > 0
    requires n < |s.nodes| && s.nodes[n].native && s.nodes[n].refs > 0 && Closable(s, n)
    ensures OneClose(s, run, n) && Starts(run) == 1 && Inv(Exec(s, run))
    ensures |Exec(s, run).threads| == |s.threads| && |Exec(s, run).nodes| == |s.nodes|
    ensures Absent(Exec(s, run).nodes[n])
    ensures forall m :: 0 <= m < |s.nodes| ==> Aside(s.nodes[m], Exec(s, run).nodes[m], m == n)
  {
    var step := Begin(0, CloseOp(s.nodes[n].kind, n));
    OpenNodeAtRest(s, n);
    BeginClose(s, n);
    var rest := FinishClose(s, Apply(s, step), n);
    SoloDone(s, Exec(Apply(s, step), rest), n);
    run := [step] + rest;
    assert run[1..] == rest;
    AdvancesStartNothing(rest);
    RunKeepsInv(s, run);
  }

  // ---------------------------------------------------------------- what no close takes down

  /**
   A native registration goes only in an unregister call, a flush is counted only in a flush call, and what has
   been registered or ended stays so.
   */
  predicate WriteLate(nodes: seq<Node>, pc: Pc, x: Write)
  {
    x.Write? && x.n < |nodes| && !IsHandle(nodes[x.n].kind) ==>
      && (nodes[x.n].native && !x.node.native ==> pc.EndUnregisterBody? && pc.w == x.n)
      && (x.node.tally.flushed != nodes[x.n].tally.flushed ==> pc.EndFlushBody? && pc.w == x.n)
      && x.node.tally.flushed >= nodes[x.n].tally.flushed
      && (nodes[x.n].entered ==> x.node.entered) && (nodes[x.n].ended ==> x.node.ended)
  }

  predicate DeltaLate(nodes: seq<Node>, pc: Pc, d: Delta)
  {
    WriteLate(nodes, pc, d.first) && WriteLate(nodes, pc, d.second)
  }

  lemma OpeningLate(nodes: seq<Node>, t: Tid, pc: Pc, ok: bool)
    requires Fits(nodes, pc) && (Opens(pc) || Creates(pc))
    ensures Opens(pc) ==> DeltaLate(nodes, pc, OpenAdvance(nodes, t, pc, ok))
    ensures Creates(pc) ==> DeltaLate(nodes, pc, CreateAdvance(nodes, t, pc, ok))
  {
  }

  lemma ClosingLate(nodes: seq<Node>, t: Tid, pc: Pc, ok: bool)
    requires Fits(nodes, pc) && Closes(pc)
    ensures DeltaLate(nodes, pc, CloseAdvance(nodes, t, pc, ok))
  {
    assert NodeTyped(nodes, pc.n);
  }

  lemma EndingLate(nodes: seq<Node>, t: Tid, pc: Pc, ok: bool)
    requires Fits(nodes, pc) && (Ends(pc) || Releases(pc))
    ensures Ends(pc) ==> DeltaLate(nodes, pc, EndAdvance(nodes, t, pc, ok))
    ensures Releases(pc) ==> DeltaLate(nodes, pc, ReleaseAdvance(nodes, t, pc, ok))
  {
  }

  lemma AckingLate(nodes: seq<Node>, t: Tid, pc: Pc, ok: bool)
    requires Fits(nodes, pc) && (Acks(pc) || Notifies(pc))
    ensures Acks(pc) ==> DeltaLate(nodes, pc, AckAdvance(nodes, t, pc, ok))
    ensures Notifies(pc) ==> DeltaLate(nodes, pc, NotifyAdvance(nodes, t, pc, ok))
  {
  }

  lemma StepLate(s: State, step: Step)
    requires Enabled(s, step)
    ensures DeltaLate(s.nodes, s.threads[step.t], StepDelta(s, step))
  {
    if step.Advance? {
      var pc := s.threads[step.t];
      if Opens(pc) || Creates(pc) { OpeningLate(s.nodes, step.t, pc, step.ok); }
      else if Closes(pc) { ClosingLate(s.nodes, step.t, pc, step.ok); }
      else if Ends(pc) || Releases(pc) { EndingLate(s.nodes, step.t, pc, step.ok); }
      else { AckingLate(s.nodes, step.t, pc, step.ok); }
    }
  }

  /** Nobody is inside a `use` of a closed handle. */
  lemma ClosedUnused(s: State, t: Tid, p: Id)
    requires Inv(s) && t < |s.threads| && p < |s.nodes| && s.nodes[p].cell.closed
    ensures HeldShared(s.threads[t]) != Some(p)
  {
    AtFacts(s, t);
    NodeFacts(s, p);
  }

  /** A registration below a closed handle is never unregistered again, by any run. */
  lemma NativeStays(s: State, step: Step, w: Id)
    requires Inv(s) && Enabled(s, step) && w < |s.nodes| && !IsHandle(s.nodes[w].kind)
    requires s.nodes[w].native && ParentClosed(s.nodes, w)
    ensures StepDelta(s, step).After(w, s.nodes[w]).native
  {
    StepLate(s, step);
    AtFacts(s, step.t);
    ClosedUnused(s, step.t, s.nodes[w].up.value);
  }

  lemma {:induction false} NativeForever(s: State, run: seq<Step>, w: Id)
    requires Inv(s) && Valid(s, run) && w < |s.nodes| && !IsHandle(s.nodes[w].kind)
    requires s.nodes[w].native && ParentClosed(s.nodes, w)
    ensures w < |Exec(s, run).nodes| && Exec(s, run).nodes[w].native
    decreases |run|
  {
    if run != [] {
      NativeStays(s, run[0], w);
      StepKeepsInv(s, run[0]);
      StaysClosed(s, run[0], s.nodes[w].up.value);
      NativeForever(Apply(s, run[0]), run[1..], w);
    }
  }

  lemma StaysClosed(s: State, step: Step, p: Id)
    requires Inv(s) && Enabled(s, step) && p < |s.nodes| && s.nodes[p].cell.closed
    ensures p < |Apply(s, step).nodes| && Apply(s, step).nodes[p].cell.closed
  {
    var d := StepDelta(s, step);
    StepDeltaOk(s, step);
    assert WriteSafe(s, step.t, d, d.first) && WriteSafe(s, step.t, d, d.second);
  }

  /** A watch that can never be flushed, because its cluster is closed. */
  ghost predicate Unflushable(s: State, w: Id)
  {
    && w < |s.nodes| && s.nodes[w].kind.Watch? && s.nodes[w].entered && s.nodes[w].tally.flushed == 0
    && GrandparentClosed(s.nodes, w)
  }

  lemma UnflushedByOthers(s: State, step: Step, w: Id, k: Id)
    requires Inv(s) && Enabled(s, step) && w < |s.nodes| && s.nodes[w].kind.Watch? && s.nodes[w].entered
    requires k < |s.nodes| && s.nodes[k].cell.closed && WatchUnder(s.nodes, w, k)
    ensures var node := StepDelta(s, step).After(w, s.nodes[w]);
            node.entered && node.tally.flushed == s.nodes[w].tally.flushed
  {
    StepLate(s, step);
    AtFacts(s, step.t);
    ClosedUnused(s, step.t, k);
  }

  lemma UnflushableStays(s: State, step: Step, w: Id)
    requires Inv(s) && Enabled(s, step) && Unflushable(s, w)
    ensures Unflushable(Apply(s, step), w)
  {
    NodeFacts(s, w);
    var p := s.nodes[w].up.value;
    NodeFacts(s, p);
    var k := s.nodes[p].up.value;
    UnflushedByOthers(s, step, w, k);
    StepKeepsInv(s, step);
    StaysClosed(s, step, k);
  }

  /** Such a watch stays counted. */
  lemma UnflushableCounted(s: State, w: Id)
    requires Inv(s) && Unflushable(s, w)
    ensures s.nodes[w].counted
  {
    NodeFacts(s, w);
    DriverFacts(s, w);
  }

  lemma {:induction false} UnflushableForever(s: State, run: seq<Step>, w: Id)
    requires Inv(s) && Valid(s, run) && Unflushable(s, w)
    ensures Unflushable(Exec(s, run), w) && Exec(s, run).nodes[w].counted
    decreases |run|
  {
    if run == [] {
      UnflushableCounted(s, w);
    } else {
      UnflushableStays(s, run[0], w);
      StepKeepsInv(s, run[0]);
      UnflushableForever(Apply(s, run[0]), run[1..], w);
    }
  }

  lemma NoneReady(s: State, run: seq<Step>)
    requires Quiescent(s) && Valid(s, run) && OnlyAdvances(run)
    ensures run == []
  {
  }

  /** The load finds the counter above zero, and that is the end of it. */
  lemma RefusedLoad(s: State, run: seq<Step>, n: Id)
    requires Typed(s) && Valid(s, run) && OnlyAdvances(run) && Quiescent(Exec(s, run))
    requires |s.threads| > 0 && s.threads[0] == CloseLoad(n) && n < |s.nodes| && s.nodes[n].cell.children != 0
    requires forall t :: 0 < t < |s.threads| ==> s.threads[t].Idle?
    ensures Exec(s, run).nodes == s.nodes
  {
    assert run != [] && run[0].Advance? && Enabled(s, run[0]);
    var s' := Apply(s, run[0]);
    assert s'.nodes == s.nodes && Quiescent(s');
    NoneReady(s', run[1..]);
  }

  /** A handle whose counter is not zero refuses. */
  lemma BusyHandleRefuses(s: State, run: seq<Step>, n: Id)
    requires Inv(s) && Quiescent(s) && n < |s.nodes| && IsHandle(s.nodes[n].kind) && s.nodes[n].native
    requires |Kids(s.nodes, n)| % COUNTER_LIMIT != 0 && OneClose(s, run, n)
    ensures n < |Exec(s, run).nodes| && Exec(s, run).nodes[n].native
  {
    assert CountOk(s.nodes, n) && Enabled(s, run[0]);
    var s1 := Apply(s, run[0]);
    StepKeepsInv(s, run[0]);
    assert s1.nodes == s.nodes && Exec(s, run) == Exec(s1, run[1..]);
    RefusedLoad(s1, run[1..], n);
  }

  /**
   Exactly which open nodes, at rest, one close takes down, native object, registration and count: a
   handle if and only if its counter is zero; a subscription if and only if its parent is open and,
   for an object watch, its cluster too.
   */
  lemma ClosesIff(s: State, n: Id)
    requires Inv(s) && Quiescent(s) && |s.threads| > 0
    requires n < |s.nodes| && s.nodes[n].native && s.nodes[n].refs > 0
    ensures (exists run :: OneClose(s, run, n) && n < |Exec(s, run).nodes| && Absent(Exec(s, run).nodes[n])) <==>
            Closable(s, n)
  {
    OpenNodeAtRest(s, n);
    if Closable(s, n) {
      var run := CloseNode(s, n);
    } else {
      forall run | OneClose(s, run, n) && n < |Exec(s, run).nodes|
        ensures !Absent(Exec(s, run).nodes[n])
      {
        if IsHandle(s.nodes[n].kind) {
          BusyHandleRefuses(s, run, n);
        } else if ParentClosed(s.nodes, n) {
          NativeForever(s, run, n);
        } else {
          UnflushableForever(s, run, n);
        }
      }
    }
  }

  /** Unless an ancestor of it has been exposed, an open subscription at rest is closable. */
  lemma UnexposedCloses(s: State, n: Id)
    requires Inv(s) && Quiescent(s) && n < |s.nodes| && s.nodes[n].native && !IsHandle(s.nodes[n].kind)
    requires !AnyExposed(s.nodes, s.exposed, n)
    ensures Closable(s, n)
  {
    AttachedUnderOpen(s, n);
    NodeFacts(s, n);
  }

  // ---------------------------------------------------------------- whole trees

  ghost function OpenNodes(s: State): set<Id>
  {
    set n | 0 <= n < |s.nodes| && s.nodes[n].native
  }

  /** Every open subscription can be closed, and open handles count open children only. */
  ghost predicate Sound(s: State)
  {
    && (forall w :: w in OpenNodes(s) && !IsHandle(s.nodes[w].kind) ==> Closable(s, w))
    && (forall p, c :: p in OpenNodes(s) && c in Kids(s.nodes, p) ==> c in OpenNodes(s))
  }

  lemma {:induction false} Largest(ids: set<Id>) returns (n: Id)
    requires ids != {}
    ensures n in ids && forall m :: m in ids ==> m <= n
    decreases |ids|
  {
    var x :| x in ids;
    if ids == {x} {
      n := x;
    } else {
      var m := Largest(ids - {x});
      assert forall k :: k in ids ==> k == x || k in ids - {x};
      n := if m > x then m else x;
    }
  }

  /**
   While something is open in a sound tree at rest, some open node has no counted child, and closes in one operation.
   */
  lemma LeafExists(s: State) returns (n: Id)
    requires Inv(s) && Quiescent(s) && Sound(s) && OpenNodes(s) != {}
    ensures n in OpenNodes(s) && Closable(s, n) && Kids(s.nodes, n) == {}
  {
    n := Largest(OpenNodes(s));
    forall c | 0 <= c < |s.nodes|
      ensures c !in Kids(s.nodes, n)
    {
      NodeFacts(s, c);
      assert c in Kids(s.nodes, n) ==> c in OpenNodes(s);
    }
  }

  lemma SoundAfterLeaf(s: State, s': State, n: Id)
    requires Inv(s) && Quiescent(s) && Sound(s) && Inv(s') && |s'.nodes| == |s.nodes|
    requires n in OpenNodes(s) && Kids(s.nodes, n) == {} && Absent(s'.nodes[n])
    requires forall m :: 0 <= m < |s.nodes| ==> Aside(s.nodes[m], s'.nodes[m], m == n)
    ensures Sound(s') && OpenNodes(s') == OpenNodes(s) - {n}
  {
    forall w | w in OpenNodes(s') && !IsHandle(s'.nodes[w].kind)
      ensures Closable(s', w)
    {
      OpenNodeAtRest(s, w);
      NodeFacts(s, w);
      var p := s.nodes[w].up.value;
      assert w in OpenNodes(s) && Closable(s, w);
      assert p != n by { assert p == n ==> w in Kids(s.nodes, n); }
      OpenParentCounted(s, p, n);
      ClosableAside(s, s', w, n);
    }
    forall p, c | p in OpenNodes(s') && c in Kids(s'.nodes, p)
      ensures c in OpenNodes(s')
    {
      assert c in Kids(s.nodes, p);
    }
  }

  /** An open context is counted by its cluster. */
  lemma OpenParentCounted(s: State, p: Id, k: Id)
    requires Inv(s) && Quiescent(s) && p < |s.nodes| && IsHandle(s.nodes[p].kind) && !s.nodes[p].cell.closed
    ensures s.nodes[p].up == Some(k) ==> p in Kids(s.nodes, k)
  {
    NodeFacts(s, p);
  }

  lemma ClosableAside(s: State, s': State, w: Id, n: Id)
    requires Typed(s) && |s'.nodes| == |s.nodes| && w < |s.nodes| && !IsHandle(s.nodes[w].kind) && Closable(s, w)
    requires forall m :: 0 <= m < |s.nodes| ==> Aside(s.nodes[m], s'.nodes[m], m == n)
    requires s.nodes[w].up != Some(n)
    requires s.nodes[w].up.Some? && s.nodes[w].up.value < |s.nodes| ==> s.nodes[s.nodes[w].up.value].up != Some(n)
    ensures Closable(s', w)
  {
    assert NodeTyped(s.nodes, w) && Aside(s.nodes[w], s'.nodes[w], w == n);
    var p := s.nodes[w].up.value;
    assert NodeTyped(s.nodes, p) && Aside(s.nodes[p], s'.nodes[p], p == n);
  }

  /** Runs that start nothing but closes. */
  predicate ClosesOnly(run: seq<Step>)
  {
    forall i :: 0 <= i < |run| && run[i].Begin? ==> run[i].op.Close? || run[i].op.End?
  }

  lemma CloseSomeLeaf(s: State) returns (n: Id, run: seq<Step>)
    requires Inv(s) && Quiescent(s) && Sound(s) && |s.threads| > 0 && OpenNodes(s) != {}
    requires forall n :: n in OpenNodes(s) ==> s.nodes[n].refs > 0
    ensures Valid(s, run) && ClosesOnly(run) && Starts(run) == 1 && n in OpenNodes(s)
    ensures var s' := Exec(s, run);
            && Inv(s') && Quiescent(s') && Sound(s') && |s'.threads| > 0 && OpenNodes(s') == OpenNodes(s) - {n}
            && forall m :: m in OpenNodes(s') ==> s'.nodes[m].refs > 0
  {
    n := LeafExists(s);
    run := CloseNode(s, n);
    SoundAfterLeaf(s, Exec(s, run), n);
    forall m | m in OpenNodes(Exec(s, run))
      ensures Exec(s, run).nodes[m].refs > 0
    {
      assert m in OpenNodes(s) && Aside(s.nodes[m], Exec(s, run).nodes[m], m == n);
    }
    assert forall i :: 0 < i < |run| ==> run[i] == run[1..][i - 1];
  }

  /**
   A sound tree whose open nodes all have their wrappers is emptied by exactly as many closes as it has open nodes.
   */
  lemma {:induction false} CloseEverything(s: State) returns (run: seq<Step>)
    requires Inv(s) && Quiescent(s) && Sound(s) && |s.threads| > 0
    requires forall n :: n in OpenNodes(s) ==> s.nodes[n].refs > 0
    ensures Valid(s, run) && ClosesOnly(run) && Starts(run) == |OpenNodes(s)|
    ensures Quiescent(Exec(s, run)) && OpenNodes(Exec(s, run)) == {}
    decreases |OpenNodes(s)|
  {
    if OpenNodes(s) == {} {
      run := [];
    } else {
      var n, first := CloseSomeLeaf(s);
      var rest := CloseEverything(Exec(s, first));
      RunConcat(s, first, rest);
      StartsConcat(first, rest);
      run := first + rest;
    }
  }

  // ---------------------------------------------------------------- trees that closes cannot empty

  /** The busy check has just passed. */
  predicate Passes(nodes: seq<Node>, pc: Pc, pc': Pc)
  {
    pc'.CloseWait? ==> pc == CloseLoad(pc'.n) && pc'.n < |nodes| && nodes[pc'.n].cell.children == 0
  }

  /** Inside a close, or idle. */
  predicate ClosingPc(pc: Pc) { pc.Idle? || Target(pc).Some? }

  /** An open handle whose counter cannot reach zero, and that nobody has begun to close. */
  ghost predicate Clogged(s: State, p: Id, w: Id)
  {
    && Inv(s) && p < |s.nodes| && IsHandle(s.nodes[p].kind) && !s.nodes[p].cell.closed
    && |Kids(s.nodes, p)| < COUNTER_LIMIT
    && Unflushable(s, w) && s.nodes[w].up == Some(p)
    && (forall t :: 0 <= t < |s.threads| ==>
          ClosingPc(s.threads[t]) && !(s.threads[t].CloseWait? && s.threads[t].n == p))
  }

  lemma ClosingCountsNone(nodes: seq<Node>, t: Tid, pc: Pc, ok: bool)
    requires Fits(nodes, pc) && Closes(pc) && Target(pc).Some?
    ensures var d := CloseAdvance(nodes, t, pc, ok);
            NoneCounted(nodes, d) && ClosingPc(d.pc) && Passes(nodes, pc, d.pc)
  {
    assert NodeTyped(nodes, pc.n);
  }

  lemma EndingCountsNone(nodes: seq<Node>, t: Tid, pc: Pc, ok: bool)
    requires Fits(nodes, pc) && Ends(pc) && Target(pc).Some?
    ensures var d := EndAdvance(nodes, t, pc, ok);
            NoneCounted(nodes, d) && ClosingPc(d.pc) && Passes(nodes, pc, d.pc)
  {
  }

  lemma ReleasingCountsNone(nodes: seq<Node>, t: Tid, pc: Pc, ok: bool)
    requires Fits(nodes, pc) && Releases(pc)
    ensures var d := ReleaseAdvance(nodes, t, pc, ok);
            NoneCounted(nodes, d) && ClosingPc(d.pc) && Passes(nodes, pc, d.pc)
  {
  }

  /** The busy check of a clogged handle never passes. */
  lemma ClogHolds(s: State, p: Id, w: Id)
    requires Clogged(s, p, w)
    ensures 0 < s.nodes[p].cell.children
  {
    UnflushableCounted(s, w);
    assert w in Kids(s.nodes, p) && CountOk(s.nodes, p);
  }

  lemma ClogOpen(s: State, step: Step, p: Id, w: Id)
    requires Clogged(s, p, w) && Enabled(s, step)
    ensures p < |Apply(s, step).nodes| && !Apply(s, step).nodes[p].cell.closed
  {
    var d := StepDelta(s, step);
    StepDeltaOk(s, step);
    assert WriteSafe(s, step.t, d, d.first) && WriteSafe(s, step.t, d, d.second);
  }

  /** A step of a close counts no child, and gets past a busy check only by its passing. */
  lemma CloseStepCountsNone(s: State, step: Step)
    requires Typed(s) && Enabled(s, step) && ClosingPc(s.threads[step.t]) && (step.Begin? ==>
             step.op.Close? || step.op.End?)
    ensures var d := StepDelta(s, step);
            NoneCounted(s.nodes, d) && ClosingPc(d.pc) && Passes(s.nodes, s.threads[step.t], d.pc)
  {
    if step.Advance? {
      var pc := s.threads[step.t];
      if Closes(pc) { ClosingCountsNone(s.nodes, step.t, pc, step.ok); }
      else if Ends(pc) { EndingCountsNone(s.nodes, step.t, pc, step.ok); }
      else { ReleasingCountsNone(s.nodes, step.t, pc, step.ok); }
    }
  }

  lemma ClogStep(s: State, step: Step, p: Id, w: Id)
    requires Clogged(s, p, w) && Enabled(s, step) && (step.Begin? ==> step.op.Close? || step.op.End?)
    ensures Clogged(Apply(s, step), p, w)
  {
    StepKeepsInv(s, step);
    UnflushableStays(s, step, w);
    ClogHolds(s, p, w);
    ClogOpen(s, step, p, w);
    CloseStepCountsNone(s, step);
    FewerKids(s.nodes, Apply(s, step).nodes, p);
  }

  lemma {:induction false} ClogForever(s: State, run: seq<Step>, p: Id, w: Id)
    requires Clogged(s, p, w) && Valid(s, run) && ClosesOnly(run)
    ensures Clogged(Exec(s, run), p, w)
    decreases |run|
  {
    if run != [] {
      ClogStep(s, run[0], p, w);
      ClogForever(Apply(s, run[0]), run[1..], p, w);
    }
  }

  /**
   A counted child that does not exist natively, at rest under an open handle, is a watch that can never be flushed.
   */
  lemma DeadKidUnflushable(s: State, p: Id, c: Id)
    requires Inv(s) && Quiescent(s) && p in OpenNodes(s) && IsHandle(s.nodes[p].kind)
    requires c in Kids(s.nodes, p) && !s.nodes[c].native
    ensures Unflushable(s, c)
  {
    NodeFacts(s, c);
    NodeFacts(s, p);
  }

  lemma StuckUnlessSound(s: State, run: seq<Step>)
    requires Inv(s) && Quiescent(s) && !Sound(s) && Valid(s, run) && ClosesOnly(run)
    requires forall p :: p in OpenNodes(s) && IsHandle(s.nodes[p].kind) ==> |Kids(s.nodes, p)| < COUNTER_LIMIT
    ensures OpenNodes(Exec(s, run)) != {}
  {
    if w :| w in OpenNodes(s) && !IsHandle(s.nodes[w].kind) && !Closable(s, w) {
      OpenNodeAtRest(s, w);
      if ParentClosed(s.nodes, w) {
        NativeForever(s, run, w);
        assert w in OpenNodes(Exec(s, run));
      } else {
        NodeFacts(s, w);
        var p := s.nodes[w].up.value;
        NodeFacts(s, p);
        ClogKeepsOpen(s, run, p, w);
      }
    } else {
      var p, c :| p in OpenNodes(s) && c in Kids(s.nodes, p) && c !in OpenNodes(s);
      NodeFacts(s, c);
      DeadKidUnflushable(s, p, c);
      ClogKeepsOpen(s, run, p, c);
    }
  }

  lemma ClogKeepsOpen(s: State, run: seq<Step>, p: Id, w: Id)
    requires Inv(s) && Quiescent(s) && Valid(s, run) && ClosesOnly(run)
    requires p in OpenNodes(s) && IsHandle(s.nodes[p].kind) && |Kids(s.nodes, p)| < COUNTER_LIMIT
    requires Unflushable(s, w) && s.nodes[w].up == Some(p)
    ensures p in OpenNodes(Exec(s, run))
  {
    OpenNodeAtRest(s, p);
    ClogForever(s, run, p, w);
    NodeFacts(Exec(s, run), p);
  }

  /**
   No stuck trees, exactly: at rest, with every open node's wrapper held and fewer than 2^32 children
   under each open handle, closes alone can empty the tree if and only if it is sound.
   */
  lemma EmptiedIffSound(s: State)
    requires Inv(s) && Quiescent(s) && |s.threads| > 0
    requires forall n :: n in OpenNodes(s) ==> s.nodes[n].refs > 0
    requires forall p :: p in OpenNodes(s) && IsHandle(s.nodes[p].kind) ==> |Kids(s.nodes, p)| < COUNTER_LIMIT
    ensures (exists run :: Valid(s, run) && ClosesOnly(run) && OpenNodes(Exec(s, run)) == {}) <==> Sound(s)
  {
    if Sound(s) {
      var run := CloseEverything(s);
    } else {
      forall run | Valid(s, run) && ClosesOnly(run)
        ensures OpenNodes(Exec(s, run)) != {}
      {
        StuckUnlessSound(s, run);
      }
    }
  }

  /** A tree at rest is sound where no ancestor of what is open or counted in it has been exposed. */
  lemma UnexposedIsSound(s: State)
    requires Inv(s) && Quiescent(s)
    requires forall n :: 0 <= n < |s.nodes| && (s.nodes[n].native || s.nodes[n].counted) ==>
             !AnyExposed(s.nodes, s.exposed, n)
    ensures Sound(s)
  {
    forall w | w in OpenNodes(s) && !IsHandle(s.nodes[w].kind)
      ensures Closable(s, w)
    {
      UnexposedCloses(s, w);
    }
    forall p, c | p in OpenNodes(s) && c in Kids(s.nodes, p)
      ensures c in OpenNodes(s)
    {
      NodeFacts(s, c);
      NodeFacts(s, p);
      assert ThrowOk(s, c);
    }
  }
}
