/**
 The step system and the objects agree: an operation that no other thread disturbs does to the nodes what the
 methods of `HandleState` and of the subscriptions' `Data` do to their fields.
 */
module LifetimeAlone {
  import opened Wrappers
  import opened Handles
  import opened Lifetime
  import opened LifetimeSteps
  import opened LifetimeTheorems
  import opened LifetimeProgress
  import Subscriptions

  /** Thread 0 is at `pc`, and no other thread is doing anything. */
  ghost predicate Alone(s: State, nodes: seq<Node>, pc: Pc)
  {
    && Inv(s) && s.nodes == nodes && |s.threads| > 0 && s.threads[0] == pc
    && forall t :: 0 < t < |s.threads| ==> s.threads[t].Idle?
  }

  /** The run is thread 0's alone, ends at rest, and leaves these nodes. */
  ghost predicate Leads(s: State, run: seq<Step>, nodes: seq<Node>)
  {
    Valid(s, run) && Alone(Exec(s, run), nodes, Idle)
  }

  lemma LeadsNil(s: State, nodes: seq<Node>)
    requires Alone(s, nodes, Idle)
    ensures Leads(s, [], nodes)
  {
  }

  lemma LeadsCons(s: State, step: Step, rest: seq<Step>, nodes: seq<Node>)
    requires Enabled(s, step) && Leads(Apply(s, step), rest, nodes)
    ensures Leads(s, [step] + rest, nodes)
  {
    RunCons(s, step, rest);
  }

  /** A thread that is alone is never blocked. */
  lemma NeverBlocked(s: State, nodes: seq<Node>, pc: Pc, ok: bool)
    requires Alone(s, nodes, pc) && !pc.Idle?
    ensures Enabled(s, Advance(0, ok))
  {
    NoDeadlock(s, 0);
    assert Ready(s, 0);
  }

  lemma Moves(s: State, step: Step, nodes: seq<Node>, pc: Pc)
    requires Inv(s) && Enabled(s, step) && step.t == 0
    requires forall t :: 0 < t < |s.threads| ==> s.threads[t].Idle?
    requires Patch(s, 0, StepDelta(s, step)).nodes == nodes && StepDelta(s, step).pc == pc
    ensures Alone(Apply(s, step), nodes, pc)
  {
    StepKeepsInv(s, step);
  }

  /** A lock that thread 0 does not hold is free. */
  lemma LockFree(s: State, nodes: seq<Node>, pc: Pc, p: Id)
    requires Alone(s, nodes, pc) && p < |nodes| && HeldShared(pc) != Some(p) && HeldExclusive(pc) != Some(p)
    ensures nodes[p].cell.readers == {} && nodes[p].cell.writer.None?
    ensures IsHandle(nodes[p].kind) ==> (nodes[p].cell.Usable() <==> !nodes[p].cell.closed)
  {
    NodeFacts(s, p);
  }

  lemma GoOn(s: State, ok: bool, rest: seq<Step>, nodes': seq<Node>) returns (run: seq<Step>)
    requires |s.threads| > 0 && Enabled(s, Advance(0, ok)) && Leads(Apply(s, Advance(0, ok)), rest, nodes')
    ensures Leads(s, run, nodes')
  {
    LeadsCons(s, Advance(0, ok), rest, nodes');
    run := [Advance(0, ok)] + rest;
  }

  /** The operation's last step. */
  lemma Finishes(s: State, ok: bool, nodes': seq<Node>) returns (run: seq<Step>)
    requires Inv(s) && |s.threads| > 0 && Enabled(s, Advance(0, ok))
    requires forall t :: 0 < t < |s.threads| ==> s.threads[t].Idle?
    requires Patch(s, 0, StepDelta(s, Advance(0, ok))).nodes == nodes' && StepDelta(s, Advance(0, ok)).pc.Idle?
    ensures Leads(s, run, nodes')
  {
    Moves(s, Advance(0, ok), nodes', Idle);
    LeadsNil(Apply(s, Advance(0, ok)), nodes');
    run := GoOn(s, ok, [], nodes');
  }

  // ---------------------------------------------------------------- use

  /** The nodes while thread 0 is in the body of `use` on `p`. */
  function Inside(nodes: seq<Node>, p: Id): seq<Node>
    requires p < |nodes|
  {
    nodes[p := nodes[p].(cell := nodes[p].cell.Enter(0))]
  }

  lemma Enters(s: State, nodes: seq<Node>, pc: Pc, ok: bool, p: Id, body: Pc, thrown: Write)
    requires Alone(s, nodes, pc) && Enabled(s, Advance(0, ok)) && p < |nodes| && nodes[p].cell.Usable()
    requires StepDelta(s, Advance(0, ok)) == EnterDelta(nodes, 0, p, body, thrown)
    ensures Alone(Apply(s, Advance(0, ok)), Inside(nodes, p), body)
  {
    Moves(s, Advance(0, ok), Inside(nodes, p), body);
  }

  lemma Refused(s: State, nodes: seq<Node>, pc: Pc, ok: bool, p: Id, body: Pc)
    requires Alone(s, nodes, pc) && Enabled(s, Advance(0, ok)) && p < |nodes| && !nodes[p].cell.Usable()
    requires StepDelta(s, Advance(0, ok)) == EnterDelta(nodes, 0, p, body, Keep)
    ensures Alone(Apply(s, Advance(0, ok)), nodes, Idle)
  {
    Moves(s, Advance(0, ok), nodes, Idle);
  }

  /** What thread 0 entered it leaves as it found it. */
  lemma LeftInside(nodes: seq<Node>, p: Id)
    requires p < |nodes| && nodes[p].cell.readers == {}
    ensures Left(Inside(nodes, p), 0, p) == nodes[p] && Inside(nodes, p)[p := nodes[p]] == nodes
  {
    EnterLeave(nodes[p].cell, 0);
  }

  lemma Leaves(s: State, nodes: seq<Node>, pc: Pc, ok: bool, p: Id, next: Pc)
    requires p < |nodes| && nodes[p].cell.readers == {}
    requires Alone(s, Inside(nodes, p), pc) && Enabled(s, Advance(0, ok))
    requires StepDelta(s, Advance(0, ok)) == LeaveDelta(Inside(nodes, p), 0, p, next)
    ensures Alone(Apply(s, Advance(0, ok)), nodes, next)
  {
    LeftInside(nodes, p);
    Moves(s, Advance(0, ok), nodes, next);
  }

  /** Somewhere in the run, thread 0 holds the shared lock of `n`. */
  ghost predicate Within(s: State, run: seq<Step>, n: Id)
    requires Valid(s, run)
    decreases |run|
  {
    || (|s.threads| > 0 && HeldShared(s.threads[0]) == Some(n))
    || (run != [] && Within(Apply(s, run[0]), run[1..], n))
  }

  lemma WithinCons(s: State, step: Step, rest: seq<Step>, n: Id)
    requires |s.threads| > 0 && Enabled(s, step) && Valid(Apply(s, step), rest)
    ensures Valid(s, [step] + rest)
    ensures Within(s, [step] + rest, n) <==>
            HeldShared(s.threads[0]) == Some(n) || Within(Apply(s, step), rest, n)
  {
    assert ([step] + rest)[1..] == rest;
  }

  // ---------------------------------------------------------------- a forwarding operation

  lemma WorkEnds(s: State, nodes: seq<Node>, n: Id) returns (run: seq<Step>)
    requires n < |nodes| && nodes[n].cell.readers == {} && Alone(s, Inside(nodes, n), UseBody(n))
    ensures Leads(s, run, nodes) && Within(s, run, n)
  {
    NeverBlocked(s, Inside(nodes, n), UseBody(n), true);
    Leaves(s, nodes, UseBody(n), true, n, Idle);
    LeadsNil(Apply(s, Advance(0, true)), nodes);
    LeadsCons(s, Advance(0, true), [], nodes);
    run := [Advance(0, true)] + [];
  }

  lemma WorkUses(s: State, nodes: seq<Node>, n: Id) returns (run: seq<Step>)
    requires Alone(s, nodes, UseWait(n)) && HasHandle(nodes, n)
    ensures Leads(s, run, nodes) && (Within(s, run, n) <==> !nodes[n].cell.closed)
  {
    var step := Advance(0, true);
    NeverBlocked(s, nodes, UseWait(n), true);
    LockFree(s, nodes, UseWait(n), n);
    var rest := [];
    if nodes[n].cell.closed {
      Refused(s, nodes, UseWait(n), true, n, UseBody(n));
      LeadsNil(Apply(s, step), nodes);
    } else {
      Enters(s, nodes, UseWait(n), true, n, UseBody(n), Keep);
      rest := WorkEnds(Apply(s, step), nodes, n);
    }
    LeadsCons(s, step, rest, nodes);
    WithinCons(s, step, rest, n);
    run := [step] + rest;
  }

  /**
   A forwarding operation can start whenever its wrapper is held; its native call is made, inside the shared
   lock, exactly if the handle is open; and it leaves everything as it was.
   */
  lemma WorkAlone(s: State, n: Id) returns (run: seq<Step>)
    requires Alone(s, s.nodes, Idle) && HasHandle(s.nodes, n) && s.nodes[n].refs > 0
    ensures run != [] && run[0] == Begin(0, Work(n)) && Leads(s, run, s.nodes)
    ensures Within(s, run, n) <==> !s.nodes[n].cell.closed
  {
    var step := Begin(0, Work(n));
    Moves(s, step, s.nodes, UseWait(n));
    var rest := WorkUses(Apply(s, step), s.nodes, n);
    LeadsCons(s, step, rest, s.nodes);
    WithinCons(s, step, rest, n);
    run := [step] + rest;
  }

  // ---------------------------------------------------------------- wrappers

  lemma BeginsOnly(s: State, step: Step, nodes: seq<Node>)
    requires Alone(s, s.nodes, Idle) && step.Begin? && Enabled(s, step) && step.t == 0
    requires Patch(s, 0, StepDelta(s, step)).nodes == nodes && StepDelta(s, step).pc.Idle?
    ensures Leads(s, [step], nodes)
  {
    Moves(s, step, nodes, Idle);
    LeadsNil(Apply(s, step), nodes);
    LeadsCons(s, step, [], nodes);
    assert [step] + [] == [step];
  }

  /** Connecting makes one open cluster, held by its wrapper only. */
  lemma ConnectAlone(s: State) returns (nodes': seq<Node>)
    requires Alone(s, s.nodes, Idle)
    ensures Leads(s, [Begin(0, Connect)], nodes') && |nodes'| == |s.nodes| + 1 && nodes'[..|s.nodes|] == s.nodes
    ensures var node := nodes'[|s.nodes|];
            && node.kind.Cluster? && node.up.None? && node.native && node.published && node.refs == 1
            && !node.counted && !node.freed && node.driver.None? && node.closes == 0
            && node.cell == Cell(Some(|s.nodes|), false, 0, {}, None)
  {
    nodes' := Patch(s, 0, BeginDelta(s.nodes, 0, Connect)).nodes;
    BeginsOnly(s, Begin(0, Connect), nodes');
  }

  /** A held wrapper can be copied and dropped at any time: one owner more or less, and nothing else. */
  lemma WrapperAlone(s: State, n: Id)
    requires Alone(s, s.nodes, Idle) && HasHandle(s.nodes, n) && s.nodes[n].refs > 0
    ensures Leads(s, [Begin(0, Share(n))], s.nodes[n := s.nodes[n].(refs := s.nodes[n].refs + 1)])
    ensures Leads(s, [Begin(0, Drop(n))], s.nodes[n := s.nodes[n].(refs := s.nodes[n].refs - 1)])
  {
    BeginsOnly(s, Begin(0, Share(n)), s.nodes[n := s.nodes[n].(refs := s.nodes[n].refs + 1)]);
    BeginsOnly(s, Begin(0, Drop(n)), s.nodes[n := s.nodes[n].(refs := s.nodes[n].refs - 1)]);
  }

  // ---------------------------------------------------------------- opening a child handle

  /** A handle fresh from a successful open under `p`: open, counted, and held by its own wrapper. */
  predicate Opened(node: Node, p: Id, kind: Kind, n: Id)
  {
    && node.kind == kind && node.up == Some(p) && node.native && node.counted && node.published && !node.freed
    && node.refs == 1 && node.driver.None? && node.closes == 0 && node.cell == Cell(Some(n), false, 0, {}, None)
  }

  /** What an open under `p` leaves; `ok` is the native open's outcome. */
  ghost predicate OpenResult(nodes: seq<Node>, p: Id, ok: bool, nodes': seq<Node>)
    requires HasHandle(nodes, p) && !nodes[p].kind.Image?
  {
    if nodes[p].cell.closed || !ok then nodes' == nodes
    else
      && |nodes'| == |nodes| + 1
      && nodes'[..|nodes|] == nodes[p := nodes[p].(cell := nodes[p].cell.AddChild(), refs := nodes[p].refs + 1)]
      && Opened(nodes'[|nodes|], p, if nodes[p].kind.Cluster? then Context else Image, |nodes|)
  }

  ghost function OpenedNodes(nodes: seq<Node>, p: Id): seq<Node>
    requires HasHandle(nodes, p) && !nodes[p].kind.Image?
  {
    var child := NewHandle(HandleUnder(nodes[p].kind), Some(p), |nodes|, Some(0));
    nodes[p := nodes[p].(cell := nodes[p].cell.AddChild(), refs := nodes[p].refs + 1)]
    + [child.(counted := true, driver := None, refs := 1, published := true)]
  }

  lemma OpenedResult(nodes: seq<Node>, p: Id)
    requires HasHandle(nodes, p) && !nodes[p].kind.Image? && !nodes[p].cell.closed
    ensures OpenResult(nodes, p, true, OpenedNodes(nodes, p))
  {
  }

  lemma OpenAddsTo(nodes: seq<Node>, p: Id, child: Node, threads: seq<Pc>, exposed: set<Id>)
    requires HasHandle(nodes, p) && !nodes[p].kind.Image? && |threads| > 0
    requires child == NewHandle(HandleUnder(nodes[p].kind), Some(p), |nodes|, Some(0))
    ensures Patch(State(nodes + [child], threads, exposed), 0, OpenAddDelta(nodes + [child], p, |nodes|)).nodes
            == OpenedNodes(nodes, p)
  {
  }

  lemma OpenAdds(s: State, nodes: seq<Node>, p: Id, child: Node) returns (run: seq<Step>, nodes': seq<Node>)
    requires HasHandle(nodes, p) && !nodes[p].kind.Image? && !nodes[p].cell.closed
    requires child == NewHandle(HandleUnder(nodes[p].kind), Some(p), |nodes|, Some(0))
    requires Alone(s, nodes + [child], OpenAdd(p, |nodes|))
    ensures OpenResult(nodes, p, true, nodes') && Leads(s, run, nodes')
  {
    nodes' := OpenedNodes(nodes, p);
    NeverBlocked(s, nodes + [child], OpenAdd(p, |nodes|), true);
    OpenAddsTo(nodes, p, child, s.threads, s.exposed);
    OpenedResult(nodes, p);
    assert StepDelta(s, Advance(0, true)) == OpenAddDelta(s.nodes, p, |nodes|);
    run := Finishes(s, true, nodes');
  }

  lemma OpenCalls(s: State, nodes: seq<Node>, p: Id, ok: bool) returns (run: seq<Step>, nodes': seq<Node>)
    requires HasHandle(nodes, p) && !nodes[p].kind.Image? && !nodes[p].cell.closed && nodes[p].cell.readers == {}
    requires Alone(s, Inside(nodes, p), OpenBody(p))
    ensures OpenResult(nodes, p, ok, nodes') && Leads(s, run, nodes')
  {
    var step := Advance(0, ok);
    NeverBlocked(s, Inside(nodes, p), OpenBody(p), ok);
    var rest := [];
    if ok {
      LeftInside(nodes, p);
      var child := NewHandle(HandleUnder(nodes[p].kind), Some(p), |nodes|, Some(0));
      Moves(s, step, nodes + [child], OpenAdd(p, |nodes|));
      rest, nodes' := OpenAdds(Apply(s, step), nodes, p, child);
    } else {
      Leaves(s, nodes, OpenBody(p), ok, p, Idle);
      nodes' := nodes;
      LeadsNil(Apply(s, step), nodes');
    }
    LeadsCons(s, step, rest, nodes');
    run := [step] + rest;
  }

  lemma OpenUses(s: State, nodes: seq<Node>, p: Id, ok: bool) returns (run: seq<Step>, nodes': seq<Node>)
    requires Alone(s, nodes, OpenWait(p)) && HasHandle(nodes, p) && !nodes[p].kind.Image?
    ensures OpenResult(nodes, p, ok, nodes') && Leads(s, run, nodes')
  {
    var step := Advance(0, ok);
    NeverBlocked(s, nodes, OpenWait(p), ok);
    LockFree(s, nodes, OpenWait(p), p);
    var rest := [];
    if nodes[p].cell.closed {
      Refused(s, nodes, OpenWait(p), ok, p, OpenBody(p));
      nodes' := nodes;
      LeadsNil(Apply(s, step), nodes');
    } else {
      Enters(s, nodes, OpenWait(p), ok, p, OpenBody(p), Keep);
      rest, nodes' := OpenCalls(Apply(s, step), nodes, p, ok);
    }
    LeadsCons(s, step, rest, nodes');
    run := [step] + rest;
  }

  /** Opening a context or an image: one open counted child more, or, where it throws or is refused, no change. */
  lemma OpenAlone(s: State, p: Id, ok: bool) returns (run: seq<Step>, nodes': seq<Node>)
    requires Alone(s, s.nodes, Idle) && HasHandle(s.nodes, p) && !s.nodes[p].kind.Image? && s.nodes[p].refs > 0
    ensures run != [] && run[0] == Begin(0, Open(p)) && Leads(s, run, nodes') && OpenResult(s.nodes, p, ok, nodes')
  {
    var step, rest := Begin(0, Open(p)), [];
    Moves(s, step, s.nodes, OpenWait(p));
    rest, nodes' := OpenUses(Apply(s, step), s.nodes, p, ok);
    LeadsCons(s, step, rest, nodes');
    run := [step] + rest;
  }

  // ---------------------------------------------------------------- creating a subscription

  /** What `Create` under `p` leaves, in terms of what it comes to for the objects; `rc` is the native result. */
  ghost predicate CreateResult(nodes: seq<Node>, p: Id, rc: int, nodes': seq<Node>)
    requires HasHandle(nodes, p)
  {
    var (r, world) := Subscriptions.Created(nodes[p].cell, rc);
    var released := if Subscriptions.ReleaseCallback in world.calls then 1 else 0;
    && |nodes'| == |nodes| + 1 && nodes'[..|nodes|] == nodes[p := nodes[p].(cell := world.parent)]
    && var node := nodes'[|nodes|];
       && node.kind == (match nodes[p].kind case Cluster => Log case Context => Watch case _ => Updates)
       && node.up == Some(p) && node.driver.None? && !node.threw && !node.freed
       && (node.native <==> r.Ok?) && (node.entered <==> r.Ok?) && (node.published <==> r.Ok?)
       && node.refs == (if r.Ok? then 1 else 0) && node.ended == world.closed
       && (node.counted <==> released == 0) && node.tally == Tally(0, 0, released, released)
  }

  /** The nodes once the new child of `p` is counted. */
  ghost function Counted(nodes: seq<Node>, p: Id): seq<Node>
    requires HasHandle(nodes, p)
  {
    nodes[p := nodes[p].(cell := nodes[p].cell.AddChild())] + [NewSub(SubscriptionUnder(nodes[p].kind), p, 0)]
  }

  /** A registered child, published to its wrapper. */
  ghost function Published(nodes: seq<Node>, p: Id): seq<Node>
    requires HasHandle(nodes, p)
  {
    var w, counted := |nodes|, Counted(nodes, p);
    counted[w := counted[w].(native := true, entered := true, driver := None, refs := 1, published := true)]
  }

  lemma PublishedResult(nodes: seq<Node>, p: Id, rc: int)
    requires HasHandle(nodes, p) && nodes[p].cell.Usable() && rc >= 0
    ensures CreateResult(nodes, p, rc, Published(nodes, p))
  {
  }

  lemma PublishesTo(nodes: seq<Node>, p: Id, threads: seq<Pc>, exposed: set<Id>)
    requires HasHandle(nodes, p) && nodes[p].cell.readers == {} && |threads| > 0
    ensures var w := |nodes|; var counted := Counted(nodes, p);
            var registered := Inside(counted, p)[w := counted[w].(native := true, entered := true)];
            Patch(State(registered, threads, exposed), 0, SubLeaveDelta(registered, 0, p, w)).nodes
            == Published(nodes, p)
  {
    LeftInside(Counted(nodes, p), p);
  }

  lemma CreateLeaves(s: State, nodes: seq<Node>, p: Id, rc: int) returns (run: seq<Step>, nodes': seq<Node>)
    requires HasHandle(nodes, p) && nodes[p].cell.readers == {} && nodes[p].cell.Usable() && rc >= 0
    requires var w := |nodes|; var counted := Counted(nodes, p);
             Alone(s, Inside(counted, p)[w := counted[w].(native := true, entered := true)], SubLeave(p, w))
    ensures CreateResult(nodes, p, rc, nodes') && Leads(s, run, nodes')
  {
    nodes' := Published(nodes, p);
    NeverBlocked(s, s.nodes, SubLeave(p, |nodes|), true);
    PublishesTo(nodes, p, s.threads, s.exposed);
    PublishedResult(nodes, p, rc);
    run := Finishes(s, true, nodes');
  }

  /** A refused child, taken off its parent's counter again. */
  ghost function TakenBack(nodes: seq<Node>, p: Id): seq<Node>
    requires HasHandle(nodes, p)
  {
    var child := NewSub(SubscriptionUnder(nodes[p].kind), p, 0);
    nodes[p := nodes[p].(cell := nodes[p].cell.AddChild().RemoveChild())]
    + [child.(ended := true, tally := Tally(0, 0, 1, 1), counted := false, driver := None)]
  }

  lemma TakenBackResult(nodes: seq<Node>, p: Id, rc: int)
    requires HasHandle(nodes, p) && nodes[p].cell.Usable() && rc < 0
    ensures CreateResult(nodes, p, rc, TakenBack(nodes, p))
  {
  }

  lemma TakesBackTo(nodes: seq<Node>, p: Id, threads: seq<Pc>, exposed: set<Id>)
    requires HasHandle(nodes, p) && |threads| > 0
    ensures var w := |nodes|; var counted := Counted(nodes, p);
            var failed := counted[w := counted[w].(ended := true, tally := Tally(0, 0, 1, 0))];
            Patch(State(failed, threads, exposed), 0, RemoveDelta(failed, p, w)).nodes == TakenBack(nodes, p)
  {
  }

  lemma CreateTakesBack(s: State, nodes: seq<Node>, p: Id, rc: int) returns (run: seq<Step>, nodes': seq<Node>)
    requires HasHandle(nodes, p) && nodes[p].cell.Usable() && rc < 0
    requires var w := |nodes|; var counted := Counted(nodes, p);
             Alone(s, counted[w := counted[w].(ended := true, tally := Tally(0, 0, 1, 0))], SubFailRemove(p, w))
    ensures CreateResult(nodes, p, rc, nodes') && Leads(s, run, nodes')
  {
    nodes' := TakenBack(nodes, p);
    NeverBlocked(s, s.nodes, SubFailRemove(p, |nodes|), true);
    TakesBackTo(nodes, p, s.threads, s.exposed);
    TakenBackResult(nodes, p, rc);
    run := Finishes(s, true, nodes');
  }

  lemma CreateFails(s: State, nodes: seq<Node>, p: Id, rc: int) returns (run: seq<Step>, nodes': seq<Node>)
    requires HasHandle(nodes, p) && nodes[p].cell.Usable() && rc < 0
    requires Alone(s, Counted(nodes, p), SubFail(p, |nodes|))
    ensures CreateResult(nodes, p, rc, nodes') && Leads(s, run, nodes')
  {
    var w, counted := |nodes|, Counted(nodes, p);
    NeverBlocked(s, counted, SubFail(p, w), true);
    var failed := counted[w := counted[w].(ended := true, tally := Tally(0, 0, 1, 0))];
    Moves(s, Advance(0, true), failed, SubFailRemove(p, w));
    var rest;
    rest, nodes' := CreateTakesBack(Apply(s, Advance(0, true)), nodes, p, rc);
    run := GoOn(s, true, rest, nodes');
  }

  lemma CreateCalls(s: State, nodes: seq<Node>, p: Id, rc: int) returns (run: seq<Step>, nodes': seq<Node>)
    requires HasHandle(nodes, p) && nodes[p].cell.readers == {} && nodes[p].cell.Usable()
    requires Alone(s, Inside(Counted(nodes, p), p), SubBody(p, |nodes|))
    ensures CreateResult(nodes, p, rc, nodes') && Leads(s, run, nodes')
  {
    var w, counted, ok := |nodes|, Counted(nodes, p), rc >= 0;
    NeverBlocked(s, s.nodes, SubBody(p, w), ok);
    var rest;
    if ok {
      var registered := Inside(counted, p)[w := counted[w].(native := true, entered := true)];
      Moves(s, Advance(0, ok), registered, SubLeave(p, w));
      rest, nodes' := CreateLeaves(Apply(s, Advance(0, ok)), nodes, p, rc);
    } else {
      Leaves(s, counted, SubBody(p, w), ok, p, SubFail(p, w));
      rest, nodes' := CreateFails(Apply(s, Advance(0, ok)), nodes, p, rc);
    }
    run := GoOn(s, ok, rest, nodes');
  }

  lemma CreateThrows(s: State, nodes: seq<Node>, p: Id, rc: int) returns (run: seq<Step>, nodes': seq<Node>)
    requires HasHandle(nodes, p) && !nodes[p].cell.Usable() && Alone(s, Counted(nodes, p), SubWait(p, |nodes|))
    ensures CreateResult(nodes, p, rc, nodes') && Leads(s, run, nodes')
  {
    var w, counted := |nodes|, Counted(nodes, p);
    NeverBlocked(s, counted, SubWait(p, w), true);
    nodes' := counted[w := counted[w].(driver := None)];
    run := Finishes(s, true, nodes');
  }

  lemma CreateUses(s: State, nodes: seq<Node>, p: Id, rc: int) returns (run: seq<Step>, nodes': seq<Node>)
    requires HasHandle(nodes, p) && nodes[p].cell.readers == {}
    requires Alone(s, Counted(nodes, p), SubWait(p, |nodes|))
    ensures CreateResult(nodes, p, rc, nodes') && Leads(s, run, nodes')
  {
    var w, counted := |nodes|, Counted(nodes, p);
    if nodes[p].cell.Usable() {
      NeverBlocked(s, counted, SubWait(p, w), true);
      Enters(s, counted, SubWait(p, w), true, p, SubBody(p, w), Write(w, counted[w].(driver := None)));
      var rest;
      rest, nodes' := CreateCalls(Apply(s, Advance(0, true)), nodes, p, rc);
      run := GoOn(s, true, rest, nodes');
    } else {
      run, nodes' := CreateThrows(s, nodes, p, rc);
    }
  }

  /** `Create` under `p`, with the native registration's result `rc`: what it comes to for the objects. */
  lemma CreateAlone(s: State, p: Id, rc: int) returns (run: seq<Step>, nodes': seq<Node>)
    requires Alone(s, s.nodes, Idle) && HasHandle(s.nodes, p) && s.nodes[p].refs > 0
    ensures run != [] && run[0] == Begin(0, Subscribe(p)) && Leads(s, run, nodes')
    ensures CreateResult(s.nodes, p, rc, nodes')
  {
    LockFree(s, s.nodes, Idle, p);
    Moves(s, Begin(0, Subscribe(p)), s.nodes, SubAdd(p));
    var s1 := Apply(s, Begin(0, Subscribe(p)));
    NeverBlocked(s1, s.nodes, SubAdd(p), true);
    Moves(s1, Advance(0, true), Counted(s.nodes, p), SubWait(p, |s.nodes|));
    var rest;
    rest, nodes' := CreateUses(Apply(s1, Advance(0, true)), s.nodes, p, rc);
    rest := GoOn(s1, true, rest, nodes');
    LeadsCons(s, Begin(0, Subscribe(p)), rest, nodes');
    run := [Begin(0, Subscribe(p))] + rest;
  }

  // ---------------------------------------------------------------- closing a subscription

  /** The nodes show these native calls, this parent and, if it threw, a teardown broken off. */
  ghost predicate Shows(nodes: seq<Node>, w: Id, p: Id, flusher: Option<Id>, threw: bool,
                        world: Subscriptions.World, nodes': seq<Node>)
    requires HasHandle(nodes, p) && HasSub(nodes, w)
  {
    var unregistered := Subscriptions.Unregister(p) in world.calls;
    var released := Subscriptions.ReleaseCallback in world.calls;
    var flushed := flusher.Some? && Subscriptions.Flush(flusher.value) in world.calls;
    && |nodes'| == |nodes| && (forall m :: 0 <= m < |nodes| && m != p && m != w ==> nodes'[m] == nodes[m])
    && nodes'[p] == nodes[p].(cell := world.parent)
    && nodes'[w] == nodes[w].(ended := world.closed, threw := threw, native := !unregistered, counted := !released,
                              tally := Tally(if unregistered then 1 else 0, if flushed then 1 else 0,
                                             if released then 1 else 0, if released then 1 else 0))
  }

  /** What `Data::close` of `w` leaves, in terms of what it comes to for the objects. */
  ghost predicate EndResult(nodes: seq<Node>, w: Id, p: Id, flusher: Option<Id>, nodes': seq<Node>)
    requires HasHandle(nodes, p) && HasSub(nodes, w) && (flusher.Some? ==> HasHandle(nodes, flusher.value))
  {
    var cluster := if flusher.Some? then Some(nodes[flusher.value].cell) else None;
    var (r, world) := Subscriptions.Closed(Subscriptions.World(nodes[p].cell, nodes[w].ended, []), cluster, 0, 0);
    if nodes[w].ended then nodes' == nodes else Shows(nodes, w, p, flusher, r.Err?, world, nodes')
  }

  /** `w` and the handles that its teardown uses. */
  ghost predicate Family(nodes: seq<Node>, w: Id, p: Id, flusher: Option<Id>)
  {
    && HasSub(nodes, w) && HasHandle(nodes, p) && nodes[w].up == Some(p) && p < w
    && (nodes[w].kind.Watch? <==> flusher.Some?)
    && (flusher.Some? ==> flusher.value < p && HasHandle(nodes, flusher.value) && nodes[p].up == flusher)
  }

  /** The flag is set, and thread 0 tears `w` down. */
  ghost function Ending(nodes: seq<Node>, w: Id): seq<Node>
    requires w < |nodes|
  {
    nodes[w := nodes[w].(ended := true, driver := Some(0))]
  }

  /** `w` is unregistered, and flushed if `flushed` is 1. */
  ghost function Unregistered(nodes: seq<Node>, w: Id, flushed: nat): seq<Node>
    requires w < |nodes|
  {
    nodes[w := nodes[w].(ended := true, driver := Some(0), native := false, tally := Tally(1, flushed, 0, 0))]
  }

  ghost function Released(nodes: seq<Node>, w: Id, flushed: nat): seq<Node>
    requires w < |nodes|
  {
    nodes[w := nodes[w].(ended := true, driver := Some(0), native := false, tally := Tally(1, flushed, 1, 0))]
  }

  ghost function Removed(nodes: seq<Node>, w: Id, p: Id, flushed: nat): seq<Node>
    requires w < |nodes| && p < |nodes|
  {
    nodes[p := nodes[p].(cell := nodes[p].cell.RemoveChild())]
         [w := nodes[w].(ended := true, native := false, counted := false, tally := Tally(1, flushed, 1, 1))]
  }

  /** A `use` of the teardown throws. */
  lemma EndThrows(s: State, nodes: seq<Node>, pc: Pc, w: Id, h: Id, body: Pc) returns (run: seq<Step>)
    requires w < |nodes| && h < |nodes| && !nodes[h].cell.Usable() && Alone(s, nodes, pc) && !pc.Idle?
    requires Enabled(s, Advance(0, true))
    requires StepDelta(s, Advance(0, true)) == EnterDelta(nodes, 0, h, body, Stranded(nodes, w))
    ensures Leads(s, run, nodes[w := nodes[w].(threw := true, driver := None)])
  {
    var nodes' := nodes[w := nodes[w].(threw := true, driver := None)];
    run := Finishes(s, true, nodes');
  }

  lemma UnregistersTo(nodes: seq<Node>, w: Id, p: Id, flusher: Option<Id>, threads: seq<Pc>, exposed: set<Id>, next: Pc)
    requires Family(nodes, w, p, flusher) && nodes[p].cell.readers == {} && nodes[w].tally == ZERO_TALLY
    requires |threads| > 0
    ensures var inside := Inside(Ending(nodes, w), p);
            Patch(State(inside, threads, exposed), 0, UnregisterDelta(inside, 0, p, w, next)).nodes
            == Unregistered(nodes, w, 0)
  {
    LeftInside(Ending(nodes, w), p);
  }

  lemma FlushesTo(nodes: seq<Node>, w: Id, p: Id, k: Id, threads: seq<Pc>, exposed: set<Id>)
    requires Family(nodes, w, p, Some(k)) && nodes[k].cell.readers == {} && |threads| > 0
    ensures var inside := Inside(Unregistered(nodes, w, 0), k);
            Patch(State(inside, threads, exposed), 0, FlushDelta(inside, 0, k, w)).nodes == Unregistered(nodes, w, 1)
  {
    LeftInside(Unregistered(nodes, w, 0), k);
  }

  lemma RemovesTo(nodes: seq<Node>, w: Id, p: Id, flusher: Option<Id>, flushed: nat, threads: seq<Pc>, exposed: set<Id>)
    requires Family(nodes, w, p, flusher) && nodes[w].driver.None? && |threads| > 0
    ensures var released := Released(nodes, w, flushed);
            Patch(State(released, threads, exposed), 0, RemoveDelta(released, p, w)).nodes
            == Removed(nodes, w, p, flushed)
  {
  }

  lemma EndRemoves(s: State, nodes: seq<Node>, w: Id, p: Id, flusher: Option<Id>, flushed: nat)
    returns (run: seq<Step>)
    requires Family(nodes, w, p, flusher) && nodes[w].driver.None?
    requires Alone(s, Released(nodes, w, flushed), EndRemove(w, p))
    ensures Leads(s, run, Removed(nodes, w, p, flushed))
  {
    NeverBlocked(s, s.nodes, EndRemove(w, p), true);
    RemovesTo(nodes, w, p, flusher, flushed, s.threads, s.exposed);
    assert StepDelta(s, Advance(0, true)) == RemoveDelta(s.nodes, p, w);
    run := Finishes(s, true, Removed(nodes, w, p, flushed));
  }

  lemma EndReleases(s: State, nodes: seq<Node>, w: Id, p: Id, flusher: Option<Id>, flushed: nat)
    returns (run: seq<Step>)
    requires Family(nodes, w, p, flusher) && nodes[w].driver.None?
    requires Alone(s, Unregistered(nodes, w, flushed), EndRelease(w))
    ensures Leads(s, run, Removed(nodes, w, p, flushed))
  {
    NeverBlocked(s, s.nodes, EndRelease(w), true);
    Moves(s, Advance(0, true), Released(nodes, w, flushed), EndRemove(w, p));
    var rest := EndRemoves(Apply(s, Advance(0, true)), nodes, w, p, flusher, flushed);
    run := GoOn(s, true, rest, Removed(nodes, w, p, flushed));
  }

  lemma EndFlushes(s: State, nodes: seq<Node>, w: Id, p: Id, k: Id) returns (run: seq<Step>)
    requires Family(nodes, w, p, Some(k)) && nodes[w].driver.None? && nodes[k].cell.readers == {}
    requires Alone(s, Inside(Unregistered(nodes, w, 0), k), EndFlushBody(w, k))
    ensures Leads(s, run, Removed(nodes, w, p, 1))
  {
    NeverBlocked(s, s.nodes, EndFlushBody(w, k), true);
    FlushesTo(nodes, w, p, k, s.threads, s.exposed);
    Moves(s, Advance(0, true), Unregistered(nodes, w, 1), EndRelease(w));
    var rest := EndReleases(Apply(s, Advance(0, true)), nodes, w, p, Some(k), 1);
    run := GoOn(s, true, rest, Removed(nodes, w, p, 1));
  }

  /** Behind the unregister call of an object watch. */
  lemma EndFlushUses(s: State, nodes: seq<Node>, w: Id, p: Id, k: Id) returns (run: seq<Step>)
    requires Family(nodes, w, p, Some(k)) && nodes[w].driver.None? && nodes[k].cell.readers == {}
    requires Alone(s, Unregistered(nodes, w, 0), EndFlushWait(w, k))
    ensures var gone := Unregistered(nodes, w, 0);
            Leads(s, run, if nodes[k].cell.Usable() then Removed(nodes, w, p, 1)
                          else gone[w := gone[w].(threw := true, driver := None)])
  {
    var gone := Unregistered(nodes, w, 0);
    NeverBlocked(s, gone, EndFlushWait(w, k), true);
    if nodes[k].cell.Usable() {
      Enters(s, gone, EndFlushWait(w, k), true, k, EndFlushBody(w, k), Stranded(gone, w));
      var rest := EndFlushes(Apply(s, Advance(0, true)), nodes, w, p, k);
      run := GoOn(s, true, rest, Removed(nodes, w, p, 1));
    } else {
      run := EndThrows(s, gone, EndFlushWait(w, k), w, k, EndFlushBody(w, k));
    }
  }

  /** What the teardown leaves once its first `use` has gone through. */
  ghost function EndedNodes(nodes: seq<Node>, w: Id, p: Id, flusher: Option<Id>): seq<Node>
    requires Family(nodes, w, p, flusher)
  {
    var gone := Unregistered(nodes, w, 0);
    if flusher.None? then Removed(nodes, w, p, 0)
    else if nodes[flusher.value].cell.Usable() then Removed(nodes, w, p, 1)
    else gone[w := gone[w].(threw := true, driver := None)]
  }

  /** What thread 0 does behind the unregister call. */
  function AfterCall(w: Id, flusher: Option<Id>): Pc
  {
    if flusher.Some? then EndFlushWait(w, flusher.value) else EndRelease(w)
  }

  lemma UnregisterIs(s: State, w: Id, p: Id, flusher: Option<Id>)
    requires Inv(s) && Enabled(s, Advance(0, true)) && |s.threads| > 0 && s.threads[0] == EndUnregisterBody(w, p)
    requires Family(s.nodes, w, p, flusher)
    ensures StepDelta(s, Advance(0, true)) == UnregisterDelta(s.nodes, 0, p, w, AfterCall(w, flusher))
  {
  }

  lemma UnregisterMoves(s: State, nodes: seq<Node>, w: Id, p: Id, flusher: Option<Id>)
    requires Family(nodes, w, p, flusher) && nodes[w].tally == ZERO_TALLY && nodes[p].cell.readers == {}
    requires Alone(s, Inside(Ending(nodes, w), p), EndUnregisterBody(w, p))
    ensures Enabled(s, Advance(0, true))
    ensures Alone(Apply(s, Advance(0, true)), Unregistered(nodes, w, 0), AfterCall(w, flusher))
  {
    NeverBlocked(s, s.nodes, EndUnregisterBody(w, p), true);
    UnregisterIs(s, w, p, flusher);
    UnregistersTo(nodes, w, p, flusher, s.threads, s.exposed, AfterCall(w, flusher));
    Moves(s, Advance(0, true), Unregistered(nodes, w, 0), AfterCall(w, flusher));
  }

  lemma EndUnregisters(s: State, nodes: seq<Node>, w: Id, p: Id, flusher: Option<Id>) returns (run: seq<Step>)
    requires Family(nodes, w, p, flusher) && nodes[w].driver.None? && nodes[w].tally == ZERO_TALLY
    requires nodes[p].cell.readers == {} && (flusher.Some? ==> nodes[flusher.value].cell.readers == {})
    requires Alone(s, Inside(Ending(nodes, w), p), EndUnregisterBody(w, p))
    ensures Leads(s, run, EndedNodes(nodes, w, p, flusher))
  {
    UnregisterMoves(s, nodes, w, p, flusher);
    var s1, rest := Apply(s, Advance(0, true)), [];
    if flusher.Some? {
      rest := EndFlushUses(s1, nodes, w, p, flusher.value);
    } else {
      rest := EndReleases(s1, nodes, w, p, flusher, 0);
    }
    run := GoOn(s, true, rest, EndedNodes(nodes, w, p, flusher));
  }

  ghost function ThrownNodes(nodes: seq<Node>, w: Id): seq<Node>
    requires w < |nodes|
  {
    nodes[w := nodes[w].(ended := true, threw := true)]
  }

  lemma ThrownForm(nodes: seq<Node>, w: Id)
    requires w < |nodes| && nodes[w].driver.None?
    ensures var ending := Ending(nodes, w);
            ending[w := ending[w].(threw := true, driver := None)] == ThrownNodes(nodes, w)
  {
  }

  lemma EndUses(s: State, nodes: seq<Node>, w: Id, p: Id, flusher: Option<Id>) returns (run: seq<Step>)
    requires Family(nodes, w, p, flusher) && nodes[w].driver.None? && nodes[w].tally == ZERO_TALLY
    requires nodes[p].cell.readers == {} && (flusher.Some? ==> nodes[flusher.value].cell.readers == {})
    requires Alone(s, Ending(nodes, w), EndUnregisterWait(w, p))
    ensures Leads(s, run, if nodes[p].cell.Usable() then EndedNodes(nodes, w, p, flusher) else ThrownNodes(nodes, w))
  {
    var ending := Ending(nodes, w);
    NeverBlocked(s, ending, EndUnregisterWait(w, p), true);
    if nodes[p].cell.Usable() {
      Enters(s, ending, EndUnregisterWait(w, p), true, p, EndUnregisterBody(w, p), Stranded(ending, w));
      var rest := EndUnregisters(Apply(s, Advance(0, true)), nodes, w, p, flusher);
      run := GoOn(s, true, rest, EndedNodes(nodes, w, p, flusher));
    } else {
      run := EndThrows(s, ending, EndUnregisterWait(w, p), w, p, EndUnregisterBody(w, p));
      ThrownForm(nodes, w);
    }
  }

  lemma EndGoes(s: State, nodes: seq<Node>, w: Id, p: Id, flusher: Option<Id>) returns (run: seq<Step>)
    requires Family(nodes, w, p, flusher) && nodes[w].driver.None? && (nodes[w].ended || nodes[w].tally == ZERO_TALLY)
    requires nodes[p].cell.readers == {} && (flusher.Some? ==> nodes[flusher.value].cell.readers == {})
    requires Alone(s, nodes, EndExchange(w))
    ensures Leads(s, run, if nodes[w].ended then nodes
                          else if nodes[p].cell.Usable() then EndedNodes(nodes, w, p, flusher)
                          else ThrownNodes(nodes, w))
  {
    var step := Advance(0, true);
    NeverBlocked(s, nodes, EndExchange(w), true);
    if nodes[w].ended {
      Moves(s, step, nodes, Idle);
      LeadsNil(Apply(s, step), nodes);
      run := GoOn(s, true, [], nodes);
    } else {
      Moves(s, step, Ending(nodes, w), EndUnregisterWait(w, p));
      var rest := EndUses(Apply(s, step), nodes, w, p, flusher);
      run := GoOn(s, true, rest, if nodes[p].cell.Usable() then EndedNodes(nodes, w, p, flusher)
                                 else ThrownNodes(nodes, w));
    }
  }

  /** The handle is the node's own until it is closed. */
  predicate HandleKept(nodes: seq<Node>, n: Id)
    requires n < |nodes|
  {
    nodes[n].cell.handle == if nodes[n].cell.closed then None else Some(n)
  }

  /** The forms above are what `Data::close` comes to for the objects. */
  lemma EndedIs(nodes: seq<Node>, w: Id, p: Id, flusher: Option<Id>)
    requires Family(nodes, w, p, flusher) && nodes[w].driver.None? && !nodes[w].ended && nodes[w].tally == ZERO_TALLY
    requires nodes[w].native && nodes[w].counted && !nodes[w].threw && nodes[p].cell.Usable()
    requires HandleKept(nodes, p)
    requires flusher.Some? ==> HandleKept(nodes, flusher.value)
    ensures EndResult(nodes, w, p, flusher, EndedNodes(nodes, w, p, flusher))
  {
  }

  lemma ClosedThrows(parent: Cell, cluster: Option<Cell>)
    requires !parent.Usable()
    ensures var world := Subscriptions.World(parent, false, []);
            Subscriptions.Closed(world, cluster, 0, 0) == (Err(ResourceIsClosed), Subscriptions.World(parent, true, []))
  {
  }

  lemma ThrownShows(nodes: seq<Node>, w: Id, p: Id, flusher: Option<Id>)
    requires Family(nodes, w, p, flusher) && !nodes[w].ended && nodes[w].tally == ZERO_TALLY
    requires nodes[w].native && nodes[w].counted
    ensures Shows(nodes, w, p, flusher, true, Subscriptions.World(nodes[p].cell, true, []), ThrownNodes(nodes, w))
  {
  }

  lemma ThrownIs(nodes: seq<Node>, w: Id, p: Id, flusher: Option<Id>)
    requires Family(nodes, w, p, flusher) && !nodes[w].ended && nodes[w].tally == ZERO_TALLY
    requires nodes[w].native && nodes[w].counted && !nodes[p].cell.Usable()
    ensures EndResult(nodes, w, p, flusher, ThrownNodes(nodes, w))
  {
    ClosedThrows(nodes[p].cell, if flusher.Some? then Some(nodes[flusher.value].cell) else None);
    ThrownShows(nodes, w, p, flusher);
  }

  lemma FamilyFacts(s: State, w: Id, p: Id, flusher: Option<Id>)
    requires Alone(s, s.nodes, Idle) && HasSub(s.nodes, w) && s.nodes[w].refs > 0 && Family(s.nodes, w, p, flusher)
    ensures s.nodes[w].driver.None?
    ensures s.nodes[w].ended || (s.nodes[w].tally == ZERO_TALLY && s.nodes[w].native && s.nodes[w].counted
                                 && !s.nodes[w].threw)
    ensures HandleKept(s.nodes, p) && (flusher.Some? ==> HandleKept(s.nodes, flusher.value))
  {
    NodeFacts(s, w);
    NodeFacts(s, p);
    if flusher.Some? {
      NodeFacts(s, flusher.value);
    }
  }

  /** A subscription that its teardown, if there is one, finds at rest, with free locks. */
  ghost predicate Restful(nodes: seq<Node>, w: Id, p: Id, flusher: Option<Id>)
  {
    && Family(nodes, w, p, flusher) && nodes[w].driver.None?
    && (nodes[w].ended || (nodes[w].tally == ZERO_TALLY && nodes[w].native && nodes[w].counted && !nodes[w].threw))
    && nodes[p].cell.readers == {} && HandleKept(nodes, p)
    && (flusher.Some? ==> nodes[flusher.value].cell.readers == {} && HandleKept(nodes, flusher.value))
  }

  /** The teardown from its first action on. */
  lemma EndFrom(s: State, nodes: seq<Node>, w: Id, p: Id, flusher: Option<Id>)
    returns (run: seq<Step>, nodes': seq<Node>)
    requires Restful(nodes, w, p, flusher) && Alone(s, nodes, EndExchange(w))
    ensures Leads(s, run, nodes') && EndResult(nodes, w, p, flusher, nodes')
  {
    nodes' := if nodes[w].ended then nodes
              else if nodes[p].cell.Usable() then EndedNodes(nodes, w, p, flusher)
              else ThrownNodes(nodes, w);
    if !nodes[w].ended {
      if nodes[p].cell.Usable() { EndedIs(nodes, w, p, flusher); } else { ThrownIs(nodes, w, p, flusher); }
    }
    run := EndGoes(s, nodes, w, p, flusher);
  }

  lemma AtRest(s: State, w: Id, p: Id, flusher: Option<Id>)
    requires Alone(s, s.nodes, Idle) && HasSub(s.nodes, w) && s.nodes[w].refs > 0 && Family(s.nodes, w, p, flusher)
    ensures Restful(s.nodes, w, p, flusher)
  {
    FamilyFacts(s, w, p, flusher);
    LockFree(s, s.nodes, Idle, p);
    if flusher.Some? {
      LockFree(s, s.nodes, Idle, flusher.value);
    }
  }

  /** `close` of a subscription: what it comes to for the objects. */
  lemma EndAlone(s: State, w: Id, p: Id, flusher: Option<Id>) returns (run: seq<Step>, nodes': seq<Node>)
    requires Alone(s, s.nodes, Idle) && HasSub(s.nodes, w) && s.nodes[w].refs > 0 && Family(s.nodes, w, p, flusher)
    ensures run != [] && run[0] == Begin(0, End(w)) && Leads(s, run, nodes')
    ensures EndResult(s.nodes, w, p, flusher, nodes')
  {
    var step, rest := Begin(0, End(w)), [];
    AtRest(s, w, p, flusher);
    Moves(s, step, s.nodes, EndExchange(w));
    rest, nodes' := EndFrom(Apply(s, step), s.nodes, w, p, flusher);
    LeadsCons(s, step, rest, nodes');
    run := [step] + rest;
  }

  /** The nodes once the wrapper of `w` is gone. */
  ghost function Unwrapped(nodes: seq<Node>, w: Id): seq<Node>
    requires w < |nodes|
  {
    nodes[w := nodes[w].(refs := 0, dropper := Some(0))]
  }

  lemma UnwrappedRests(nodes: seq<Node>, w: Id, p: Id, flusher: Option<Id>)
    requires Restful(nodes, w, p, flusher)
    ensures Restful(Unwrapped(nodes, w), w, p, flusher)
  {
  }

  lemma DropBegins(s: State, w: Id)
    requires Alone(s, s.nodes, Idle) && HasSub(s.nodes, w) && s.nodes[w].refs > 0
    ensures Enabled(s, Begin(0, DropWatch(w)))
    ensures Alone(Apply(s, Begin(0, DropWatch(w))), Unwrapped(s.nodes, w), DropCheck(w))
  {
    Moves(s, Begin(0, DropWatch(w)), Unwrapped(s.nodes, w), DropCheck(w));
  }

  lemma DropGoes(s: State, nodes: seq<Node>, w: Id, p: Id, flusher: Option<Id>)
    returns (run: seq<Step>, nodes': seq<Node>)
    requires Restful(nodes, w, p, flusher) && Alone(s, nodes, DropCheck(w))
    ensures Leads(s, run, nodes') && EndResult(nodes, w, p, flusher, nodes')
  {
    var step, rest := Advance(0, true), [];
    NeverBlocked(s, nodes, DropCheck(w), true);
    if nodes[w].ended {
      nodes' := nodes;
      Moves(s, step, nodes, Idle);
      LeadsNil(Apply(s, step), nodes);
    } else {
      Moves(s, step, nodes, EndExchange(w));
      rest, nodes' := EndFrom(Apply(s, step), nodes, w, p, flusher);
    }
    LeadsCons(s, step, rest, nodes');
    run := [step] + rest;
  }

  /** Dropping the wrapper of a subscription, live or not, does what `close` does. */
  lemma DropAlone(s: State, w: Id, p: Id, flusher: Option<Id>) returns (run: seq<Step>, nodes': seq<Node>)
    requires Alone(s, s.nodes, Idle) && HasSub(s.nodes, w) && s.nodes[w].refs > 0 && Family(s.nodes, w, p, flusher)
    ensures run != [] && run[0] == Begin(0, DropWatch(w)) && Leads(s, run, nodes')
    ensures EndResult(Unwrapped(s.nodes, w), w, p, flusher, nodes')
  {
    var step, rest := Begin(0, DropWatch(w)), [];
    AtRest(s, w, p, flusher);
    UnwrappedRests(s.nodes, w, p, flusher);
    DropBegins(s, w);
    rest, nodes' := DropGoes(Apply(s, step), Unwrapped(s.nodes, w), w, p, flusher);
    LeadsCons(s, step, rest, nodes');
    run := [step] + rest;
  }

  // ---------------------------------------------------------------- acknowledgements and callbacks

  lemma AckLeaves(s: State, nodes: seq<Node>, body: Pc, w: Id, p: Id) returns (run: seq<Step>)
    requires p < |nodes| && nodes[p].cell.readers == {} && Alone(s, Inside(nodes, p), body)
    requires body == AckBody(w, p) || body == CallbackAckBody(w, p)
    ensures Leads(s, run, nodes) && Within(s, run, p)
  {
    NeverBlocked(s, s.nodes, body, true);
    LeftInside(nodes, p);
    run := Finishes(s, true, nodes);
  }

  /** What an acknowledgement that throws leaves. */
  ghost function AckThrown(nodes: seq<Node>, thrown: Write): seq<Node>
    requires thrown.Write? ==> thrown.n < |nodes|
  {
    if thrown.Write? then nodes[thrown.n := thrown.node] else nodes
  }

  lemma AckRefused(s: State, nodes: seq<Node>, pc: Pc, p: Id, body: Pc, thrown: Write) returns (run: seq<Step>)
    requires Alone(s, nodes, pc) && Enabled(s, Advance(0, true)) && p < |nodes| && !nodes[p].cell.Usable()
    requires StepDelta(s, Advance(0, true)) == EnterDelta(nodes, 0, p, body, thrown) && HeldShared(pc).None?
    requires thrown.Write? ==> thrown.n < |nodes|
    ensures Leads(s, run, AckThrown(nodes, thrown)) && !Within(s, run, p)
  {
    var step := Advance(0, true);
    Moves(s, step, AckThrown(nodes, thrown), Idle);
    LeadsNil(Apply(s, step), AckThrown(nodes, thrown));
    LeadsCons(s, step, [], AckThrown(nodes, thrown));
    WithinCons(s, step, [], p);
    run := [step] + [];
  }

  lemma AckUses(s: State, nodes: seq<Node>, pc: Pc, w: Id, p: Id, body: Pc, thrown: Write) returns (run: seq<Step>)
    requires Alone(s, nodes, pc) && WatchIn(nodes, w, p)
    requires || (pc == AckWait(w, p) && body == AckBody(w, p) && thrown == Keep)
             || (pc == CallbackAckWait(w, p) && body == CallbackAckBody(w, p)
                 && thrown == Write(w, nodes[w].(ackThrew := true)))
    ensures Leads(s, run, if nodes[p].cell.closed then AckThrown(nodes, thrown) else nodes)
    ensures Within(s, run, p) <==> !nodes[p].cell.closed
  {
    NeverBlocked(s, nodes, pc, true);
    LockFree(s, nodes, pc, p);
    if nodes[p].cell.closed {
      run := AckRefused(s, nodes, pc, p, body, thrown);
    } else {
      Enters(s, nodes, pc, true, p, body, thrown);
      var rest := AckLeaves(Apply(s, Advance(0, true)), nodes, body, w, p);
      LeadsCons(s, Advance(0, true), rest, nodes);
      WithinCons(s, Advance(0, true), rest, p);
      run := [Advance(0, true)] + rest;
    }
  }

  /**
   An acknowledgement by the listeners can start while the watch's wrapper is held, reaches the native call
   exactly if the context is open, and changes no node.
   */
  lemma AckAlone(s: State, w: Id, p: Id) returns (run: seq<Step>)
    requires Alone(s, s.nodes, Idle) && WatchIn(s.nodes, w, p) && s.nodes[w].refs > 0
    ensures run != [] && run[0] == Begin(0, Ack(w)) && Leads(s, run, s.nodes)
    ensures Within(s, run, p) <==> !s.nodes[p].cell.closed
  {
    var step := Begin(0, Ack(w));
    Moves(s, step, s.nodes, AckWait(w, p));
    var rest := AckUses(Apply(s, step), s.nodes, AckWait(w, p), w, p, AckBody(w, p), Keep);
    LeadsCons(s, step, rest, s.nodes);
    WithinCons(s, step, rest, p);
    run := [step] + rest;
  }

  /** What a callback leaves: its acknowledgement throws if the watch is live, its event refused, its context closed. */
  ghost function CalledBack(nodes: seq<Node>, w: Id, p: Id, posted: bool): seq<Node>
    requires w < |nodes| && p < |nodes|
  {
    if !nodes[w].ended && !posted && nodes[p].cell.closed then nodes[w := nodes[w].(ackThrew := true)] else nodes
  }

  lemma CallbackPosts(s: State, nodes: seq<Node>, w: Id, p: Id, posted: bool) returns (run: seq<Step>)
    requires Alone(s, nodes, CallbackPost(w)) && WatchIn(nodes, w, p) && !nodes[w].ended
    ensures Leads(s, run, CalledBack(nodes, w, p, posted))
    ensures Within(s, run, p) <==> !posted && !nodes[p].cell.closed
  {
    var step, rest := Advance(0, posted), [];
    NeverBlocked(s, nodes, CallbackPost(w), posted);
    if posted {
      Moves(s, step, nodes, Idle);
      LeadsNil(Apply(s, step), nodes);
    } else {
      Moves(s, step, nodes, CallbackAckWait(w, p));
      rest := AckUses(Apply(s, step), nodes, CallbackAckWait(w, p), w, p, CallbackAckBody(w, p),
                      Write(w, nodes[w].(ackThrew := true)));
    }
    LeadsCons(s, step, rest, CalledBack(nodes, w, p, posted));
    WithinCons(s, step, rest, p);
    run := [step] + rest;
  }

  lemma CallbackChecks(s: State, nodes: seq<Node>, w: Id, p: Id, posted: bool) returns (run: seq<Step>)
    requires Alone(s, nodes, CallbackCheck(w)) && WatchIn(nodes, w, p)
    ensures Leads(s, run, CalledBack(nodes, w, p, posted)) && (nodes[w].ended ==> |run| == 1)
    ensures Within(s, run, p) <==> !nodes[w].ended && !posted && !nodes[p].cell.closed
  {
    var step, rest := Advance(0, true), [];
    NeverBlocked(s, nodes, CallbackCheck(w), true);
    if nodes[w].ended {
      Moves(s, step, nodes, Idle);
      LeadsNil(Apply(s, step), nodes);
    } else {
      Moves(s, step, nodes, CallbackPost(w));
      rest := CallbackPosts(Apply(s, step), nodes, w, p, posted);
    }
    LeadsCons(s, step, rest, CalledBack(nodes, w, p, posted));
    WithinCons(s, step, rest, p);
    run := [step] + rest;
  }

  /**
   A callback acknowledges exactly if the watch is not ended and the event is refused (`posted` is false): it
   reaches the native call if the context is open, and throws if not. It changes nothing else, and the callback
   of an ended watch returns at once.
   */
  lemma NotifyAlone(s: State, w: Id, p: Id, posted: bool) returns (run: seq<Step>)
    requires Alone(s, s.nodes, Idle) && WatchIn(s.nodes, w, p) && Callable(s.nodes[w])
    ensures run != [] && run[0] == Begin(0, Notify(w)) && Leads(s, run, CalledBack(s.nodes, w, p, posted))
    ensures Within(s, run, p) <==> !s.nodes[w].ended && !posted && !s.nodes[p].cell.closed
    ensures s.nodes[w].ended ==> |run| == 2
  {
    var step := Begin(0, Notify(w));
    Moves(s, step, s.nodes, CallbackCheck(w));
    var rest := CallbackChecks(Apply(s, step), s.nodes, w, p, posted);
    LeadsCons(s, step, rest, CalledBack(s.nodes, w, p, posted));
    WithinCons(s, step, rest, p);
    run := [step] + rest;
  }
}
