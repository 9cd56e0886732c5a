/** Who keeps a node in memory, and that memory can always be reclaimed once nobody outside does. */
module LifetimeReclaim {
  import opened Wrappers
  import opened Handles
  import opened Lifetime
  import opened LifetimeSteps
  import opened LifetimeTheorems
  import opened LifetimeProgress
  import opened LifetimeClosing

  // ---------------------------------------------------------------- wrappers

  /** How many wrappers of the handle `n` the step adds: by a connect, a successful open, or `NewInstance`. */
  function Granted(s: State, step: Step, n: Id): nat
    requires step.t < |s.threads|
  {
    match step
    case Begin(_, op) => if op == Share(n) || (op.Connect? && n == |s.nodes|) then 1 else 0
    case Advance(t, _) =>
      match s.threads[t]
      case OpenAdd(p, c) => (if p == n then 1 else 0) + (if c == n then 1 else 0)
      case _ => 0
  }

  function Dropped(step: Step, n: Id): nat { if step.Begin? && step.op == Drop(n) then 1 else 0 }

  function RefsOf(s: State, n: Id): nat { if n < |s.nodes| then s.nodes[n].refs else 0 }

  /** The step touches no handle's wrappers. */
  predicate RefsKept(nodes: seq<Node>, d: Delta)
  {
    && (d.first.Write? && d.first.n < |nodes| && IsHandle(nodes[d.first.n].kind) ==>
          d.first.node.refs == nodes[d.first.n].refs)
    && (d.second.Write? && d.second.n < |nodes| && IsHandle(nodes[d.second.n].kind) ==>
          d.second.node.refs == nodes[d.second.n].refs)
    && (d.added.Some? && IsHandle(d.added.value.kind) ==> d.added.value.refs == 0)
  }

  lemma OpenRefs(nodes: seq<Node>, t: Tid, pc: Pc, ok: bool)
    requires Fits(nodes, pc) && (Opens(pc) || Creates(pc)) && !pc.OpenAdd?
    ensures Opens(pc) ==> RefsKept(nodes, OpenAdvance(nodes, t, pc, ok))
    ensures Creates(pc) ==> RefsKept(nodes, CreateAdvance(nodes, t, pc, ok))
  {
  }

  lemma CloseRefs(nodes: seq<Node>, t: Tid, pc: Pc, ok: bool)
    requires Fits(nodes, pc) && (Closes(pc) || Ends(pc))
    ensures Closes(pc) ==> RefsKept(nodes, CloseAdvance(nodes, t, pc, ok))
    ensures Ends(pc) ==> RefsKept(nodes, EndAdvance(nodes, t, pc, ok))
  {
    assert Closes(pc) ==> NodeTyped(nodes, pc.n);
  }

  lemma ReleaseRefs(nodes: seq<Node>, t: Tid, pc: Pc, ok: bool)
    requires Fits(nodes, pc) && (Releases(pc) || Acks(pc) || Notifies(pc))
    ensures Releases(pc) ==> RefsKept(nodes, ReleaseAdvance(nodes, t, pc, ok))
    ensures Acks(pc) ==> RefsKept(nodes, AckAdvance(nodes, t, pc, ok))
    ensures Notifies(pc) ==> RefsKept(nodes, NotifyAdvance(nodes, t, pc, ok))
  {
  }

  lemma OpenAddWrappers(s: State, t: Tid, ok: bool, n: Id)
    requires Inv(s) && Enabled(s, Advance(t, ok)) && s.threads[t].OpenAdd?
    ensures var step := Advance(t, ok); RefsOf(Apply(s, step), n) == RefsOf(s, n) + Granted(s, step, n)
  {
    AtFacts(s, t);
    MineFacts(s, t, s.threads[t].c);
    NodeFacts(s, s.threads[t].c);
  }

  lemma AdvanceWrappers(s: State, t: Tid, ok: bool, n: Id)
    requires Inv(s) && Enabled(s, Advance(t, ok)) && !s.threads[t].OpenAdd?
    requires n < |Apply(s, Advance(t, ok)).nodes| && IsHandle(Apply(s, Advance(t, ok)).nodes[n].kind)
    ensures RefsOf(Apply(s, Advance(t, ok)), n) == RefsOf(s, n)
  {
    var pc := s.threads[t];
    StepKeepsInv(s, Advance(t, ok));
    if Opens(pc) || Creates(pc) { OpenRefs(s.nodes, t, pc, ok); }
    else if Closes(pc) || Ends(pc) { CloseRefs(s.nodes, t, pc, ok); }
    else { ReleaseRefs(s.nodes, t, pc, ok); }
  }

  lemma BeginWrappers(s: State, t: Tid, op: Op, n: Id)
    requires Inv(s) && Enabled(s, Begin(t, op))
    requires n < |Apply(s, Begin(t, op)).nodes| && IsHandle(Apply(s, Begin(t, op)).nodes[n].kind)
    ensures var step := Begin(t, op);
            RefsOf(Apply(s, step), n) + Dropped(step, n) == RefsOf(s, n) + Granted(s, step, n)
  {
  }

  /** What is granted over the run, and what is dropped. */
  ghost function GrantedBy(s: State, run: seq<Step>, n: Id): nat
    requires Valid(s, run)
    decreases |run|
  {
    if run == [] then 0 else Granted(s, run[0], n) + GrantedBy(Apply(s, run[0]), run[1..], n)
  }

  function DroppedBy(run: seq<Step>, n: Id): nat
  {
    if run == [] then 0 else Dropped(run[0], n) + DroppedBy(run[1..], n)
  }

  lemma StepWrappers(s: State, step: Step, n: Id)
    requires Inv(s) && Enabled(s, step) && n < |Apply(s, step).nodes| && IsHandle(Apply(s, step).nodes[n].kind)
    ensures RefsOf(Apply(s, step), n) + Dropped(step, n) == RefsOf(s, n) + Granted(s, step, n)
  {
    match step
    case Begin(t, op) => BeginWrappers(s, t, op, n);
    case Advance(t, ok) =>
      if s.threads[t].OpenAdd? { OpenAddWrappers(s, t, ok, n); } else { AdvanceWrappers(s, t, ok, n); }
  }

  /** A node that is not there yet is not dropped. */
  lemma NothingBefore(s: State, step: Step, n: Id)
    requires Inv(s) && Enabled(s, step) && n >= |Apply(s, step).nodes|
    ensures Dropped(step, n) == 0 && Granted(s, step, n) == 0 && RefsOf(s, n) == RefsOf(Apply(s, step), n) == 0
  {
    if step.Advance? {
      AtFacts(s, step.t);
    }
  }

  /** Over every run, the wrappers of a handle are those granted less those dropped. */
  lemma {:induction false} WrappersBalance(s: State, run: seq<Step>, n: Id)
    requires Inv(s) && Valid(s, run) && (n < |s.nodes| ==> IsHandle(s.nodes[n].kind))
    requires n < |Exec(s, run).nodes| && IsHandle(Exec(s, run).nodes[n].kind)
    ensures RefsOf(Exec(s, run), n) + DroppedBy(run, n) == RefsOf(s, n) + GrantedBy(s, run, n)
    decreases |run|
  {
    if run != [] {
      var s1 := Apply(s, run[0]);
      StepKeepsInv(s, run[0]);
      RunKeepsInv(s1, run[1..]);
      WrappersBalance(s1, run[1..], n);
      if n < |s1.nodes| { StepWrappers(s, run[0], n); } else { NothingBefore(s, run[0], n); }
    }
  }

  /** So the destructor of a handle runs only once all its owners, its children's wrappers included, are dropped. */
  lemma DestroyedWhenDropped(s0: State, run: seq<Step>, t: Tid, n: Id)
    requires Init(s0) && Valid(s0, run) && Enabled(Exec(s0, run), Begin(t, Destroy(n)))
    requires IsHandle(Exec(s0, run).nodes[n].kind)
    ensures DroppedBy(run, n) == GrantedBy(s0, run, n)
  {
    InitInv(s0);
    WrappersBalance(s0, run, n);
  }

  // ---------------------------------------------------------------- destructors

  /** Between `s0` and `s`, thread 0 alone has been running the destructor of `n`. */
  ghost predicate SoloDtor(s0: State, s: State, n: Id)
  {
    && Inv(s) && |s.nodes| == |s0.nodes| && |s.threads| > 0 && n < |s.nodes|
    && (forall t :: 0 < t < |s.threads| ==> s.threads[t].Idle?)
    && (if s.threads[0].Idle? then s.nodes[n].freed else Destroying(s.threads[0]) == Some(n))
    && (forall m :: 0 <= m < |s.nodes| ==>
          s.nodes[m].refs == s0.nodes[m].refs && (m != n ==> s.nodes[m].freed == s0.nodes[m].freed))
  }

  predicate DtorAside(nodes: seq<Node>, x: Write, n: Id)
  {
    x.Write? ==>
      x.n < |nodes| && x.node.refs == nodes[x.n].refs && (x.n != n ==> x.node.freed == nodes[x.n].freed)
  }

  /** The destructor's next step frees at most its own node, and frees it exactly when it ends. */
  ghost predicate DtorGoesOn(s: State, n: Id, d: Delta)
  {
    && d.added.None? && DtorAside(s.nodes, d.first, n) && DtorAside(s.nodes, d.second, n)
    && (if d.pc.Idle? then d.first.Write? && d.first.n == n && d.first.node.freed && d.second.Keep?
        else Destroying(d.pc) == Some(n))
  }

  lemma DtorClosesAside(s: State, n: Id)
    requires n < |s.nodes| && NodeTyped(s.nodes, n)
    ensures DtorGoesOn(s, n, CloseWaitDelta(s.nodes, 0, n, true))
    ensures DtorGoesOn(s, n, CloseBodyDelta(s.nodes, n, true))
  {
  }

  lemma DtorEndsAside(s: State, n: Id)
    requires n < |s.nodes| && NodeTyped(s.nodes, n)
    ensures DtorGoesOn(s, n, CloseRemoveDelta(s.nodes, n, true))
    ensures DtorGoesOn(s, n, CloseUnlockDelta(s.nodes, n, true))
  {
  }

  lemma DtorWritesAside(s: State, n: Id)
    requires Enabled(s, Advance(0, true)) && Destroying(s.threads[0]) == Some(n)
    ensures DtorGoesOn(s, n, AdvanceDelta(s.nodes, 0, s.threads[0], true))
  {
    assert PcTyped(s.nodes, s.threads[0]) && NodeTyped(s.nodes, n);
    DtorClosesAside(s, n);
    DtorEndsAside(s, n);
  }

  lemma DtorStep(s0: State, s: State, n: Id)
    requires SoloDtor(s0, s, n) && !s.threads[0].Idle?
    ensures Enabled(s, Advance(0, true)) && SoloDtor(s0, Apply(s, Advance(0, true)), n)
  {
    NoDeadlock(s, 0);
    assert Ready(s, 0);
    StepKeepsInv(s, Advance(0, true));
    DtorWritesAside(s, n);
  }

  lemma {:induction false} FinishDtor(s0: State, s: State, n: Id) returns (run: seq<Step>)
    requires SoloDtor(s0, s, n)
    ensures Valid(s, run) && SoloDtor(s0, Exec(s, run), n) && Exec(s, run).threads[0].Idle?
    decreases Rank(s.threads[0])
  {
    if s.threads[0].Idle? {
      run := [];
    } else {
      DtorStep(s0, s, n);
      RankDrops(s, 0, true);
      var rest := FinishDtor(s0, Apply(s, Advance(0, true)), n);
      run := [Advance(0, true)] + rest;
      assert run[1..] == rest;
    }
  }

  ghost function InMemory(s: State): set<Id>
  {
    set n | 0 <= n < |s.nodes| && !s.nodes[n].freed
  }

  ghost predicate AllDropped(s: State)
  {
    Quiescent(s) && forall n :: 0 <= n < |s.nodes| ==> s.nodes[n].refs == 0
  }

  /** With no outside owner left, ownership has no cycle: some node is unowned. */
  lemma UnownedExists(s: State) returns (n: Id)
    requires Inv(s) && AllDropped(s) && InMemory(s) != {}
    ensures Unowned(s, n)
  {
    n := Largest(InMemory(s));
    forall c | 0 <= c < |s.nodes| && s.nodes[c].up == Some(n)
      ensures s.nodes[c].freed
    {
      NodeFacts(s, c);
      assert c !in InMemory(s);
    }
  }

  lemma BeginDtor(s: State, n: Id)
    requires Inv(s) && AllDropped(s) && |s.threads| > 0 && Unowned(s, n)
    ensures Enabled(s, Begin(0, Destroy(n))) && SoloDtor(s, Apply(s, Begin(0, Destroy(n))), n)
  {
    StepKeepsInv(s, Begin(0, Destroy(n)));
  }

  lemma ReclaimOne(s: State, n: Id) returns (run: seq<Step>)
    requires Inv(s) && AllDropped(s) && |s.threads| > 0 && Unowned(s, n)
    ensures Valid(s, run)
    ensures var s' := Exec(s, run);
            Inv(s') && AllDropped(s') && |s'.threads| == |s.threads| && InMemory(s') == InMemory(s) - {n}
  {
    var step := Begin(0, Destroy(n));
    BeginDtor(s, n);
    var rest := FinishDtor(s, Apply(s, step), n);
    run := [step] + rest;
    assert run[1..] == rest;
    RunKeepsInv(s, run);
  }

  /** Once every wrapper is dropped and no operation runs, destructors alone reclaim everything, children first. */
  lemma {:induction false} Reclaimed(s: State) returns (run: seq<Step>)
    requires Inv(s) && AllDropped(s) && |s.threads| > 0
    ensures Valid(s, run) && InMemory(Exec(s, run)) == {}
    decreases |InMemory(s)|
  {
    if InMemory(s) == {} {
      run := [];
    } else {
      var n := UnownedExists(s);
      var first := ReclaimOne(s, n);
      var rest := Reclaimed(Exec(s, first));
      RunConcat(s, first, rest);
      run := first + rest;
    }
  }
}
