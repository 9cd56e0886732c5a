/** What holds in every state of every run of the lifetime protocol. */
module LifetimeTheorems {
  import opened Wrappers
  import opened Handles
  import opened Lifetime
  import opened LifetimeInvariant
  import opened LifetimeSafety
  import opened LifetimeSteps

  /** `s` is reached from an initial state by some run. */
  ghost predicate Reachable(s: State)
  {
    exists s0, run :: Init(s0) && Valid(s0, run) && Exec(s0, run) == s
  }

  /** A run is its first step and the rest. */
  lemma RunHead(s: State, run: seq<Step>)
    requires run != []
    ensures Valid(s, run) <==> Enabled(s, run[0]) && Valid(Apply(s, run[0]), run[1..])
    ensures Valid(s, run) ==> Exec(s, run) == Exec(Apply(s, run[0]), run[1..])
  {
  }

  lemma RunCons(s: State, step: Step, rest: seq<Step>)
    requires Enabled(s, step) && Valid(Apply(s, step), rest)
    ensures Valid(s, [step] + rest) && Exec(s, [step] + rest) == Exec(Apply(s, step), rest)
  {
    assert ([step] + rest)[1..] == rest;
    RunHead(s, [step] + rest);
  }

  /** A run may be taken in two parts. */
  lemma {:induction false} RunJoin(s: State, run: seq<Step>, k: nat)
    requires k <= |run| && Valid(s, run[..k]) && Valid(Exec(s, run[..k]), run[k..])
    ensures Valid(s, run) && Exec(s, run) == Exec(Exec(s, run[..k]), run[k..])
    decreases k
  {
    var front, back := run[..k], run[k..];
    if k == 0 {
      assert back == run;
    } else {
      var tail := run[1..];
      assert front[0] == run[0] && front[1..] == tail[..k - 1] && back == tail[k - 1..];
      RunHead(s, front);
      RunJoin(Apply(s, run[0]), tail, k - 1);
      RunHead(s, run);
    }
  }

  lemma RunConcat(s: State, a: seq<Step>, b: seq<Step>)
    requires Valid(s, a) && Valid(Exec(s, a), b)
    ensures Valid(s, a + b) && Exec(s, a + b) == Exec(Exec(s, a), b)
  {
    var run := a + b;
    assert run[..|a|] == a && run[|a|..] == b;
    RunJoin(s, run, |a|);
  }

  lemma InitInv(s: State)
    requires Init(s)
    ensures Inv(s)
  {
  }

  lemma {:induction false} RunKeepsInv(s: State, run: seq<Step>)
    requires Inv(s) && Valid(s, run)
    ensures Inv(Exec(s, run)) && SameShape(s.nodes, Exec(s, run).nodes)
    ensures |Exec(s, run).threads| == |s.threads|
    decreases |run|
  {
    if run != [] {
      StepKeepsInv(s, run[0]);
      RunKeepsInv(Apply(s, run[0]), run[1..]);
    }
  }

  lemma ReachableInv(s: State)
    requires Reachable(s)
    ensures Inv(s)
  {
    var s0, run :| Init(s0) && Valid(s0, run) && Exec(s0, run) == s;
    InitInv(s0);
    RunKeepsInv(s0, run);
  }

  // ---------------------------------------------------------------- tree safety

  lemma ExposedByStep(s: State, step: Step, p: Id)
    requires Enabled(s, step) && p in Apply(s, step).exposed && p !in s.exposed
    ensures ExposedNow(Apply(s, step), p)
  {
    assert ExposedNow(Patch(s, step.t, StepDelta(s, step)), p);
  }

  /** Some state of the run exposes `p`. */
  ghost predicate ExposedAlong(s: State, run: seq<Step>, p: Id)
    requires Valid(s, run)
  {
    exists k :: 0 <= k <= |run| && Valid(s, run[..k]) && ExposedNow(Exec(s, run[..k]), p)
  }

  /** What is exposed after the first step, or along the rest, is exposed along the run. */
  lemma ExposedLater(s: State, run: seq<Step>, p: Id, k: nat)
    requires Valid(s, run) && run != [] && k < |run|
    requires Valid(Apply(s, run[0]), run[1..][..k]) && ExposedNow(Exec(Apply(s, run[0]), run[1..][..k]), p)
    ensures ExposedAlong(s, run, p)
  {
    var front := run[..k + 1];
    assert front[0] == run[0] && front[1..] == run[1..][..k];
    RunHead(s, front);
    assert ExposedNow(Exec(s, front), p);
  }

  /** The history is exact: a handle is exposed only if some earlier state of the run exposed it. */
  lemma {:induction false} ExposedByRun(s: State, run: seq<Step>, p: Id)
    requires Valid(s, run) && p in Exec(s, run).exposed && p !in s.exposed
    ensures ExposedAlong(s, run, p)
    decreases |run|
  {
    var s1, tail := Apply(s, run[0]), run[1..];
    if p in s1.exposed {
      ExposedByStep(s, run[0], p);
      assert tail[..0] == [];
      ExposedLater(s, run, p, 0);
    } else {
      ExposedByRun(s1, tail, p);
      var k :| 0 <= k <= |tail| && Valid(s1, tail[..k]) && ExposedNow(Exec(s1, tail[..k]), p);
      ExposedLater(s, run, p, k);
    }
  }

  /**
   Tree safety: as long as a context, image, watch or log exists natively, every ancestor handle is
   open, in every interleaving, unless a registration under one of those ancestors has overlapped
   its window from the busy check to the close, or its 32-bit counter has wrapped.
   */
  lemma TreeSafety(s: State, n: Id)
    requires Reachable(s) && n < |s.nodes| && s.nodes[n].native
    ensures Inv(s)
    ensures AllOpen(s.nodes, n) || AnyExposed(s.nodes, s.exposed, n)
  {
    ReachableInv(s);
    AttachedUnderOpen(s, n);
  }

  ghost predicate Descends(nodes: seq<Node>, n: Id, p: Id)
    requires forall m :: 0 <= m < |nodes| ==> NodeTyped(nodes, m)
    requires n < |nodes|
  {
    assert NodeTyped(nodes, n);
    nodes[n].up.Some? && (nodes[n].up.value == p || Descends(nodes, nodes[n].up.value, p))
  }

  lemma {:induction false} ExposedAncestor(nodes: seq<Node>, exposed: set<Id>, n: Id) returns (p: Id)
    requires forall m :: 0 <= m < |nodes| ==> NodeTyped(nodes, m)
    requires n < |nodes| && AnyExposed(nodes, exposed, n)
    ensures Descends(nodes, n, p) && p in exposed
  {
    assert NodeTyped(nodes, n);
    p := nodes[n].up.value;
    if p !in exposed {
      p := ExposedAncestor(nodes, exposed, p);
    }
  }

  /** `s` is reached by a run that exposes no ancestor of `n`, whatever it does elsewhere. */
  ghost predicate ReachedUnexposed(s: State, n: Id)
    requires Typed(s) && n < |s.nodes|
  {
    exists s0, run ::
      && Init(s0) && Valid(s0, run) && Exec(s0, run) == s
      && forall p :: Descends(s.nodes, n, p) ==> !ExposedAlong(s0, run, p)
  }

  /** At the end of such a run, tree safety holds outright for `n`, also while it is a watch still to be flushed. */
  lemma TreeSafetyWithoutOverlap(s: State, n: Id)
    requires Typed(s) && n < |s.nodes| && ReachedUnexposed(s, n) && Attached(s.nodes[n])
    ensures AllOpen(s.nodes, n)
  {
    var s0, run :|
      && Init(s0) && Valid(s0, run) && Exec(s0, run) == s
      && forall p :: Descends(s.nodes, n, p) ==> !ExposedAlong(s0, run, p);
    InitInv(s0);
    RunKeepsInv(s0, run);
    AttachedUnderOpen(s, n);
    if AnyExposed(s.nodes, s.exposed, n) {
      var p := ExposedAncestor(s.nodes, s.exposed, n);
      ExposedByRun(s0, run, p);
    }
  }

  /** Below a closed handle nothing becomes attached any more: an overlap on a closed handle is harmless. */
  lemma NothingAttachesBelowClosed(s: State, step: Step, p: Id, c: Id)
    requires Inv(s) && Enabled(s, step) && p < |s.nodes| && s.nodes[p].cell.closed
    requires c < |Apply(s, step).nodes| && Apply(s, step).nodes[c].up == Some(p) && Attached(Apply(s, step).nodes[c])
    ensures c < |s.nodes| && Attached(s.nodes[c])
  {
    var t, d := step.t, StepDelta(s, step);
    StepDeltaOk(s, step);
    assert SafeDelta(s, t, d);
    if c < |s.nodes| && d.Writes(c) {
      assert WriteSafe(s, t, d, if d.second.Write? && d.second.n == c then d.second else d.first);
    }
  }

  /** `q` is `p` or below it, and `n` is below `q`. */
  ghost predicate Between(nodes: seq<Node>, n: Id, q: Id, p: Id)
    requires forall m :: 0 <= m < |nodes| ==> NodeTyped(nodes, m)
    requires n < |nodes|
  {
    q < |nodes| && Descends(nodes, n, q) && (q == p || Descends(nodes, q, p))
  }

  /**
   A node that exists natively below a closed handle has an exposed handle above it, no higher than the closed one.
   */
  lemma {:induction false} ClosedMeansSubtreeGone(s: State, p: Id, n: Id) returns (q: Id)
    requires Inv(s) && p < |s.nodes| && s.nodes[p].cell.closed
    requires n < |s.nodes| && Descends(s.nodes, n, p) && s.nodes[n].native
    ensures Between(s.nodes, n, q, p) && q in s.exposed && s.nodes[q].cell.closed
    decreases n
  {
    NodeFacts(s, n);
    q := s.nodes[n].up.value;
    if !s.nodes[q].cell.closed {
      NodeFacts(s, q);
      var below := ClosedMeansSubtreeGone(s, p, q);
      q := below;
    }
  }

  // ---------------------------------------------------------------- the lock and the single close

  /** No `use` body runs while the handle is being closed, or afterwards. */
  lemma UseExcludesClose(s: State, t: Tid, n: Id)
    requires Reachable(s) && t < |s.threads| && HeldShared(s.threads[t]) == Some(n)
    ensures n < |s.nodes| && !s.nodes[n].cell.closed && s.nodes[n].native
    ensures forall u :: 0 <= u < |s.threads| ==> HeldExclusive(s.threads[u]) != Some(n)
  {
    ReachableInv(s);
    AtFacts(s, t);
    NodeFacts(s, n);
    forall u | 0 <= u < |s.threads|
      ensures HeldExclusive(s.threads[u]) != Some(n)
    {
      AtFacts(s, u);
    }
  }

  /** One exclusive holder at a time, and the close closure gets the original handle. */
  lemma CloseIsExclusive(s: State, t: Tid, n: Id, u: Tid)
    requires Reachable(s) && t < |s.threads| && HeldExclusive(s.threads[t]) == Some(n)
    requires u < |s.threads| && HeldExclusive(s.threads[u]) == Some(n)
    ensures t == u && n < |s.nodes| && s.nodes[n].cell.closed && s.nodes[n].cell.handle.None?
    ensures s.threads[t].CloseBody? ==> s.threads[t].h == n && s.nodes[n].closes == 0
  {
    ReachableInv(s);
    AtFacts(s, t);
    AtFacts(s, u);
    NodeFacts(s, n);
  }

  /** The native close runs at most once, and exactly once by the time no thread is closing the handle. */
  lemma ClosedOnce(s: State, n: Id)
    requires Reachable(s) && n < |s.nodes| && IsHandle(s.nodes[n].kind)
    ensures s.nodes[n].closes <= 1
    ensures !s.nodes[n].cell.closed ==> s.nodes[n].closes == 0
    ensures s.nodes[n].cell.closed && s.nodes[n].driver.None? ==> s.nodes[n].closes == 1
  {
    ReachableInv(s);
    NodeFacts(s, n);
  }

  /** A closed handle stays closed. */
  lemma {:induction false} ClosedForever(s: State, run: seq<Step>, n: Id)
    requires Inv(s) && Valid(s, run) && n < |s.nodes| && s.nodes[n].cell.closed
    ensures n < |Exec(s, run).nodes| && Exec(s, run).nodes[n].cell.closed
    decreases |run|
  {
    if run != [] {
      var d := StepDelta(s, run[0]);
      StepDeltaOk(s, run[0]);
      StepKeepsInv(s, run[0]);
      assert WriteSafe(s, run[0].t, d, d.first) && WriteSafe(s, run[0].t, d, d.second);
      ClosedForever(Apply(s, run[0]), run[1..], n);
    }
  }

  /** When the native close of a handle runs, no child of it exists natively: children close first. */
  lemma ChildrenCloseFirst(s: State, t: Tid, c: Id)
    requires Reachable(s) && t < |s.threads| && s.threads[t].CloseBody?
    requires c < |s.nodes| && s.nodes[c].up == Some(s.threads[t].n)
    ensures !s.nodes[c].native || s.threads[t].n in s.exposed
  {
    ReachableInv(s);
    AtFacts(s, t);
    NodeFacts(s, s.threads[t].n);
    NodeFacts(s, c);
  }

  /**
   On the destructor path children close first without exception: when a destructor is about to close
   a handle, every child is out of memory and does not exist natively, although nobody looked at the
   counter.
   */
  lemma DestructorClosesLast(s: State, t: Tid, n: Id, c: Id)
    requires Reachable(s) && t < |s.threads| && s.threads[t] == CloseWait(n, true)
    requires n < |s.nodes| && !s.nodes[n].cell.closed && c < |s.nodes| && s.nodes[c].up == Some(n)
    ensures s.nodes[c].freed && !s.nodes[c].native
  {
    ReachableInv(s);
    AtFacts(s, t);
    NodeFacts(s, c);
  }

  /**
   While a watch is still to be unregistered and flushed, nobody holds or waits for its context's
   exclusive lock, so a callback that must acknowledge always gets the shared lock.
   */
  lemma NoWriterAboveWatch(s: State, w: Id, p: Id, t: Tid)
    requires Reachable(s) && w < |s.nodes| && Attached(s.nodes[w]) && s.nodes[w].up == Some(p)
    requires p < |s.nodes| && p !in s.exposed && t < |s.threads|
    ensures HeldExclusive(s.threads[t]) != Some(p) && !(s.threads[t].CloseWait? && s.threads[t].n == p)
  {
    ReachableInv(s);
    NodeFacts(s, w);
    AtFacts(s, t);
    NodeFacts(s, p);
    if s.threads[t].CloseWait? && s.threads[t].n == p {
      AcquiredWhenAllowed(s, t, p);
    }
  }

  // ---------------------------------------------------------------- child counters

  /** The counter is exact modulo 2^32, and exact outright while the handle has not been exposed. */
  lemma CounterExact(s: State, p: Id)
    requires Reachable(s) && p < |s.nodes| && IsHandle(s.nodes[p].kind)
    ensures s.nodes[p].cell.children == |Kids(s.nodes, p)| % COUNTER_LIMIT
    ensures p !in s.exposed ==> s.nodes[p].cell.children == |Kids(s.nodes, p)|
  {
    ReachableInv(s);
    assert CountOk(s.nodes, p);
    assert p !in s.exposed ==> !ExposedNow(s, p);
  }

  /** The step registers no child. */
  predicate NoneCounted(nodes: seq<Node>, d: Delta)
  {
    && d.added.None?
    && (d.first.Write? ==> d.first.n < |nodes| && (d.first.node.counted ==> nodes[d.first.n].counted))
    && (d.second.Write? ==> d.second.n < |nodes| && (d.second.node.counted ==> nodes[d.second.n].counted))
  }

  lemma FewerKids(nodes: seq<Node>, nodes': seq<Node>, p: Id)
    requires |nodes'| == |nodes|
    requires forall c :: 0 <= c < |nodes| ==> nodes'[c].up == nodes[c].up && (nodes'[c].counted ==> nodes[c].counted)
    ensures |Kids(nodes', p)| <= |Kids(nodes, p)|
  {
    var extra := Kids(nodes, p) - Kids(nodes', p);
    assert Kids(nodes, p) == Kids(nodes', p) + extra;
  }

  lemma SomeKid(kids: nat, children: nat)
    requires kids > 0 && children == kids % COUNTER_LIMIT
    ensures kids < COUNTER_LIMIT ==> children == kids > 0
  {
  }

  /** A `remove_child` always has a child to remove: it finds zero only where the counter has wrapped onto it. */
  lemma NoUnderflow(s: State, t: Tid, p: Id)
    requires Reachable(s) && t < |s.threads| && p < |s.nodes| && Removes(s, t, p)
    ensures Kids(s.nodes, p) != {}
    ensures s.nodes[p].cell.children == 0 <==> |Kids(s.nodes, p)| % COUNTER_LIMIT == 0
    ensures |Kids(s.nodes, p)| < COUNTER_LIMIT ==> s.nodes[p].cell.children == |Kids(s.nodes, p)| > 0
  {
    ReachableInv(s);
    RemovedKid(s, t, p);
    assert CountOk(s.nodes, p);
    SomeKid(|Kids(s.nodes, p)|, s.nodes[p].cell.children);
  }

  /** The thread's next action is a `remove_child` on `p`. */
  predicate Removes(s: State, t: Tid, p: Id)
    requires t < |s.threads|
  {
    || ((s.threads[t].EndRemove? || s.threads[t].SubFailRemove?) && s.threads[t].p == p)
    || (s.threads[t].CloseRemove? && s.threads[t].n < |s.nodes| && s.nodes[s.threads[t].n].up == Some(p))
  }

  lemma RemovedKid(s: State, t: Tid, p: Id)
    requires Inv(s) && t < |s.threads| && Removes(s, t, p)
    ensures p < |s.nodes| && IsHandle(s.nodes[p].kind) && Kids(s.nodes, p) != {}
  {
    var c := Driven(s.threads[t]).value;
    AtFacts(s, t);
    MineFacts(s, t, c);
    NodeFacts(s, c);
    assert c in Kids(s.nodes, p);
  }

  /**
   What an open handle's counter includes: children that exist natively, children some thread is
   creating or tearing down right now, and, only under an exposed ancestor, a watch whose teardown
   threw. The increments that are never taken back are under closed handles.
   */
  lemma KidsOfOpenHandle(s: State, p: Id, c: Id)
    requires Reachable(s) && p < |s.nodes| && !s.nodes[p].cell.closed && c in Kids(s.nodes, p)
    ensures Inv(s)
    ensures s.nodes[c].native || s.nodes[c].driver.Some? || AnyExposed(s.nodes, s.exposed, c)
  {
    ReachableInv(s);
    NodeFacts(s, c);
    assert ThrowOk(s, c);
  }

  // ---------------------------------------------------------------- subscriptions

  /** No action twice, and none before its predecessor. */
  predicate InOrder(node: Node)
  {
    var a := node.tally;
    && a.unregistered <= 1 && a.flushed <= 1 && a.released <= 1 && a.removed <= a.released
    && (if node.entered then a.released <= a.unregistered else a.unregistered == 0)
    && (if node.entered && node.kind.Watch? then a.released <= a.flushed <= a.unregistered else a.flushed == 0)
    && (node.counted <==> a.removed == 0)
  }

  /** Each teardown action once; without a registration only the release and the removal. */
  function Finished(node: Node): Tally
  {
    if node.entered then Tally(1, Flushes(node.kind), 1, 1) else Tally(0, 0, 1, 1)
  }

  lemma DrivenInOrder(pc: Pc, node: Node)
    requires StageOk(pc, node) && !IsHandle(node.kind) && !pc.CloseBody? && !pc.CloseRemove? && !pc.OpenAdd?
    ensures InOrder(node)
  {
  }

  lemma RestInOrder(node: Node)
    requires RestOk(node) && !IsHandle(node.kind)
    ensures InOrder(node)
    ensures node.ended && !node.threw ==>
              node.tally == Finished(node)
  {
  }

  /**
   For any number of concurrent closers and a destructor: each teardown action runs at most once and
   in order, a finished teardown has run each exactly once, and a refused registration none but the
   release and the removal.
   */
  lemma TeardownOnce(s: State, w: Id)
    requires Reachable(s) && w < |s.nodes| && !IsHandle(s.nodes[w].kind)
    ensures InOrder(s.nodes[w])
    ensures s.nodes[w].ended && s.nodes[w].driver.None? && !s.nodes[w].threw ==>
              s.nodes[w].tally == Finished(s.nodes[w])
  {
    ReachableInv(s);
    TeardownInOrder(s, w);
  }

  lemma TeardownInOrder(s: State, w: Id)
    requires Inv(s) && w < |s.nodes| && !IsHandle(s.nodes[w].kind)
    ensures InOrder(s.nodes[w])
    ensures s.nodes[w].driver.None? ==> RestOk(s.nodes[w])
    ensures s.nodes[w].ended && s.nodes[w].driver.None? && !s.nodes[w].threw ==>
              s.nodes[w].tally == Finished(s.nodes[w])
  {
    NodeFacts(s, w);
    if s.nodes[w].driver.Some? {
      var t := s.nodes[w].driver.value;
      assert PcTyped(s.nodes, s.threads[t]);
      DrivenInOrder(s.threads[t], s.nodes[w]);
    } else {
      RestInOrder(s.nodes[w]);
    }
  }

  lemma RestsOn(s: State, step: Step, n: Id)
    requires Inv(s) && Enabled(s, step) && n < |s.nodes| && s.nodes[n].driver.None? && !InUse(s.nodes[n])
    ensures var node := StepDelta(s, step).After(n, s.nodes[n]);
            node.driver.None? && PhaseOf(node) == PhaseOf(s.nodes[n]) && !InUse(node)
  {
    var d := StepDelta(s, step);
    StepDeltaOk(s, step);
    assert WriteStage(s, step.t, d.pc, if d.second.Write? && d.second.n == n then d.second else d.first);
  }

  /** What has ended, and what was never begun in earnest, stays as it is: no step resumes it. */
  lemma {:induction false} RestsForever(s: State, run: seq<Step>, n: Id)
    requires Inv(s) && Valid(s, run) && n < |s.nodes| && s.nodes[n].driver.None? && !InUse(s.nodes[n])
    ensures n < |Exec(s, run).nodes| && Exec(s, run).nodes[n].driver.None?
    ensures PhaseOf(Exec(s, run).nodes[n]) == PhaseOf(s.nodes[n])
    decreases |run|
  {
    if run != [] {
      RestsOn(s, run[0], n);
      StepKeepsInv(s, run[0]);
      RestsForever(Apply(s, run[0]), run[1..], n);
    }
  }

  /**
   A `use` that throws in `Create` or in `Data::close` costs more than the count: neither the callback
   is ever released nor the child removed, in any continuation.
   */
  lemma ThrowLosesRelease(s: State, run: seq<Step>, w: Id)
    requires Inv(s) && Valid(s, run) && w < |s.nodes| && !IsHandle(s.nodes[w].kind)
    requires s.nodes[w].threw || Orphaned(s.nodes[w])
    ensures w < |Exec(s, run).nodes|
    ensures Exec(s, run).nodes[w].tally.released == 0 && Exec(s, run).nodes[w].tally.removed == 0
    ensures Exec(s, run).nodes[w].counted
  {
    ThrownAtRest(s, w);
    RestsForever(s, run, w);
  }

  lemma ThrownAtRest(s: State, w: Id)
    requires Inv(s) && w < |s.nodes| && !IsHandle(s.nodes[w].kind) && (s.nodes[w].threw || Orphaned(s.nodes[w]))
    ensures s.nodes[w].driver.None? && !InUse(s.nodes[w])
    ensures s.nodes[w].tally.released == 0 && s.nodes[w].tally.removed == 0 && s.nodes[w].counted
  {
    NodeFacts(s, w);
    DriverNeverThrew(s, w);
  }

  /** While some thread creates or tears a node down, no `use` of it has thrown. */
  lemma DriverNeverThrew(s: State, w: Id)
    requires Inv(s) && w < |s.nodes|
    ensures s.nodes[w].driver.Some? ==> !s.nodes[w].threw
  {
    NodeFacts(s, w);
  }

  /** The `use` calls of a teardown and of an overflow acknowledgement throw only below an exposed handle. */
  lemma TeardownNeverThrows(s: State, w: Id)
    requires Reachable(s) && w < |s.nodes| && (s.nodes[w].threw || s.nodes[w].ackThrew)
    ensures Inv(s)
    ensures AnyExposed(s.nodes, s.exposed, w)
  {
    ReachableInv(s);
    assert ThrowOk(s, w);
  }

  /** A callback whose `Data` is no longer in memory. */
  predicate Dangling(s: State, w: Id)
  {
    w < |s.nodes| && s.nodes[w].freed && exists t :: 0 <= t < |s.threads| && InCallback(s.threads[t]) == Some(w)
  }

  /** Only a teardown that has thrown lets a callback lose its `Data`. */
  lemma DanglingThrew(s: State, w: Id)
    requires Inv(s) && Dangling(s, w)
    ensures s.nodes[w].threw && s.nodes[w].kind.Watch?
  {
    var t :| 0 <= t < |s.threads| && InCallback(s.threads[t]) == Some(w);
    AtFacts(s, t);
    NodeFacts(s, w);
    CallableAttached(s, w);
  }

  /** A running callback's `Data` is in memory, unless the watch's teardown has thrown, below an exposed handle. */
  lemma CallbackKeepsData(s: State, t: Tid, w: Id)
    requires Reachable(s) && t < |s.threads| && InCallback(s.threads[t]) == Some(w)
    ensures Inv(s) && w < |s.nodes|
    ensures !s.nodes[w].freed || (s.nodes[w].threw && AnyExposed(s.nodes, s.exposed, w))
  {
    ReachableInv(s);
    AtFacts(s, t);
    if s.nodes[w].freed {
      assert Dangling(s, w);
      DanglingThrew(s, w);
      assert ThrowOk(s, w);
    }
  }

  // ---------------------------------------------------------------- memory

  /** What is freed is owned by nobody, and a handle among it has had its one native close. */
  lemma FreedAlone(s: State, p: Id)
    requires Inv(s) && p < |s.nodes| && s.nodes[p].freed
    ensures s.nodes[p].refs == 0 && s.nodes[p].driver.None?
    ensures IsHandle(s.nodes[p].kind) ==> s.nodes[p].closes == 1 && !s.nodes[p].native
    ensures forall t :: 0 <= t < |s.threads| ==> !Owns(s.threads[t], p)
  {
    NodeFacts(s, p);
    forall t | 0 <= t < |s.threads|
      ensures !Owns(s.threads[t], p)
    {
      AtFacts(s, t);
    }
  }

  lemma {:induction false} FreedBelow(s: State, n: Id, p: Id)
    requires Inv(s) && n < |s.nodes| && Descends(s.nodes, n, p) && p < |s.nodes| && s.nodes[p].freed
    ensures s.nodes[n].freed
    decreases n
  {
    NodeFacts(s, n);
    var up := s.nodes[n].up.value;
    if up != p {
      FreedBelow(s, up, p);
    }
  }

  /** Memory goes children first, a handle's only after its native close, and never while anybody owns it. */
  lemma FreedOrder(s: State, p: Id)
    requires Reachable(s) && p < |s.nodes| && s.nodes[p].freed
    ensures Inv(s) && s.nodes[p].refs == 0
    ensures IsHandle(s.nodes[p].kind) ==> s.nodes[p].closes == 1 && !s.nodes[p].native
    ensures forall t :: 0 <= t < |s.threads| ==> !Owns(s.threads[t], p)
    ensures forall n :: 0 <= n < |s.nodes| && Descends(s.nodes, n, p) ==> s.nodes[n].freed
  {
    ReachableInv(s);
    FreedAlone(s, p);
    forall n | 0 <= n < |s.nodes| && Descends(s.nodes, n, p)
      ensures s.nodes[n].freed
    {
      FreedBelow(s, n, p);
    }
  }
}
