/**
 When a callback can lose its `Data`. librados holds a raw pointer to it, from the registration until the
 flush; a teardown whose `use` throws never gets to the flush, and the wrapper's destructor then frees it.
 */
module LifetimeDangling {
  import opened Wrappers
  import opened Handles
  import opened Lifetime
  import opened LifetimeInvariant
  import opened LifetimeSafety
  import opened LifetimeSteps
  import opened LifetimeTheorems
  import opened LifetimeProgress
  import opened LifetimeOverlap
  import opened LifetimeClosing

  ghost predicate CanThrow(s: State, w: Id)
  {
    exists run :: Valid(s, run) && w < |Exec(s, run).nodes| && Threw(Exec(s, run).nodes[w])
  }

  ghost predicate CanDangle(s: State, w: Id)
  {
    exists run :: Valid(s, run) && Dangling(Exec(s, run), w)
  }

  /** A watch whose teardown has thrown. */
  predicate Threw(node: Node) { node.kind.Watch? && node.threw }

  // ---------------------------------------------------------------- what follows a throw

  /** Only `w` has changed, and not what it is, where it hangs or how it counts. */
  ghost predicate OnlyAt(s: State, s': State, w: Id)
  {
    && |s'.nodes| == |s.nodes| && |s'.threads| == |s.threads| && w < |s.nodes|
    && (forall m :: 0 <= m < |s.nodes| && m != w ==> s'.nodes[m] == s.nodes[m])
    && s'.nodes[w].kind == s.nodes[w].kind && s'.nodes[w].up == s.nodes[w].up
    && s'.nodes[w].counted == s.nodes[w].counted && s'.nodes[w].threw == s.nodes[w].threw
  }

  /** A run that changes only `w`, and in which no counter wraps. */
  ghost predicate Local(s: State, run: seq<Step>, w: Id)
  {
    && Valid(s, run) && Inv(Exec(s, run)) && OnlyAt(s, Exec(s, run), w)
    && forall q :: |Kids(s.nodes, q)| < COUNTER_LIMIT ==> Unwrapped(s, run, q)
  }

  lemma LocalNil(s: State, w: Id)
    requires Inv(s) && w < |s.nodes|
    ensures Local(s, [], w)
  {
  }

  lemma LocalCons(s: State, step: Step, rest: seq<Step>, w: Id)
    requires Enabled(s, step) && OnlyAt(s, Apply(s, step), w) && Local(Apply(s, step), rest, w)
    ensures Local(s, [step] + rest, w) && Exec(s, [step] + rest) == Exec(Apply(s, step), rest)
  {
    RunCons(s, step, rest);
    forall q | |Kids(s.nodes, q)| < COUNTER_LIMIT
      ensures Unwrapped(s, [step] + rest, q)
    {
      SameKids(s.nodes, Apply(s, step).nodes, q);
      UnwrappedCons(s, step, rest, q);
    }
  }

  /** A watch whose teardown has thrown has been ended, and may still be called back. */
  lemma ThrownFacts(s: State, w: Id)
    requires Inv(s) && w < |s.nodes| && Threw(s.nodes[w])
    ensures Callable(s.nodes[w]) && s.nodes[w].ended && s.nodes[w].driver.None? && !InUse(s.nodes[w])
    ensures HasSub(s.nodes, w) && !LiveSub(s.nodes[w])
  {
    NodeFacts(s, w);
    DriverNeverThrew(s, w);
  }

  lemma CallFreed(s: State, w: Id) returns (run: seq<Step>)
    requires Inv(s) && Quiescent(s) && |s.threads| > 0 && w < |s.nodes| && Threw(s.nodes[w]) && s.nodes[w].freed
    ensures Local(s, run, w) && Dangling(Exec(s, run), w)
  {
    var step := Begin(0, Notify(w));
    ThrownFacts(s, w);
    StepKeepsInv(s, step);
    assert InCallback(Apply(s, step).threads[0]) == Some(w);
    LocalNil(Apply(s, step), w);
    LocalCons(s, step, [], w);
    run := [step] + [];
  }

  /** The dropped `Data` is freed. */
  lemma FreeThrown(s: State, w: Id) returns (run: seq<Step>)
    requires Inv(s) && Quiescent(s) && |s.threads| > 0 && w < |s.nodes| && Threw(s.nodes[w])
    requires s.nodes[w].refs == 0 && !s.nodes[w].freed
    ensures Local(s, run, w) && Dangling(Exec(s, run), w)
  {
    var step := Begin(0, Destroy(w));
    ThrownFacts(s, w);
    forall c | 0 <= c < |s.nodes|
      ensures s.nodes[c].up != Some(w)
    {
      assert NodeTyped(s.nodes, c);
    }
    StepKeepsInv(s, step);
    var rest := CallFreed(Apply(s, step), w);
    LocalCons(s, step, rest, w);
    run := [step] + rest;
  }

  /** The destructor finds the flag set, and leaves the registration as it is. */
  lemma DropReturns(s: State, w: Id) returns (run: seq<Step>)
    requires Inv(s) && |s.threads| > 0 && w < |s.nodes| && Threw(s.nodes[w]) && s.threads[0] == DropCheck(w)
    requires s.nodes[w].refs == 0 && !s.nodes[w].freed && forall t :: 0 < t < |s.threads| ==> s.threads[t].Idle?
    ensures Local(s, run, w) && Dangling(Exec(s, run), w)
  {
    var step := Advance(0, true);
    ThrownFacts(s, w);
    assert Enabled(s, step) && StepDelta(s, step) == Quiet(Idle);
    StepKeepsInv(s, step);
    var rest := FreeThrown(Apply(s, step), w);
    LocalCons(s, step, rest, w);
    run := [step] + rest;
  }

  lemma DropThrown(s: State, w: Id) returns (run: seq<Step>)
    requires Inv(s) && Quiescent(s) && |s.threads| > 0 && w < |s.nodes| && Threw(s.nodes[w]) && s.nodes[w].refs > 0
    ensures Local(s, run, w) && Dangling(Exec(s, run), w)
  {
    var step := Begin(0, DropWatch(w));
    NodeFacts(s, w);
    ThrownFacts(s, w);
    StepKeepsInv(s, step);
    var rest := DropReturns(Apply(s, step), w);
    LocalCons(s, step, rest, w);
    run := [step] + rest;
  }

  /** At rest, every throw can be followed by a callback without its `Data`. */
  lemma ThrownDangles(s: State, w: Id) returns (run: seq<Step>)
    requires Inv(s) && Quiescent(s) && |s.threads| > 0 && w < |s.nodes| && Threw(s.nodes[w])
    ensures Local(s, run, w) && Dangling(Exec(s, run), w)
  {
    if s.nodes[w].freed { run := CallFreed(s, w); }
    else if s.nodes[w].refs == 0 { run := FreeThrown(s, w); }
    else { run := DropThrown(s, w); }
  }

  /** Wherever a run goes from a throw, it can go on to a callback without its `Data`. */
  lemma ThrowGoesOn(s: State, w: Id) returns (run: seq<Step>)
    requires Inv(s) && |s.threads| > 0 && w < |s.nodes| && Threw(s.nodes[w])
    ensures Valid(s, run) && Dangling(Exec(s, run), w)
  {
    var drain := Drains(s);
    ThrownFacts(s, w);
    RunKeepsInv(s, drain);
    RestsForever(s, drain, w);
    var rest := ThrownDangles(Exec(s, drain), w);
    RunConcat(s, drain, rest);
    run := drain + rest;
  }

  /** Exactly when a watch's callback can lose its `Data`: when a teardown of the watch can throw. */
  lemma DanglesIffThrows(s: State, w: Id)
    requires Inv(s) && |s.threads| > 0
    ensures CanDangle(s, w) <==> CanThrow(s, w)
  {
    if CanDangle(s, w) {
      var run :| Valid(s, run) && Dangling(Exec(s, run), w);
      RunKeepsInv(s, run);
      DanglingThrew(Exec(s, run), w);
    }
    if CanThrow(s, w) {
      var run :| Valid(s, run) && w < |Exec(s, run).nodes| && Threw(Exec(s, run).nodes[w]);
      RunKeepsInv(s, run);
      var rest := ThrowGoesOn(Exec(s, run), w);
      RunConcat(s, run, rest);
      assert Dangling(Exec(s, run + rest), w);
    }
  }

  // ---------------------------------------------------------------- at rest: the teardown of a watch

  /** Between `s0` and `s`, thread 0 alone has been tearing down `w`, hindered or not. */
  ghost predicate Tearing(s0: State, s: State, w: Id)
  {
    && Inv(s) && |s.nodes| == |s0.nodes| && |s.threads| == |s0.threads| > 0 && HasSub(s.nodes, w)
    && (forall t :: 0 < t < |s.threads| ==> s.threads[t].Idle?)
    && (s.threads[0].Idle? || Target(s.threads[0]) == Some(w))
    && (s.nodes[w].ended || s.threads[0].EndExchange?)
    && (forall m :: 0 <= m < |s.nodes| ==> Aside(s0.nodes[m], s.nodes[m], m == w))
  }

  lemma TearEnds(s: State, w: Id)
    requires HasSub(s.nodes, w) && Enabled(s, Advance(0, true)) && Target(s.threads[0]) == Some(w)
    requires s.nodes[w].ended || s.threads[0].EndExchange?
    ensures StepDelta(s, Advance(0, true)).After(w, s.nodes[w]).ended
  {
    StepLate(s, Advance(0, true));
  }

  lemma TearStep(s0: State, s: State, w: Id)
    requires Tearing(s0, s, w) && !s.threads[0].Idle?
    ensures Enabled(s, Advance(0, true)) && Tearing(s0, Apply(s, Advance(0, true)), w)
  {
    var step := Advance(0, true);
    NoDeadlock(s, 0);
    assert Ready(s, 0);
    StepKeepsInv(s, step);
    AdvanceAside(s, true, w);
    PatchAside(s0, s, w, StepDelta(s, step));
    TearEnds(s, w);
  }

  lemma TearCounts(s0: State, s: State, w: Id, q: Id)
    requires Tearing(s0, s, w) && !s.threads[0].Idle? && Enabled(s, Advance(0, true))
    ensures |Kids(Apply(s, Advance(0, true)).nodes, q)| <= |Kids(s.nodes, q)|
  {
    var s' := Apply(s, Advance(0, true));
    CloseStepCountsNone(s, Advance(0, true));
    StepKeepsInv(s, Advance(0, true));
    FewerKids(s.nodes, s'.nodes, q);
  }

  lemma {:induction false} FinishTear(s0: State, s: State, w: Id) returns (run: seq<Step>)
    requires Tearing(s0, s, w)
    ensures Valid(s, run) && Tearing(s0, Exec(s, run), w) && Exec(s, run).threads[0].Idle?
    ensures forall q :: |Kids(s.nodes, q)| < COUNTER_LIMIT ==> Unwrapped(s, run, q)
    decreases Rank(s.threads[0])
  {
    if s.threads[0].Idle? {
      run := [];
    } else {
      var step := Advance(0, true);
      TearStep(s0, s, w);
      RankDrops(s, 0, true);
      var rest := FinishTear(s0, Apply(s, step), w);
      RunCons(s, step, rest);
      run := [step] + rest;
      forall q | |Kids(s.nodes, q)| < COUNTER_LIMIT
        ensures Unwrapped(s, run, q)
      {
        TearCounts(s0, s, w, q);
        UnwrappedCons(s, step, rest, q);
      }
    }
  }

  /** One `close` of the watch by thread 0, undisturbed. */
  lemma TearDown(s: State, w: Id) returns (run: seq<Step>)
    requires Inv(s) && Quiescent(s) && |s.threads| > 0 && HasSub(s.nodes, w) && s.nodes[w].refs > 0
    ensures Valid(s, run) && Tearing(s, Exec(s, run), w) && Quiescent(Exec(s, run))
    ensures forall q :: |Kids(s.nodes, q)| < COUNTER_LIMIT ==> Unwrapped(s, run, q)
  {
    var step := Begin(0, End(w));
    var s1 := Apply(s, step);
    StepKeepsInv(s, step);
    assert Patch(s, 0, StepDelta(s, step)).nodes == s.nodes;
    var rest := FinishTear(s, s1, w);
    RunCons(s, step, rest);
    run := [step] + rest;
    forall q | |Kids(s.nodes, q)| < COUNTER_LIMIT
      ensures Unwrapped(s, run, q)
    {
      UnwrappedCons(s, step, rest, q);
    }
  }

  /** At rest, a registered watch that has been ended and never flushed has thrown. */
  lemma EndedUnflushedThrew(s: State, w: Id)
    requires Inv(s) && Quiescent(s) && w < |s.nodes| && s.nodes[w].kind.Watch? && s.nodes[w].ended
    requires s.nodes[w].native || (s.nodes[w].entered && s.nodes[w].tally.flushed == 0)
    ensures s.nodes[w].threw
  {
    NodeFacts(s, w);
  }

  /** A live watch at rest has its wrapper. */
  lemma LiveHasWrapper(s: State, w: Id)
    requires Inv(s) && Quiescent(s) && w < |s.nodes| && Callable(s.nodes[w]) && !IsHandle(s.nodes[w].kind)
    ensures s.nodes[w].threw || (s.nodes[w].native && s.nodes[w].refs > 0)
  {
    NodeFacts(s, w);
  }

  /** A teardown below a closed handle throws. */
  lemma TearDownThrows(s: State, w: Id) returns (run: seq<Step>)
    requires Inv(s) && Quiescent(s) && |s.threads| > 0 && HasSub(s.nodes, w) && Callable(s.nodes[w])
    requires !s.nodes[w].threw && !Closable(s, w)
    ensures Valid(s, run) && Tearing(s, Exec(s, run), w) && Quiescent(Exec(s, run)) && Threw(Exec(s, run).nodes[w])
    ensures forall q :: |Kids(s.nodes, q)| < COUNTER_LIMIT ==> Unwrapped(s, run, q)
  {
    LiveHasWrapper(s, w);
    run := TearDown(s, w);
    var s' := Exec(s, run);
    assert Aside(s.nodes[w], s'.nodes[w], true);
    if ParentClosed(s.nodes, w) {
      NativeForever(s, run, w);
    } else {
      UnflushableForever(s, run, w);
    }
    EndedUnflushedThrew(s', w);
  }

  // ---------------------------------------------------------------- at rest: what open handles shelter

  /** An open handle that no thread is about to close. */
  ghost predicate Untouched(s: State, p: Id)
  {
    && p < |s.nodes| && IsHandle(s.nodes[p].kind) && s.nodes[p].published && !s.nodes[p].cell.closed
    && forall t :: 0 <= t < |s.threads| ==> !(s.threads[t].CloseWait? && s.threads[t].n == p)
  }

  /** `w` has been flushed, or nobody is closing its context or its cluster. */
  ghost predicate Sheltered(s: State, w: Id, p: Id, k: Id)
  {
    && Inv(s) && WatchUnder(s.nodes, w, k) && s.nodes[w].up == Some(p) && s.nodes[w].entered
    && (s.nodes[w].tally.flushed > 0 || (Untouched(s, p) && Untouched(s, k)))
  }

  /** The busy check does not pass while the counter includes a child. */
  lemma NobodyPasses(s: State, step: Step, p: Id, c: Id)
    requires Inv(s) && Enabled(s, step) && p < |s.nodes| && c in Kids(s.nodes, p)
    requires |Kids(s.nodes, p)| < COUNTER_LIMIT
    ensures Window(StepDelta(s, step).pc) != Some(p)
  {
    StepDeltaOk(s, step);
    assert SafeDelta(s, step.t, StepDelta(s, step));
    assert CountOk(s.nodes, p);
  }

  /** No destructor of a handle begins while a child of it is in memory. */
  lemma NobodyDestroys(s: State, step: Step, p: Id, c: Id)
    requires Inv(s) && Enabled(s, step) && p < |s.nodes| && c < |s.nodes| && s.nodes[c].up == Some(p)
    requires !s.nodes[c].freed
    ensures Destroying(StepDelta(s, step).pc) != Some(p)
  {
    AtFacts(s, step.t);
    assert Destroying(s.threads[step.t]) != Some(p);
    StepDeltaOk(s, step);
    assert MemDelta(s, step.t, StepDelta(s, step));
  }

  /** What is open and published stays so, unless its close takes the lock now. */
  lemma OpenStays(s: State, step: Step, p: Id)
    requires Inv(s) && Enabled(s, step) && Untouched(s, p)
    ensures var node := StepDelta(s, step).After(p, s.nodes[p]);
            IsHandle(node.kind) && node.published && !node.cell.closed
  {
    var t, d := step.t, StepDelta(s, step);
    StepDeltaOk(s, step);
    var x := if d.second.Write? && d.second.n == p then d.second else d.first;
    assert WriteSafe(s, t, d, x) && WriteStage(s, t, d.pc, x) && WriteTyped(s.nodes, x);
  }

  lemma UntouchedStays(s: State, step: Step, p: Id, c: Id)
    requires Inv(s) && Enabled(s, step) && Untouched(s, p) && |Kids(s.nodes, p)| < COUNTER_LIMIT
    requires c in Kids(s.nodes, p) && !s.nodes[c].freed
    ensures Untouched(Apply(s, step), p)
  {
    OpenStays(s, step, p);
    NobodyPasses(s, step, p, c);
    NobodyDestroys(s, step, p, c);
  }

  /** Below open handles, a watch still to be flushed is counted and in memory, and so is its context. */
  lemma ShelteredKids(s: State, w: Id, p: Id, k: Id)
    requires Sheltered(s, w, p, k) && s.nodes[w].tally.flushed == 0
    ensures w in Kids(s.nodes, p) && !s.nodes[w].freed && p in Kids(s.nodes, k) && !s.nodes[p].freed
    ensures !s.nodes[w].threw
  {
    NodeFacts(s, w);
    DriverFacts(s, w);
    OpenAtRest(s, p);
  }

  lemma ShelteredStays(s: State, step: Step, w: Id, p: Id, k: Id)
    requires Sheltered(s, w, p, k) && Enabled(s, step)
    requires |Kids(s.nodes, p)| < COUNTER_LIMIT && |Kids(s.nodes, k)| < COUNTER_LIMIT
    ensures Sheltered(Apply(s, step), w, p, k)
  {
    StepKeepsInv(s, step);
    StepLate(s, step);
    if s.nodes[w].tally.flushed == 0 {
      ShelteredKids(s, w, p, k);
      UntouchedStays(s, step, p, w);
      UntouchedStays(s, step, k, p);
    }
  }

  lemma {:induction false} ShelteredForever(s: State, run: seq<Step>, w: Id, p: Id, k: Id)
    requires Sheltered(s, w, p, k) && Valid(s, run) && Unwrapped(s, run, p) && Unwrapped(s, run, k)
    ensures Sheltered(Exec(s, run), w, p, k)
    decreases |run|
  {
    if run != [] {
      ShelteredStays(s, run[0], w, p, k);
      ShelteredForever(Apply(s, run[0]), run[1..], w, p, k);
    }
  }

  lemma ShelteredNeverThrew(s: State, w: Id, p: Id, k: Id)
    requires Sheltered(s, w, p, k)
    ensures !s.nodes[w].threw && !Dangling(s, w)
  {
    if s.nodes[w].tally.flushed == 0 {
      ShelteredKids(s, w, p, k);
    } else {
      NodeFacts(s, w);
      DriverNeverThrew(s, w);
    }
    if Dangling(s, w) {
      DanglingThrew(s, w);
    }
  }

  // ---------------------------------------------------------------- at rest: exactly when

  /** A watch `w` of context `p` and cluster `k`, at rest and still called back; no counter above it has wrapped. */
  ghost predicate WatchAtRest(s: State, w: Id, p: Id, k: Id)
  {
    && Inv(s) && Quiescent(s) && |s.threads| > 0
    && WatchUnder(s.nodes, w, k) && s.nodes[w].up == Some(p) && Callable(s.nodes[w])
    && |Kids(s.nodes, p)| < COUNTER_LIMIT && |Kids(s.nodes, k)| < COUNTER_LIMIT
  }

  /** A run in which neither counter wraps. */
  ghost predicate Counts(s: State, run: seq<Step>, p: Id, k: Id)
  {
    Valid(s, run) && Unwrapped(s, run, p) && Unwrapped(s, run, k)
  }

  lemma ClosableSheltered(s: State, w: Id, p: Id, k: Id)
    requires WatchAtRest(s, w, p, k) && Closable(s, w)
    ensures Sheltered(s, w, p, k)
  {
    NodeFacts(s, w);
    NodeFacts(s, p);
    NodeFacts(s, k);
  }

  lemma ClosableNeverThrows(s: State, run: seq<Step>, w: Id, p: Id, k: Id)
    requires WatchAtRest(s, w, p, k) && Closable(s, w) && Counts(s, run, p, k)
    ensures w < |Exec(s, run).nodes| && !Exec(s, run).nodes[w].threw && !Dangling(Exec(s, run), w)
  {
    ClosableSheltered(s, w, p, k);
    ShelteredForever(s, run, w, p, k);
    ShelteredNeverThrew(Exec(s, run), w, p, k);
  }

  /** A watch at rest below a closed handle: one `close` of it throws. */
  lemma UnclosableThrows(s: State, w: Id, p: Id, k: Id) returns (run: seq<Step>)
    requires WatchAtRest(s, w, p, k) && !Closable(s, w)
    ensures Counts(s, run, p, k) && Inv(Exec(s, run)) && Quiescent(Exec(s, run)) && |Exec(s, run).threads| > 0
    ensures var s' := Exec(s, run);
            && |s'.nodes| == |s.nodes| && Threw(s'.nodes[w])
            && s'.nodes[k].native == s.nodes[k].native
            && |Kids(s'.nodes, p)| < COUNTER_LIMIT && |Kids(s'.nodes, k)| < COUNTER_LIMIT
  {
    if s.nodes[w].threw {
      run := [];
    } else {
      run := TearDownThrows(s, w);
      assert Aside(s.nodes[k], Exec(s, run).nodes[k], k == w);
    }
    UnwrappedEnd(s, run, p);
    UnwrappedEnd(s, run, k);
  }

  lemma UnclosableDangles(s: State, w: Id, p: Id, k: Id) returns (run: seq<Step>)
    requires WatchAtRest(s, w, p, k) && !Closable(s, w)
    ensures Counts(s, run, p, k) && Dangling(Exec(s, run), w)
    ensures |Exec(s, run).nodes| == |s.nodes| && Exec(s, run).nodes[k].native == s.nodes[k].native
  {
    var first := UnclosableThrows(s, w, p, k);
    var rest := ThrownDangles(Exec(s, first), w);
    RunConcat(s, first, rest);
    UnwrappedConcat(s, first, rest, p);
    UnwrappedConcat(s, first, rest, k);
    run := first + rest;
  }

  /**
   Exactly which watches at rest can throw, and can be called back without their `Data`: counter wraps
   aside, those whose context or cluster is closed, which is the test of the failing `use`.
   */
  lemma DanglesIff(s: State, w: Id, p: Id, k: Id)
    requires WatchAtRest(s, w, p, k)
    ensures (exists run :: Counts(s, run, p, k) && w < |Exec(s, run).nodes| && Exec(s, run).nodes[w].threw) <==>
            !Closable(s, w)
    ensures (exists run :: Counts(s, run, p, k) && Dangling(Exec(s, run), w)) <==> !Closable(s, w)
  {
    if Closable(s, w) {
      forall run | Counts(s, run, p, k)
        ensures w < |Exec(s, run).nodes| && !Exec(s, run).nodes[w].threw && !Dangling(Exec(s, run), w)
      {
        ClosableNeverThrows(s, run, w, p, k);
      }
    } else {
      var throwing := UnclosableThrows(s, w, p, k);
      var dangling := UnclosableDangles(s, w, p, k);
    }
  }

  /** A cluster closed at rest never exists natively again. */
  lemma ShutForever(s: State, run: seq<Step>, k: Id)
    requires Inv(s) && Quiescent(s) && Valid(s, run) && HasHandle(s.nodes, k) && s.nodes[k].cell.closed
    ensures k < |Exec(s, run).nodes| && !Exec(s, run).nodes[k].native
  {
    NodeFacts(s, k);
    RestsForever(s, run, k);
  }

  /** And exactly which of them without a callback after the cluster's shutdown: those in a closed context. */
  lemma DanglesBeforeShutdownIff(s: State, w: Id, p: Id, k: Id)
    requires WatchAtRest(s, w, p, k)
    ensures (exists run :: Counts(s, run, p, k) && Dangling(Exec(s, run), w)
                           && k < |Exec(s, run).nodes| && Exec(s, run).nodes[k].native) <==>
            s.nodes[p].cell.closed && !s.nodes[k].cell.closed
  {
    NodeFacts(s, k);
    if s.nodes[k].cell.closed {
      forall run | Counts(s, run, p, k)
        ensures k < |Exec(s, run).nodes| && !Exec(s, run).nodes[k].native
      {
        ShutForever(s, run, k);
      }
    } else if s.nodes[p].cell.closed {
      var run := UnclosableDangles(s, w, p, k);
    } else {
      DanglesIff(s, w, p, k);
    }
  }
}
