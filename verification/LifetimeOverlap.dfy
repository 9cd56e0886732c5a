/**
 The one exception in tree safety, exactly: from every state of the invariant, a registration that
 overlaps a check-to-close window of an open handle can go on to leave a live child under a closed
 handle, and, counter wraps aside, nothing else can.
 */
module LifetimeOverlap {
  import opened Wrappers
  import opened Handles
  import opened Lifetime
  import opened LifetimeSafety
  import opened LifetimeSteps
  import opened LifetimeTheorems
  import opened LifetimeProgress

  /** Tree safety fails at `p`: it is closed over a child that exists natively. */
  ghost predicate Broken(s: State, p: Id)
  {
    && p < |s.nodes| && s.nodes[p].cell.closed
    && exists c :: 0 <= c < |s.nodes| && s.nodes[c].up == Some(p) && s.nodes[c].native
  }

  /** `p`'s counter does not wrap anywhere in the run. */
  ghost predicate Unwrapped(s: State, run: seq<Step>, p: Id)
    requires Valid(s, run)
    decreases |run|
  {
    |Kids(s.nodes, p)| < COUNTER_LIMIT && (run == [] || Unwrapped(Apply(s, run[0]), run[1..], p))
  }

  lemma UnwrappedCons(s: State, step: Step, rest: seq<Step>, p: Id)
    requires Enabled(s, step) && Valid(Apply(s, step), rest)
    requires |Kids(s.nodes, p)| < COUNTER_LIMIT && Unwrapped(Apply(s, step), rest, p)
    ensures Valid(s, [step] + rest) && Unwrapped(s, [step] + rest, p)
    ensures Exec(s, [step] + rest) == Exec(Apply(s, step), rest)
    ensures step.Advance? && OnlyAdvances(rest) ==> OnlyAdvances([step] + rest)
  {
    assert ([step] + rest)[1..] == rest;
  }

  lemma UnwrappedHead(s: State, run: seq<Step>, q: Id)
    requires run != [] && Valid(s, run) && Unwrapped(s, run, q)
    ensures |Kids(s.nodes, q)| < COUNTER_LIMIT && Unwrapped(Apply(s, run[0]), run[1..], q)
  {
  }

  lemma ConcatHead(a: seq<Step>, b: seq<Step>)
    requires a != []
    ensures a + b == [a[0]] + (a[1..] + b)
  {
  }

  lemma {:induction false} UnwrappedConcat(s: State, a: seq<Step>, b: seq<Step>, q: Id)
    requires Valid(s, a) && Valid(Exec(s, a), b) && Unwrapped(s, a, q) && Unwrapped(Exec(s, a), b, q)
    ensures Valid(s, a + b) && Unwrapped(s, a + b, q)
    decreases |a|
  {
    if a == [] {
      assert a + b == b;
    } else {
      RunHead(s, a);
      UnwrappedHead(s, a, q);
      UnwrappedConcat(Apply(s, a[0]), a[1..], b, q);
      UnwrappedCons(s, a[0], a[1..] + b, q);
      ConcatHead(a, b);
    }
  }

  lemma {:induction false} UnwrappedEnd(s: State, run: seq<Step>, q: Id)
    requires Valid(s, run) && Unwrapped(s, run, q)
    ensures |Kids(Exec(s, run).nodes, q)| < COUNTER_LIMIT
    decreases |run|
  {
    if run != [] {
      UnwrappedEnd(Apply(s, run[0]), run[1..], q);
    }
  }

  // ---------------------------------------------------------------- the readers leave

  /** Thread `t` registers under the open handle `p`; thread `u` has passed `p`'s busy check. */
  ghost predicate Poised(s: State, t: Tid, u: Tid, p: Id)
  {
    && Inv(s) && t < |s.threads| && u < |s.threads| && p < |s.nodes| && !s.nodes[p].cell.closed
    && Registering(s.threads[t]) == Some(p) && s.threads[u] == CloseWait(p, false)
    && |Kids(s.nodes, p)| < COUNTER_LIMIT
  }

  /** Holding a lock, or in a callback. */
  predicate Helps(pc: Pc) { HeldShared(pc).Some? || HeldExclusive(pc).Some? || InCallback(pc).Some? }

  /** While someone but `t` reads `p`, a thread other than `t` and `u` can step towards letting go of it. */
  lemma SomeoneHelps(s: State, t: Tid, u: Tid, p: Id, v: Tid) returns (x: Tid)
    requires Poised(s, t, u, p) && v in s.nodes[p].cell.readers && v != t
    ensures x < |s.threads| && x != t && x != u && Helps(s.threads[x]) && Enabled(s, Advance(x, false))
  {
    NodeFacts(s, p);
    AtFacts(s, v);
    x := v;
    if s.threads[v].EndFlushBody? {
      if y :| 0 <= y < |s.threads| && InCallback(s.threads[y]).Some? {
        x := CallbackHelps(s, t, u, p, y);
      }
    }
  }

  /** A callback can step, or the closer that keeps it from acknowledging can. */
  lemma CallbackHelps(s: State, t: Tid, u: Tid, p: Id, y: Tid) returns (x: Tid)
    requires Poised(s, t, u, p) && y < |s.threads| && InCallback(s.threads[y]).Some?
    ensures x < |s.threads| && x != t && x != u && Helps(s.threads[x]) && Enabled(s, Advance(x, false))
  {
    AtFacts(s, y);
    x := y;
    if s.threads[y].CallbackAckWait? {
      var q := s.threads[y].p;
      NodeFacts(s, q);
      if s.nodes[q].cell.writer.Some? {
        x := s.nodes[q].cell.writer.value;
      }
    }
  }

  lemma ReaderCountsNone(s: State, x: Tid)
    requires Enabled(s, Advance(x, false)) && HeldShared(s.threads[x]).Some?
    ensures NoneCounted(s.nodes, AdvanceDelta(s.nodes, x, s.threads[x], false))
  {
    assert PcTyped(s.nodes, s.threads[x]);
  }

  lemma WriterCountsNone(s: State, x: Tid)
    requires Enabled(s, Advance(x, false)) && HeldExclusive(s.threads[x]).Some?
    ensures NoneCounted(s.nodes, AdvanceDelta(s.nodes, x, s.threads[x], false))
  {
    assert PcTyped(s.nodes, s.threads[x]) && NodeTyped(s.nodes, s.threads[x].n);
  }

  lemma CallbackCountsNone(s: State, x: Tid)
    requires Enabled(s, Advance(x, false)) && InCallback(s.threads[x]).Some?
    ensures NoneCounted(s.nodes, AdvanceDelta(s.nodes, x, s.threads[x], false))
  {
    assert PcTyped(s.nodes, s.threads[x]);
  }

  /** Only a thread at the door of `close_now` closes. */
  lemma StaysOpen(s: State, step: Step, p: Id)
    requires Inv(s) && Enabled(s, step) && p < |s.nodes| && !s.nodes[p].cell.closed && !s.threads[step.t].CloseWait?
    ensures p < |Apply(s, step).nodes| && !Apply(s, step).nodes[p].cell.closed
  {
    var d := StepDelta(s, step);
    StepDeltaOk(s, step);
    assert WriteSafe(s, step.t, d, d.first) && WriteSafe(s, step.t, d, d.second);
  }

  lemma HelpStep(s: State, t: Tid, u: Tid, p: Id, x: Tid)
    requires Poised(s, t, u, p) && x < |s.threads| && x != t && x != u
    requires Helps(s.threads[x]) && Enabled(s, Advance(x, false))
    ensures Poised(Apply(s, Advance(x, false)), t, u, p)
  {
    var step := Advance(x, false);
    StepKeepsInv(s, step);
    StaysOpen(s, step, p);
    if HeldShared(s.threads[x]).Some? { ReaderCountsNone(s, x); }
    else if HeldExclusive(s.threads[x]).Some? { WriterCountsNone(s, x); }
    else { CallbackCountsNone(s, x); }
    FewerKids(s.nodes, Apply(s, step).nodes, p);
  }

  // ---------------------------------------------------------------- the registration completes

  /** The handle can be closed over a child that exists. */
  ghost predicate Ripe(s: State, u: Tid, p: Id, c: Id)
  {
    && Inv(s) && u < |s.threads| && p < |s.nodes| && !s.nodes[p].cell.closed && |Kids(s.nodes, p)| < COUNTER_LIMIT
    && s.threads[u] == CloseWait(p, false) && s.nodes[p].cell.readers == {}
    && c < |s.nodes| && s.nodes[c].up == Some(p) && s.nodes[c].native
  }

  /** `t` is between the native call and the end of its registration. */
  ghost predicate Registered(s: State, t: Tid, u: Tid, p: Id)
  {
    Poised(s, t, u, p) && (s.threads[t].OpenAdd? || s.threads[t].SubLeave?)
  }

  lemma OpenAddRipe(s: State, t: Tid, u: Tid, p: Id)
    requires Registered(s, t, u, p) && s.threads[t].OpenAdd? && s.nodes[p].cell.readers <= {t}
    ensures Ripe(s, u, p, s.threads[t].c)
  {
    AtFacts(s, t);
    NodeFacts(s, p);
    MineFacts(s, t, s.threads[t].c);
  }

  lemma SubLeaveEnabled(s: State, t: Tid, u: Tid, p: Id)
    requires Registered(s, t, u, p) && s.threads[t].SubLeave?
    ensures Enabled(s, Advance(t, true)) && s.threads[t].p == p && p < s.threads[t].w < |s.nodes|
    ensures s.nodes[s.threads[t].w].native && s.nodes[s.threads[t].w].up == Some(p)
  {
    var w := s.threads[t].w;
    AtFacts(s, t);
    MineFacts(s, t, w);
    NodeFacts(s, w);
  }

  lemma SubLeaveRipe(s: State, t: Tid, u: Tid, p: Id)
    requires Registered(s, t, u, p) && s.threads[t].SubLeave? && s.nodes[p].cell.readers <= {t}
    ensures Enabled(s, Advance(t, true)) && Ripe(Apply(s, Advance(t, true)), u, p, s.threads[t].w)
  {
    var step := Advance(t, true);
    SubLeaveEnabled(s, t, u, p);
    assert StepDelta(s, step) == SubLeaveDelta(s.nodes, t, p, s.threads[t].w);
    StepKeepsInv(s, step);
    StaysOpen(s, step, p);
    ReaderCounts(s, t, p);
  }

  predicate SameMember(nodes: seq<Node>, x: Write)
  {
    x.Write? ==> x.n < |nodes| && x.node.up == nodes[x.n].up && x.node.counted == nodes[x.n].counted
  }

  /** The step writes no node's membership, and adds no counted node. */
  predicate SameCounted(nodes: seq<Node>, d: Delta)
  {
    && (d.added.Some? ==> !d.added.value.counted)
    && SameMember(nodes, d.first) && SameMember(nodes, d.second)
  }

  lemma SameKids(nodes: seq<Node>, nodes': seq<Node>, p: Id)
    requires |nodes| <= |nodes'| && forall n :: |nodes| <= n < |nodes'| ==> !nodes'[n].counted
    requires forall n :: 0 <= n < |nodes| ==> nodes'[n].up == nodes[n].up && nodes'[n].counted == nodes[n].counted
    ensures Kids(nodes', p) == Kids(nodes, p)
  {
  }

  lemma OpenSameCounted(nodes: seq<Node>, t: Tid, p: Id)
    requires PcTyped(nodes, OpenBody(p))
    ensures SameCounted(nodes, OpenAdvance(nodes, t, OpenBody(p), true))
  {
  }

  lemma SubSameCounted(nodes: seq<Node>, t: Tid, pc: Pc)
    requires PcTyped(nodes, pc) && (pc.SubWait? || pc.SubBody? || pc.SubLeave?)
    ensures SameCounted(nodes, CreateAdvance(nodes, t, pc, true))
  {
  }

  /** `t`'s own step leaves the counted children as they are. */
  lemma ReaderCounts(s: State, t: Tid, p: Id)
    requires t < |s.threads| && Enabled(s, Advance(t, true))
    requires s.threads[t].OpenBody? || s.threads[t].SubWait? || s.threads[t].SubBody? || s.threads[t].SubLeave?
    ensures Kids(Apply(s, Advance(t, true)).nodes, p) == Kids(s.nodes, p)
  {
    var pc := s.threads[t];
    assert PcTyped(s.nodes, pc);
    if pc.OpenBody? { OpenSameCounted(s.nodes, t, pc.p); } else { SubSameCounted(s.nodes, t, pc); }
    SameKids(s.nodes, Apply(s, Advance(t, true)).nodes, p);
  }

  lemma RegisteringReady(s: State, t: Tid, u: Tid, p: Id)
    requires Poised(s, t, u, p) && (s.threads[t].OpenBody? || s.threads[t].SubWait? || s.threads[t].SubBody?)
    ensures Enabled(s, Advance(t, true)) && s.nodes[p].cell.Usable()
    ensures s.threads[t] == OpenBody(p) || ((s.threads[t].SubWait? || s.threads[t].SubBody?) && s.threads[t].p == p)
  {
    AtFacts(s, t);
    NodeFacts(s, p);
  }

  lemma NextRegistering(s: State, t: Tid, p: Id)
    requires Enabled(s, Advance(t, true)) && p < |s.nodes| && s.nodes[p].cell.Usable() && s.nodes[p].cell.readers <= {t}
    requires s.threads[t] == OpenBody(p) || ((s.threads[t].SubWait? || s.threads[t].SubBody?) && s.threads[t].p == p)
    ensures var d := AdvanceDelta(s.nodes, t, s.threads[t], true);
            Registering(d.pc) == Some(p) && d.After(p, s.nodes[p]).cell.readers <= {t}
  {
    assert PcTyped(s.nodes, s.threads[t]);
  }

  /** Before the native call, `t`'s next step brings it closer, and lets nobody else in. */
  lemma RegisteringStep(s: State, t: Tid, u: Tid, p: Id)
    requires Poised(s, t, u, p) && s.nodes[p].cell.readers <= {t}
    requires s.threads[t].OpenBody? || s.threads[t].SubWait? || s.threads[t].SubBody?
    ensures Enabled(s, Advance(t, true))
    ensures var s' := Apply(s, Advance(t, true));
            Poised(s', t, u, p) && s'.nodes[p].cell.readers <= {t}
  {
    var step := Advance(t, true);
    RegisteringReady(s, t, u, p);
    NextRegistering(s, t, p);
    StepKeepsInv(s, step);
    StaysOpen(s, step, p);
    ReaderCounts(s, t, p);
  }

  lemma RipeReady(s: State, u: Tid, p: Id, c: Id)
    requires Ripe(s, u, p, c)
    ensures Enabled(s, Advance(u, true)) && p < c
  {
    NodeFacts(s, p);
    NodeFacts(s, c);
  }

  lemma ClosesOver(s: State, u: Tid, p: Id, c: Id)
    requires Ripe(s, u, p, c)
    ensures Enabled(s, Advance(u, true))
    ensures Broken(Apply(s, Advance(u, true)), p) && |Kids(Apply(s, Advance(u, true)).nodes, p)| < COUNTER_LIMIT
  {
    RipeReady(s, u, p, c);
    var s' := Apply(s, Advance(u, true));
    assert StepDelta(s, Advance(u, true)) == CloseWaitDelta(s.nodes, u, p, false);
    SameKids(s.nodes, s'.nodes, p);
    assert s'.nodes[c] == s.nodes[c];
  }

  lemma CloseBreaks(s: State, u: Tid, p: Id, c: Id) returns (run: seq<Step>)
    requires Ripe(s, u, p, c)
    ensures Valid(s, run) && OnlyAdvances(run) && Unwrapped(s, run, p) && Broken(Exec(s, run), p)
  {
    var step := Advance(u, true);
    ClosesOver(s, u, p, c);
    UnwrappedCons(s, step, [], p);
    run := [step] + [];
  }

  /** With no other reader left, the registration completes, and the close goes over it. */
  lemma {:induction false} RegistrationBreaks(s: State, t: Tid, u: Tid, p: Id) returns (run: seq<Step>)
    requires Poised(s, t, u, p) && s.nodes[p].cell.readers <= {t}
    ensures Valid(s, run) && OnlyAdvances(run) && Unwrapped(s, run, p) && Broken(Exec(s, run), p)
    decreases Rank(s.threads[t])
  {
    var step := Advance(t, true);
    if s.threads[t].OpenAdd? {
      OpenAddRipe(s, t, u, p);
      run := CloseBreaks(s, u, p, s.threads[t].c);
    } else if s.threads[t].SubLeave? {
      SubLeaveRipe(s, t, u, p);
      var rest := CloseBreaks(Apply(s, step), u, p, s.threads[t].w);
      UnwrappedCons(s, step, rest, p);
      run := [step] + rest;
    } else {
      RegisteringStep(s, t, u, p);
      RankDrops(s, t, true);
      var rest := RegistrationBreaks(Apply(s, step), t, u, p);
      UnwrappedCons(s, step, rest, p);
      run := [step] + rest;
    }
  }

  /** The step of a helper leaves less to do. */
  lemma HelpRank(s: State, x: Tid)
    requires Enabled(s, Advance(x, false))
    ensures LifetimeProgress.Work(Apply(s, Advance(x, false)).threads) < LifetimeProgress.Work(s.threads)
  {
    RankDrops(s, x, false);
    WorkUpdate(s.threads, x, AdvanceDelta(s.nodes, x, s.threads[x], false).pc);
  }

  /** First the other readers leave. */
  lemma {:induction false} PoisedBreaks(s: State, t: Tid, u: Tid, p: Id) returns (run: seq<Step>)
    requires Poised(s, t, u, p)
    ensures Valid(s, run) && OnlyAdvances(run) && Unwrapped(s, run, p) && Broken(Exec(s, run), p)
    decreases LifetimeProgress.Work(s.threads)
  {
    if v :| v in s.nodes[p].cell.readers && v != t {
      var x := SomeoneHelps(s, t, u, p, v);
      HelpStep(s, t, u, p, x);
      HelpRank(s, x);
      var rest := PoisedBreaks(Apply(s, Advance(x, false)), t, u, p);
      UnwrappedCons(s, Advance(x, false), rest, p);
      run := [Advance(x, false)] + rest;
    } else {
      run := RegistrationBreaks(s, t, u, p);
    }
  }

  /** Every overlap can go wrong, and needs no new operation for it. */
  lemma OverlapCanBreak(s: State, p: Id) returns (run: seq<Step>)
    requires Inv(s) && Overlap(s, p) && |Kids(s.nodes, p)| < COUNTER_LIMIT
    ensures Valid(s, run) && OnlyAdvances(run) && Unwrapped(s, run, p) && Broken(Exec(s, run), p)
  {
    var t, u :|
      && 0 <= t < |s.threads| && 0 <= u < |s.threads|
      && Registering(s.threads[t]) == Some(p) && Window(s.threads[u]) == Some(p);
    run := PoisedBreaks(s, t, u, p);
  }

  // ---------------------------------------------------------------- the exact condition

  ghost predicate CanOverlap(s: State, p: Id)
  {
    exists run :: Valid(s, run) && Unwrapped(s, run, p) && Overlap(Exec(s, run), p)
  }

  ghost predicate CanBreak(s: State, p: Id)
  {
    exists run :: Valid(s, run) && Unwrapped(s, run, p) && Broken(Exec(s, run), p)
  }

  lemma {:induction false} ExposureOverlaps(s: State, run: seq<Step>, p: Id)
    requires Valid(s, run) && Unwrapped(s, run, p) && p !in s.exposed && p in Exec(s, run).exposed
    ensures CanOverlap(s, p)
    decreases |run|
  {
    var s1 := Apply(s, run[0]);
    if p in s1.exposed {
      ExposedByStep(s, run[0], p);
      UnwrappedCons(s, run[0], [], p);
      assert Overlap(Exec(s, [run[0]] + []), p);
    } else {
      ExposureOverlaps(s1, run[1..], p);
      var rest :| Valid(s1, rest) && Unwrapped(s1, rest, p) && Overlap(Exec(s1, rest), p);
      UnwrappedCons(s, run[0], rest, p);
      assert Overlap(Exec(s, [run[0]] + rest), p);
    }
  }

  /**
   Exactly when tree safety can fail: as long as `p`'s counter does not wrap, some continuation leaves
   a live child under the closed `p` if and only if some continuation has a registration under the
   open `p` overlap a check-to-close window of `p`.
   */
  lemma BreaksIffOverlaps(s: State, p: Id)
    requires Inv(s) && p !in s.exposed
    ensures CanBreak(s, p) <==> CanOverlap(s, p)
  {
    if CanBreak(s, p) {
      var run :| Valid(s, run) && Unwrapped(s, run, p) && Broken(Exec(s, run), p);
      BrokenIsExposed(s, run, p);
      ExposureOverlaps(s, run, p);
    }
    if CanOverlap(s, p) {
      var run :| Valid(s, run) && Unwrapped(s, run, p) && Overlap(Exec(s, run), p);
      OverlapGoesOn(s, run, p);
    }
  }

  lemma BrokenIsExposed(s: State, run: seq<Step>, p: Id)
    requires Inv(s) && Valid(s, run) && Broken(Exec(s, run), p)
    ensures p in Exec(s, run).exposed
  {
    RunKeepsInv(s, run);
    var s' := Exec(s, run);
    var c :| 0 <= c < |s'.nodes| && s'.nodes[c].up == Some(p) && s'.nodes[c].native;
    NodeFacts(s', c);
  }

  lemma {:induction false} OverlapGoesOn(s: State, run: seq<Step>, p: Id)
    requires Inv(s) && Valid(s, run) && Unwrapped(s, run, p) && Overlap(Exec(s, run), p)
    ensures CanBreak(s, p)
    decreases |run|
  {
    if run == [] {
      var more := OverlapCanBreak(s, p);
    } else {
      var s1 := Apply(s, run[0]);
      StepKeepsInv(s, run[0]);
      OverlapGoesOn(s1, run[1..], p);
      var rest :| Valid(s1, rest) && Unwrapped(s1, rest, p) && Broken(Exec(s1, rest), p);
      UnwrappedCons(s, run[0], rest, p);
      assert Broken(Exec(s, [run[0]] + rest), p);
    }
  }
}
