/** What the lifetime protocol can always still do: no deadlock, bounded work, no stuck trees, full reclamation. */
module LifetimeProgress {
  import opened Wrappers
  import opened Handles
  import opened Lifetime
  import opened LifetimeSteps
  import opened LifetimeTheorems

  // ---------------------------------------------------------------- no deadlock

  /** Ready even under a lock that makes new readers queue behind a waiting writer. */
  ghost predicate ReadyBehindWriters(s: State, t: Tid)
    requires t < |s.threads| && PcTyped(s.nodes, s.threads[t])
  {
    && Ready(s, t)
    && (WantedShared(s.threads[t]).Some? ==>
          forall u :: 0 <= u < |s.threads| && s.threads[u].CloseWait? ==>
              Some(s.threads[u].n) != WantedShared(s.threads[t]))
  }

  ghost predicate CanMove(s: State)
    requires Typed(s)
  {
    exists t :: 0 <= t < |s.threads| && ReadyBehindWriters(s, t)
  }

  ghost predicate Waits(pc: Pc) { pc.Idle? || pc.CloseWait? || pc.EndFlushBody? || WantedShared(pc).Some? }

  /** Among threads that all wait, a handle other than a cluster has no lock holder. */
  lemma WaitersHoldNothing(s: State, n: Id)
    requires Inv(s) && n < |s.nodes|
    requires forall t :: 0 <= t < |s.threads| ==> Waits(s.threads[t])
    ensures s.nodes[n].cell.writer.None?
    ensures (forall t :: 0 <= t < |s.threads| ==> !s.threads[t].EndFlushBody? || s.threads[t].k != n) ==>
              s.nodes[n].cell.readers == {}
  {
    NodeFacts(s, n);
  }

  lemma WriterGoes(s: State, v: Tid)
    requires Inv(s) && v < |s.threads| && s.threads[v].CloseWait?
    requires forall t :: 0 <= t < |s.threads| ==> Waits(s.threads[t])
    requires forall t :: 0 <= t < |s.threads| ==> !s.threads[t].EndFlushBody? || s.threads[t].k != s.threads[v].n
    ensures CanMove(s)
  {
    AtFacts(s, v);
    WaitersHoldNothing(s, s.threads[v].n);
    assert ReadyBehindWriters(s, v);
  }

  lemma FlushLocksCluster(s: State, t: Tid)
    requires Inv(s) && t < |s.threads| && s.threads[t].EndFlushBody?
    ensures s.threads[t].k < |s.nodes| && s.nodes[s.threads[t].k].kind.Cluster?
  {
    AtFacts(s, t);
    NodeFacts(s, s.threads[t].w);
    NodeFacts(s, s.nodes[s.threads[t].w].up.value);
  }

  lemma AckLocksContext(s: State, u: Tid)
    requires Inv(s) && u < |s.threads| && s.threads[u].CallbackAckWait?
    ensures s.threads[u].p < |s.nodes| && s.nodes[s.threads[u].p].kind.Context?
  {
    AtFacts(s, u);
    NodeFacts(s, s.threads[u].w);
  }

  /** A callback waits to acknowledge while a flush waits for it: that callback, or a writer before it, goes. */
  lemma CallbackGoes(s: State, u: Tid)
    requires Inv(s) && u < |s.threads| && s.threads[u].CallbackAckWait?
    requires forall t :: 0 <= t < |s.threads| ==> Waits(s.threads[t])
    ensures CanMove(s)
  {
    var p := s.threads[u].p;
    AtFacts(s, u);
    AckLocksContext(s, u);
    forall t | 0 <= t < |s.threads| && s.threads[t].EndFlushBody?
      ensures s.threads[t].k != p
    {
      FlushLocksCluster(s, t);
    }
    if v :| 0 <= v < |s.threads| && s.threads[v].CloseWait? && s.threads[v].n == p {
      WriterGoes(s, v);
    } else {
      WaitersHoldNothing(s, p);
      assert ReadyBehindWriters(s, u);
    }
  }

  /** With no flush in progress and everybody waiting, no lock is held, so a writer or a reader goes. */
  lemma SomeoneGoes(s: State, t: Tid)
    requires Inv(s) && t < |s.threads| && !s.threads[t].Idle?
    requires forall u :: 0 <= u < |s.threads| ==> Waits(s.threads[u]) && !s.threads[u].EndFlushBody?
    ensures CanMove(s)
  {
    if v :| 0 <= v < |s.threads| && s.threads[v].CloseWait? {
      WriterGoes(s, v);
    } else {
      AtFacts(s, t);
      var n := WantedShared(s.threads[t]).value;
      WaitersHoldNothing(s, n);
      assert ReadyBehindWriters(s, t);
    }
  }

  /**
   Deadlock freedom: in every reachable state in which some operation is under way, some thread can
   take its next step, with or without overlaps, and even when readers queue behind waiting writers.
   */
  lemma NoDeadlock(s: State, t: Tid)
    requires Inv(s) && t < |s.threads| && !s.threads[t].Idle?
    ensures CanMove(s)
  {
    if u :| 0 <= u < |s.threads| && !Waits(s.threads[u]) {
      assert ReadyBehindWriters(s, u);
    } else if u :| 0 <= u < |s.threads| && s.threads[u].EndFlushBody? {
      if v :| 0 <= v < |s.threads| && InCallback(s.threads[v]).Some? {
        CallbackGoes(s, v);
      } else {
        assert ReadyBehindWriters(s, u);
      }
    } else {
      SomeoneGoes(s, t);
    }
  }

  // ---------------------------------------------------------------- bounded work

  /** An upper bound on the steps a thread at `pc` still takes. */
  function Rank(pc: Pc): nat
  {
    match pc
    case Idle => 0
    case UseWait(_) => 2
    case UseBody(_) => 1
    case OpenWait(_) => 3
    case OpenBody(_) => 2
    case OpenAdd(_, _) => 1
    case SubAdd(_) => 5
    case SubWait(_, _) => 4
    case SubBody(_, _) => 3
    case SubLeave(_, _) => 1
    case SubFail(_, _) => 2
    case SubFailRemove(_, _) => 1
    case CloseLoad(_) => 5
    case CloseWait(_, _) => 4
    case CloseBody(_, _, _) => 3
    case CloseRemove(_, _) => 2
    case CloseUnlock(_, _) => 1
    case DropCheck(_) => 8
    case EndExchange(_) => 7
    case EndUnregisterWait(_, _) => 6
    case EndUnregisterBody(_, _) => 5
    case EndFlushWait(_, _) => 4
    case EndFlushBody(_, _) => 3
    case EndRelease(_) => 2
    case EndRemove(_, _) => 1
    case AckWait(_, _) => 2
    case AckBody(_, _) => 1
    case CallbackCheck(_) => 4
    case CallbackPost(_) => 3
    case CallbackAckWait(_, _) => 2
    case CallbackAckBody(_, _) => 1
  }

  ghost function Work(threads: seq<Pc>): nat
  {
    if threads == [] then 0 else Rank(threads[0]) + Work(threads[1..])
  }

  lemma {:induction false} WorkUpdate(threads: seq<Pc>, t: nat, pc: Pc)
    requires t < |threads|
    ensures Work(threads[t := pc]) == Work(threads) - Rank(threads[t]) + Rank(pc)
  {
    if t == 0 {
      assert threads[t := pc][1..] == threads[1..];
    } else {
      WorkUpdate(threads[1..], t - 1, pc);
      assert threads[t := pc][1..] == threads[1..][t - 1 := pc];
    }
  }

  /** The nodes are well-typed, and so is the program counter. */
  predicate Fits(nodes: seq<Node>, pc: Pc)
  {
    PcTyped(nodes, pc) && forall n :: 0 <= n < |nodes| ==> NodeTyped(nodes, n)
  }

  lemma OpenRank(nodes: seq<Node>, t: Tid, pc: Pc, ok: bool)
    requires Fits(nodes, pc) && Opens(pc)
    ensures Rank(OpenAdvance(nodes, t, pc, ok).pc) < Rank(pc)
  {
  }

  lemma CreateRank(nodes: seq<Node>, t: Tid, pc: Pc, ok: bool)
    requires Fits(nodes, pc) && Creates(pc)
    ensures Rank(CreateAdvance(nodes, t, pc, ok).pc) < Rank(pc)
  {
  }

  lemma CloseRank(nodes: seq<Node>, t: Tid, pc: Pc, ok: bool)
    requires Fits(nodes, pc) && Closes(pc)
    ensures Rank(CloseAdvance(nodes, t, pc, ok).pc) < Rank(pc)
  {
  }

  lemma EndRank(nodes: seq<Node>, t: Tid, pc: Pc, ok: bool)
    requires Fits(nodes, pc) && Ends(pc)
    ensures Rank(EndAdvance(nodes, t, pc, ok).pc) < Rank(pc)
  {
  }

  lemma ReleaseRank(nodes: seq<Node>, t: Tid, pc: Pc, ok: bool)
    requires Fits(nodes, pc) && Releases(pc)
    ensures Rank(ReleaseAdvance(nodes, t, pc, ok).pc) < Rank(pc)
  {
  }

  lemma CallbackRank(nodes: seq<Node>, t: Tid, pc: Pc, ok: bool)
    requires Fits(nodes, pc) && (Acks(pc) || Notifies(pc))
    ensures Acks(pc) ==> Rank(AckAdvance(nodes, t, pc, ok).pc) < Rank(pc)
    ensures Notifies(pc) ==> Rank(NotifyAdvance(nodes, t, pc, ok).pc) < Rank(pc)
  {
  }

  lemma RankDrops(s: State, t: Tid, ok: bool)
    requires Enabled(s, Advance(t, ok))
    ensures Rank(AdvanceDelta(s.nodes, t, s.threads[t], ok).pc) < Rank(s.threads[t])
  {
    var pc := s.threads[t];
    if Opens(pc) { OpenRank(s.nodes, t, pc, ok); }
    else if Creates(pc) { CreateRank(s.nodes, t, pc, ok); }
    else if Closes(pc) { CloseRank(s.nodes, t, pc, ok); }
    else if Ends(pc) { EndRank(s.nodes, t, pc, ok); }
    else if Releases(pc) { ReleaseRank(s.nodes, t, pc, ok); }
    else { CallbackRank(s.nodes, t, pc, ok); }
  }

  /** Runs in which no new operation starts. */
  ghost predicate OnlyAdvances(run: seq<Step>)
  {
    forall i :: 0 <= i < |run| ==> run[i].Advance?
  }

  /** Operations already started take boundedly many steps, however they are interleaved. */
  lemma {:induction false} WorkIsBounded(s: State, run: seq<Step>)
    requires Valid(s, run) && OnlyAdvances(run)
    ensures |run| + Work(Exec(s, run).threads) <= Work(s.threads)
    decreases |run|
  {
    if run != [] {
      var t, ok := run[0].t, run[0].ok;
      RankDrops(s, t, ok);
      WorkUpdate(s.threads, t, AdvanceDelta(s.nodes, t, s.threads[t], ok).pc);
      WorkIsBounded(Apply(s, run[0]), run[1..]);
    }
  }

  ghost predicate Quiescent(s: State)
  {
    forall t :: 0 <= t < |s.threads| ==> s.threads[t].Idle?
  }

  /** One more step towards rest. */
  lemma DrainStep(s: State, t: Tid) returns (u: Tid)
    requires Inv(s) && t < |s.threads| && !s.threads[t].Idle?
    ensures Enabled(s, Advance(u, true)) && Inv(Apply(s, Advance(u, true)))
    ensures Work(Apply(s, Advance(u, true)).threads) < Work(s.threads)
  {
    NoDeadlock(s, t);
    u :| 0 <= u < |s.threads| && ReadyBehindWriters(s, u);
    RankDrops(s, u, true);
    WorkUpdate(s.threads, u, AdvanceDelta(s.nodes, u, s.threads[u], true).pc);
    StepKeepsInv(s, Advance(u, true));
  }

  /** From every reachable state, the operations under way can all run to their end. */
  lemma {:induction false} Drains(s: State) returns (run: seq<Step>)
    requires Inv(s)
    ensures Valid(s, run) && OnlyAdvances(run) && Quiescent(Exec(s, run)) && |run| <= Work(s.threads)
    decreases Work(s.threads)
  {
    if t :| 0 <= t < |s.threads| && !s.threads[t].Idle? {
      var u := DrainStep(s, t);
      var rest := Drains(Apply(s, Advance(u, true)));
      RunCons(s, Advance(u, true), rest);
      run := [Advance(u, true)] + rest;
    } else {
      run := [];
    }
  }
}
