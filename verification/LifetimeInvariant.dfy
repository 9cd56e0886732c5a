/** What every step of the lifetime protocol keeps. */
module LifetimeInvariant {
  import opened Wrappers
  import opened Handles
  import opened Lifetime

  // ---------------------------------------------------------------- shape

  /** No step changes what a node is or where it hangs, and nodes are only ever added. */
  ghost predicate SameShape(nodes: seq<Node>, nodes': seq<Node>)
  {
    && |nodes| <= |nodes'|
    && forall n :: 0 <= n < |nodes| ==> nodes'[n].kind == nodes[n].kind && nodes'[n].up == nodes[n].up
  }

  lemma PcTypedKept(nodes: seq<Node>, nodes': seq<Node>, pc: Pc)
    requires SameShape(nodes, nodes') && PcTyped(nodes, pc)
    ensures PcTyped(nodes', pc)
  {
  }

  predicate WriteTyped(nodes: seq<Node>, x: Write)
  {
    x.Write? ==> x.n < |nodes| && x.node.kind == nodes[x.n].kind && x.node.up == nodes[x.n].up
  }

  ghost predicate DeltaTyped(nodes: seq<Node>, d: Delta)
  {
    && WriteTyped(nodes, d.first) && WriteTyped(nodes, d.second)
    && if d.added.None? then PcTyped(nodes, d.pc)
       else
         var grown := nodes + [d.added.value];
         NodeTyped(grown, |nodes|) && PcTyped(grown, d.pc)
  }

  lemma PatchTyped(s: State, t: Tid, d: Delta)
    requires Typed(s) && t < |s.threads| && DeltaTyped(s.nodes, d)
    ensures SameShape(s.nodes, Patch(s, t, d).nodes)
    ensures Typed(Patch(s, t, d))
  {
    var s' := Patch(s, t, d);
    var grown := if d.added.None? then s.nodes else s.nodes + [d.added.value];
    assert SameShape(grown, s'.nodes);
    forall n | 0 <= n < |s'.nodes|
      ensures NodeTyped(s'.nodes, n)
    {
      if n < |s.nodes| {
        assert NodeTyped(s.nodes, n);
      }
    }
    forall u | 0 <= u < |s'.threads|
      ensures PcTyped(s'.nodes, s'.threads[u])
    {
      if u == t {
        PcTypedKept(grown, s'.nodes, d.pc);
      } else {
        PcTypedKept(s.nodes, s'.nodes, s.threads[u]);
      }
    }
  }

  // ---------------------------------------------------------------- life stages of a node

  /** The fields that say how far a node has come in its life. */
  datatype Phase = Phase(published: bool, native: bool, counted: bool, closed: bool,
                         entered: bool, ended: bool, threw: bool, tally: Tally)

  function PhaseOf(node: Node): Phase
  {
    Phase(node.published, node.native, node.counted, node.cell.closed, node.entered, node.ended, node.threw, node.tally)
  }

  function Flushes(kind: Kind): nat { if kind.Watch? then 1 else 0 }

  const UNREGISTERED := Phase(false, false, true, false, false, false, false, ZERO_TALLY)
  const REGISTERED := Phase(false, true, true, false, true, false, false, ZERO_TALLY)
  const LIVE := Phase(true, true, true, false, true, false, false, ZERO_TALLY)
  const ENDING := Phase(true, true, true, false, true, true, false, ZERO_TALLY)

  function Unwatched(tally: Tally): Phase { Phase(true, false, true, false, true, true, false, tally) }

  /** The phase of a node while the thread that creates it or tears it down is at `pc`. */
  function DrivenPhase(pc: Pc, kind: Kind, up: Option<Id>): Option<Phase>
  {
    match pc
    case OpenAdd(_, _) => Some(Phase(false, true, false, false, true, false, false, ZERO_TALLY))
    case SubWait(_, _) => Some(UNREGISTERED)
    case SubBody(_, _) => Some(UNREGISTERED)
    case SubLeave(_, _) => Some(REGISTERED)
    case SubFail(_, _) => Some(UNREGISTERED)
    case SubFailRemove(_, _) => Some(Phase(false, false, true, false, false, true, false, Tally(0, 0, 1, 0)))
    case CloseBody(_, _, _) => Some(Phase(true, true, up.Some?, true, true, false, false, ZERO_TALLY))
    case CloseRemove(_, _) => Some(Phase(true, false, up.Some?, true, true, false, false, ZERO_TALLY))
    case EndUnregisterWait(_, _) => Some(ENDING)
    case EndUnregisterBody(_, _) => Some(ENDING)
    case EndFlushWait(_, _) => Some(Unwatched(Tally(1, 0, 0, 0)))
    case EndFlushBody(_, _) => Some(Unwatched(Tally(1, 0, 0, 0)))
    case EndRelease(_) => Some(Unwatched(Tally(1, Flushes(kind), 0, 0)))
    case EndRemove(_, _) => Some(Unwatched(Tally(1, Flushes(kind), 1, 0)))
    case _ => None
  }

  const CLOSED_HANDLE := Phase(true, false, false, true, true, false, false, ZERO_TALLY)

  function OpenHandle(up: Option<Id>): Phase { Phase(true, true, up.Some?, false, true, false, false, ZERO_TALLY) }

  function ClosedSub(kind: Kind): Phase
  {
    Phase(true, false, false, false, true, true, false, Tally(1, Flushes(kind), 1, 1))
  }

  /** The native registration was refused and everything has been taken back. */
  const FAILED_SUB := Phase(false, false, false, false, false, true, false, Tally(0, 0, 1, 1))

  /** `Create` found its parent closed after `add_child`: the count is never taken back. */
  const ORPHAN_SUB := UNREGISTERED

  /** `Data::close` found a handle closed: its remaining actions never run. */
  predicate StrandedSub(kind: Kind, phase: Phase)
  {
    || phase == Phase(true, true, true, false, true, true, true, ZERO_TALLY)
    || (kind.Watch? && phase == Phase(true, false, true, false, true, true, true, Tally(1, 0, 0, 0)))
  }

  /** The phase of a node that no thread is creating or tearing down. */
  predicate RestPhase(kind: Kind, up: Option<Id>, phase: Phase)
  {
    if IsHandle(kind) then phase == OpenHandle(up) || phase == CLOSED_HANDLE
    else
      || phase == LIVE || phase == ClosedSub(kind) || StrandedSub(kind, phase)
      || phase == FAILED_SUB || phase == ORPHAN_SUB
  }

  predicate StageOk(pc: Pc, node: Node) { DrivenPhase(pc, node.kind, node.up) == Some(PhaseOf(node)) }

  predicate RestOk(node: Node) { RestPhase(node.kind, node.up, PhaseOf(node)) }

  predicate LiveSub(node: Node) { PhaseOf(node) == LIVE }

  predicate FieldsOk(node: Node, n: Id)
  {
    && (node.refs > 0 ==> node.published)
    && if IsHandle(node.kind) then
         && node.cell.handle == (if node.cell.closed then None else Some(n))
         && node.closes == (if node.native then 0 else 1)
         && (!node.cell.closed ==> node.native)
       else
         node.refs <= 1 && node.closes == 0 && node.cell == NewCell(None)
  }

  ghost predicate NodeOk(s: State, n: Id)
    requires n < |s.nodes|
  {
    var node := s.nodes[n];
    && FieldsOk(node, n)
    && (if node.driver.Some? then
          && node.driver.value < |s.threads|
          && Driven(s.threads[node.driver.value]) == Some(n)
          && StageOk(s.threads[node.driver.value], node)
        else RestOk(node))
  }

  ghost predicate DriverOk(s: State, t: Tid)
    requires t < |s.threads|
  {
    var d := Driven(s.threads[t]);
    && (d.Some? ==> d.value < |s.nodes| && s.nodes[d.value].driver == Some(t))
    && (s.threads[t].CloseBody? ==> s.threads[t].h == s.threads[t].n)
    && (var g := Given(s.threads[t]); g.Some? ==> g.value < |s.nodes| && s.nodes[g.value].published)
  }

  ghost predicate StagesOk(s: State)
  {
    && (forall n :: 0 <= n < |s.nodes| ==> NodeOk(s, n))
    && (forall t :: 0 <= t < |s.threads| ==> DriverOk(s, t))
  }

  /** Nothing the life stage depends on has changed. */
  predicate SameStage(node: Node, node': Node)
  {
    node'.kind == node.kind && node'.up == node.up && node'.driver == node.driver && PhaseOf(node') == PhaseOf(node)
  }

  /** The node is now driven by `t` at `pc`, or by nobody. */
  predicate HandOver(t: Tid, pc: Pc, n: Id, node: Node)
  {
    if node.driver.Some? then node.driver == Some(t) && Driven(pc) == Some(n) && StageOk(pc, node) else RestOk(node)
  }

  /** Open or live, and nobody has begun to take it down: the only stage at rest that ever ends. */
  predicate InUse(node: Node)
  {
    node.driver.None? && PhaseOf(node) == if IsHandle(node.kind) then OpenHandle(node.up) else LIVE
  }

  ghost predicate WriteStage(s: State, t: Tid, pc: Pc, x: Write)
  {
    x.Write? ==>
      && x.n < |s.nodes| && FieldsOk(x.node, x.n)
      && var node := s.nodes[x.n];
         && (node.published ==> x.node.published)
         && if node.driver == Some(t) then HandOver(t, pc, x.n, x.node)
            else SameStage(node, x.node) || (InUse(node) && HandOver(t, pc, x.n, x.node))
  }

  ghost predicate StageDelta(s: State, t: Tid, d: Delta)
    requires t < |s.threads|
  {
    && WriteStage(s, t, d.pc, d.first) && WriteStage(s, t, d.pc, d.second)
    && (d.added.Some? ==> FieldsOk(d.added.value, |s.nodes|) && HandOver(t, d.pc, |s.nodes|, d.added.value))
    && (var v := Driven(d.pc);
        v.Some? ==>
          if v.value < |s.nodes| then
            d.After(v.value, s.nodes[v.value]).driver == Some(t)
            && (!d.Writes(v.value) ==> StageOk(d.pc, s.nodes[v.value]))
          else v.value == |s.nodes| && d.added.Some? && d.added.value.driver == Some(t))
    && (var v := Driven(s.threads[t]); v.Some? ==> d.Writes(v.value) || Driven(d.pc) == v)
    && (d.pc.CloseBody? ==> d.pc.h == d.pc.n)
    && (var g := Given(d.pc); g.Some? ==> g.value < |s.nodes| && s.nodes[g.value].published)
  }

  /** A node handed over to `t` at its new program counter, or to nobody. */
  lemma HandedStage(s: State, t: Tid, d: Delta, n: Id)
    requires NodeInBounds(s, t, n) && FieldsOk(d.After(n, s.nodes[n]), n)
    requires HandOver(t, d.pc, n, d.After(n, s.nodes[n]))
    ensures NodeOk(Patch(s, t, d), n)
  {
  }

  /** A node whose stage is left as it is, driven by another thread or by nobody. */
  lemma SameStageKept(s: State, t: Tid, d: Delta, n: Id)
    requires NodeInBounds(s, t, n) && NodeOk(s, n) && s.nodes[n].driver != Some(t)
    requires FieldsOk(d.After(n, s.nodes[n]), n) && SameStage(s.nodes[n], d.After(n, s.nodes[n]))
    ensures NodeOk(Patch(s, t, d), n)
  {
  }

  lemma WrittenStage(s: State, t: Tid, d: Delta, n: Id)
    requires NodeInBounds(s, t, n) && NodeOk(s, n) && StageDelta(s, t, d) && d.Writes(n)
    ensures NodeOk(Patch(s, t, d), n)
  {
    var x := if d.second.Write? && d.second.n == n then d.second else d.first;
    assert WriteStage(s, t, d.pc, x) && d.After(n, s.nodes[n]) == x.node;
    if HandOver(t, d.pc, n, x.node) { HandedStage(s, t, d, n); } else { SameStageKept(s, t, d, n); }
  }

  lemma UnwrittenStage(s: State, t: Tid, d: Delta, n: Id)
    requires NodeInBounds(s, t, n) && NodeOk(s, n) && StageDelta(s, t, d) && !d.Writes(n)
    ensures NodeOk(Patch(s, t, d), n)
  {
  }

  predicate NodeInBounds(s: State, t: Tid, n: Id) { n < |s.nodes| && t < |s.threads| }

  lemma PatchDrivers(s: State, t: Tid, d: Delta, u: Tid)
    requires StagesOk(s) && t < |s.threads| && StageDelta(s, t, d)
    requires u < |s.threads|
    ensures DriverOk(Patch(s, t, d), u)
  {
    assert DriverOk(s, u);
  }

  lemma PatchStages(s: State, t: Tid, d: Delta)
    requires StagesOk(s) && t < |s.threads| && StageDelta(s, t, d)
    ensures StagesOk(Patch(s, t, d))
  {
    var s' := Patch(s, t, d);
    forall n | 0 <= n < |s'.nodes|
      ensures NodeOk(s', n)
    {
      if n < |s.nodes| {
        assert NodeOk(s, n);
        if d.Writes(n) { WrittenStage(s, t, d, n); } else { UnwrittenStage(s, t, d, n); }
      }
    }
    forall u | 0 <= u < |s'.threads|
      ensures DriverOk(s', u)
    {
      PatchDrivers(s, t, d, u);
    }
  }

  // ---------------------------------------------------------------- locks

  /** The lock's holders are exactly the threads whose program counter says so, and they exclude each other. */
  ghost predicate LockOk(s: State, n: Id)
    requires n < |s.nodes|
  {
    var cell := s.nodes[n].cell;
    && (forall u :: u in cell.readers ==> u < |s.threads| && HeldShared(s.threads[u]) == Some(n))
    && (cell.writer.Some? ==>
          && cell.writer.value < |s.threads| && HeldExclusive(s.threads[cell.writer.value]) == Some(n)
          && cell.readers == {} && cell.closed)
    && (cell.readers != {} ==> !cell.closed)
  }

  ghost predicate HolderOk(s: State, u: Tid)
    requires u < |s.threads|
  {
    var r, w := HeldShared(s.threads[u]), HeldExclusive(s.threads[u]);
    && (r.Some? ==> r.value < |s.nodes| && u in s.nodes[r.value].cell.readers)
    && (w.Some? ==> w.value < |s.nodes| && s.nodes[w.value].cell.writer == Some(u))
  }

  ghost predicate LocksOk(s: State)
  {
    && (forall n :: 0 <= n < |s.nodes| ==> LockOk(s, n))
    && (forall u :: 0 <= u < |s.threads| ==> HolderOk(s, u))
  }

  predicate WriteLock(s: State, t: Tid, pc: Pc, x: Write)
  {
    x.Write? ==>
      && x.n < |s.nodes|
      && var cell, cell' := s.nodes[x.n].cell, x.node.cell;
         && cell'.readers - {t} == cell.readers - {t}
         && (t in cell'.readers <==> HeldShared(pc) == Some(x.n))
         && (cell'.writer == Some(t) <==> HeldExclusive(pc) == Some(x.n))
         && (cell'.writer != Some(t) ==> cell'.writer == if cell.writer == Some(t) then None else cell.writer)
         && (cell.writer.Some? && cell.writer != Some(t) ==> cell'.writer == cell.writer)
         && (cell'.writer.Some? ==> cell'.readers == {} && cell'.closed)
         && (cell'.readers != {} ==> !cell'.closed)
  }

  ghost predicate LockDelta(s: State, t: Tid, d: Delta)
    requires t < |s.threads|
  {
    var r, w, r', w' := HeldShared(s.threads[t]), HeldExclusive(s.threads[t]), HeldShared(d.pc), HeldExclusive(d.pc);
    && WriteLock(s, t, d.pc, d.first) && WriteLock(s, t, d.pc, d.second)
    && (d.added.Some? ==> d.added.value.cell.readers == {} && d.added.value.cell.writer.None?)
    && (r.Some? ==> d.Writes(r.value) || r' == r)
    && (r'.Some? ==> d.Writes(r'.value) || r' == r)
    && (w.Some? ==> d.Writes(w.value) || w' == w)
    && (w'.Some? ==> d.Writes(w'.value) || w' == w)
  }

  lemma WrittenLock(s: State, t: Tid, d: Delta, x: Write)
    requires LocksOk(s) && t < |s.threads| && LockDelta(s, t, d)
    requires (x == d.first || x == d.second) && x.Write? && Patch(s, t, d).nodes[x.n] == x.node
    ensures LockOk(Patch(s, t, d), x.n)
  {
    var s' := Patch(s, t, d);
    assert LockOk(s, x.n) && WriteLock(s, t, d.pc, x);
    forall u | u in x.node.cell.readers
      ensures u < |s'.threads| && HeldShared(s'.threads[u]) == Some(x.n)
    {
      assert u != t ==> u in s.nodes[x.n].cell.readers - {t};
    }
  }

  lemma PatchLock(s: State, t: Tid, d: Delta, n: Id)
    requires LocksOk(s) && t < |s.threads| && LockDelta(s, t, d)
    requires n < |Patch(s, t, d).nodes|
    ensures LockOk(Patch(s, t, d), n)
  {
    if d.second.Write? && d.second.n == n {
      WrittenLock(s, t, d, d.second);
    } else if d.first.Write? && d.first.n == n {
      WrittenLock(s, t, d, d.first);
    } else if n < |s.nodes| {
      assert LockOk(s, n) && HolderOk(s, t);
    }
  }

  lemma PatchHolder(s: State, t: Tid, d: Delta, u: Tid)
    requires LocksOk(s) && t < |s.threads| && LockDelta(s, t, d)
    requires u < |s.threads|
    ensures HolderOk(Patch(s, t, d), u)
  {
    assert HolderOk(s, u);
    var r := HeldShared(s.threads[u]);
    if u != t && r.Some? {
      assert u in s.nodes[r.value].cell.readers - {t};
    }
  }

  lemma PatchLocks(s: State, t: Tid, d: Delta)
    requires LocksOk(s) && t < |s.threads| && LockDelta(s, t, d)
    ensures LocksOk(Patch(s, t, d))
  {
    var s' := Patch(s, t, d);
    forall n | 0 <= n < |s'.nodes|
      ensures LockOk(s', n)
    {
      PatchLock(s, t, d, n);
    }
    forall u | 0 <= u < |s'.threads|
      ensures HolderOk(s', u)
    {
      PatchHolder(s, t, d, u);
    }
  }

  // ---------------------------------------------------------------- child counters

  /** Modulo 2^32, the counter is the number of children registered and not yet removed. */
  ghost predicate CountOk(nodes: seq<Node>, p: Id)
    requires p < |nodes|
  {
    IsHandle(nodes[p].kind) ==> nodes[p].cell.children == |Kids(nodes, p)| % COUNTER_LIMIT
  }

  ghost predicate CountsOk(s: State)
  {
    forall p :: 0 <= p < |s.nodes| ==> CountOk(s.nodes, p)
  }

  predicate WriteCountKept(s: State, x: Write, c: Option<Id>, p: Option<Id>)
  {
    x.Write? ==>
      && x.n < |s.nodes| && x.node.kind == s.nodes[x.n].kind && x.node.up == s.nodes[x.n].up
      && (Some(x.n) != c ==> x.node.counted == s.nodes[x.n].counted)
      && (Some(x.n) != p ==> x.node.cell.children == s.nodes[x.n].cell.children)
  }

  /** Neither counters nor membership change, except for child `c` and its parent `p`. */
  predicate CountsKeptBut(s: State, d: Delta, c: Option<Id>, p: Option<Id>)
  {
    && WriteCountKept(s, d.first, c, p) && WriteCountKept(s, d.second, c, p)
    && (d.added.Some? ==>
          && (Some(|s.nodes|) != c ==> !d.added.value.counted)
          && d.added.value.cell.children == 0 && (d.added.value.up.Some? ==> d.added.value.up.value < |s.nodes|))
  }

  predicate Joins(s: State, d: Delta, c: Id, p: Id)
  {
    && CountsKeptBut(s, d, Some(c), Some(p))
    && p < |s.nodes| && d.After(p, s.nodes[p]).cell.children == s.nodes[p].cell.AddChild().children
    && if c < |s.nodes| then !s.nodes[c].counted && d.After(c, s.nodes[c]).counted && s.nodes[c].up == Some(p)
       else c == |s.nodes| && d.added.Some? && d.added.value.counted && d.added.value.up == Some(p)
  }

  predicate Parts(s: State, d: Delta, c: Id, p: Id)
  {
    && CountsKeptBut(s, d, Some(c), Some(p))
    && p < |s.nodes| && d.After(p, s.nodes[p]).cell.children == s.nodes[p].cell.RemoveChild().children
    && c < |s.nodes| && s.nodes[c].counted && !d.After(c, s.nodes[c]).counted && s.nodes[c].up == Some(p)
  }

  ghost predicate CountDelta(s: State, d: Delta)
  {
    || CountsKeptBut(s, d, None, None)
    || (exists c, p :: Joins(s, d, c, p))
    || (exists c, p :: Parts(s, d, c, p))
  }

  /** Modular increments and decrements follow the size of the set they count. */
  lemma ModStep(k: nat, x: nat)
    requires x == k % COUNTER_LIMIT
    ensures (x + 1) % COUNTER_LIMIT == (k + 1) % COUNTER_LIMIT
    ensures k > 0 ==> (x + COUNTER_LIMIT - 1) % COUNTER_LIMIT == (k - 1) % COUNTER_LIMIT
  {
    var q := k / COUNTER_LIMIT;
    assert k == q * COUNTER_LIMIT + x;
    if x == COUNTER_LIMIT - 1 {
      assert k + 1 == (q + 1) * COUNTER_LIMIT;
    }
    if k > 0 && x == 0 {
      assert k - 1 == (q - 1) * COUNTER_LIMIT + (COUNTER_LIMIT - 1);
    }
  }

  lemma KidsJoined(nodes: seq<Node>, nodes': seq<Node>, c: Id, p: Id, q: Id)
    requires |nodes| <= |nodes'| && c < |nodes'| && nodes'[c].up == Some(p) && nodes'[c].counted
    requires c < |nodes| ==> nodes[c].up == Some(p) && !nodes[c].counted
    requires forall n :: 0 <= n < |nodes| && n != c ==>
               nodes'[n].up == nodes[n].up && nodes'[n].counted == nodes[n].counted
    requires forall n :: |nodes| <= n < |nodes'| && n != c ==> !nodes'[n].counted
    ensures |Kids(nodes', q)| == |Kids(nodes, q)| + (if q == p then 1 else 0)
  {
    assert c !in Kids(nodes, q);
    assert Kids(nodes', q) == Kids(nodes, q) + if q == p then {c} else {};
  }

  lemma KidsParted(nodes: seq<Node>, nodes': seq<Node>, c: Id, p: Id, q: Id)
    requires |nodes| <= |nodes'| && c < |nodes| && nodes[c].up == Some(p) && nodes[c].counted && !nodes'[c].counted
    requires forall n :: 0 <= n < |nodes| && n != c ==>
               nodes'[n].up == nodes[n].up && nodes'[n].counted == nodes[n].counted
    requires forall n :: |nodes| <= n < |nodes'| ==> !nodes'[n].counted
    ensures |Kids(nodes', q)| == |Kids(nodes, q)| - (if q == p then 1 else 0)
  {
    assert q == p ==> c in Kids(nodes, q);
    assert Kids(nodes', q) == Kids(nodes, q) - if q == p then {c} else {};
  }

  lemma JoinCount(s: State, t: Tid, d: Delta, c: Id, q: Id, p: Id)
    requires CountsOk(s) && t < |s.threads| && p < |s.nodes| && Joins(s, d, c, q)
    ensures CountOk(Patch(s, t, d).nodes, p)
  {
    assert CountOk(s.nodes, p);
    KidsJoined(s.nodes, Patch(s, t, d).nodes, c, q, p);
    ModStep(|Kids(s.nodes, p)|, |Kids(s.nodes, p)| % COUNTER_LIMIT);
  }

  lemma PartCount(s: State, t: Tid, d: Delta, c: Id, q: Id, p: Id)
    requires CountsOk(s) && t < |s.threads| && p < |s.nodes| && Parts(s, d, c, q)
    ensures CountOk(Patch(s, t, d).nodes, p)
  {
    assert CountOk(s.nodes, p);
    KidsParted(s.nodes, Patch(s, t, d).nodes, c, q, p);
    ModStep(|Kids(s.nodes, p)|, |Kids(s.nodes, p)| % COUNTER_LIMIT);
  }

  lemma PatchCount(s: State, t: Tid, d: Delta, p: Id)
    requires CountsOk(s) && t < |s.threads| && CountDelta(s, d) && p < |s.nodes|
    ensures CountOk(Patch(s, t, d).nodes, p)
  {
    if c, q :| Joins(s, d, c, q) {
      JoinCount(s, t, d, c, q, p);
    } else if c, q :| Parts(s, d, c, q) {
      PartCount(s, t, d, c, q, p);
    } else {
      assert CountOk(s.nodes, p);
      assert Kids(Patch(s, t, d).nodes, p) == Kids(s.nodes, p);
    }
  }

  lemma PatchCounts(s: State, t: Tid, d: Delta)
    requires CountsOk(s) && t < |s.threads| && CountDelta(s, d)
    requires forall n :: 0 <= n < |s.nodes| ==> NodeTyped(s.nodes, n)
    ensures CountsOk(Patch(s, t, d))
  {
    var nodes' := Patch(s, t, d).nodes;
    forall p | 0 <= p < |nodes'|
      ensures CountOk(nodes', p)
    {
      if p < |s.nodes| {
        PatchCount(s, t, d, p);
      } else {
        forall c | 0 <= c < |nodes'|
          ensures nodes'[c].up != Some(p)
        {
          assert c < |s.nodes| ==> NodeTyped(s.nodes, c);
        }
        assert Kids(nodes', p) == {};
      }
    }
  }
}
