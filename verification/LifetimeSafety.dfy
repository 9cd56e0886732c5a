/** The global half of the lifetime invariant: open ancestors, memory, callbacks and throws. */
module LifetimeSafety {
  import opened Wrappers
  import opened Handles
  import opened Lifetime
  import opened LifetimeInvariant

  // ---------------------------------------------------------------- open ancestors

  /** A native object that exists, or a registration still to be unregistered and flushed. */
  predicate Attached(node: Node) { node.native || (node.counted && node.entered && !node.threw) }

  predicate Absent(node: Node) { !node.native && !node.counted }

  ghost predicate ParentClosed(nodes: seq<Node>, n: Id)
    requires n < |nodes|
  {
    nodes[n].up.Some? && nodes[n].up.value < |nodes| && nodes[nodes[n].up.value].cell.closed
  }

  ghost predicate GrandparentClosed(nodes: seq<Node>, n: Id)
    requires n < |nodes|
  {
    nodes[n].up.Some? && nodes[n].up.value < |nodes| && ParentClosed(nodes, nodes[n].up.value)
  }

  /** A subscription whose `Create` has thrown after `add_child`. */
  predicate Orphaned(node: Node) { !IsHandle(node.kind) && node.driver.None? && PhaseOf(node) == ORPHAN_SUB }

  /** The parent of an attached node is open, unless its busy check may have been fooled. */
  ghost predicate AttachedOk(s: State, n: Id)
    requires n < |s.nodes|
  {
    Attached(s.nodes[n]) && ParentClosed(s.nodes, n) ==> s.nodes[n].up.value in s.exposed
  }

  /** What a `use` that threw found closed: the parent, or, past the unregister call, the cluster. */
  ghost predicate StrandedOk(s: State, n: Id)
    requires n < |s.nodes|
  {
    && (s.nodes[n].threw && s.nodes[n].native ==> ParentClosed(s.nodes, n))
    && (s.nodes[n].threw && !s.nodes[n].native ==> GrandparentClosed(s.nodes, n))
    && (Orphaned(s.nodes[n]) ==> ParentClosed(s.nodes, n))
  }

  ghost predicate ParentOk(s: State, n: Id)
    requires n < |s.nodes|
  {
    AttachedOk(s, n) && StrandedOk(s, n)
  }

  /** An open handle that has passed its busy check has no child, unless the check may have been fooled. */
  ghost predicate WindowOk(s: State, u: Tid)
    requires u < |s.threads|
  {
    var p := Window(s.threads[u]);
    p.Some? && p.value !in s.exposed && p.value < |s.nodes| && !s.nodes[p.value].cell.closed ==>
      forall c :: 0 <= c < |s.nodes| && s.nodes[c].up == p ==> Absent(s.nodes[c])
  }

  ghost predicate SafeOk(s: State)
  {
    && (forall p :: 0 <= p < |s.nodes| && ExposedNow(s, p) ==> p in s.exposed)
    && (forall n :: 0 <= n < |s.nodes| ==> ParentOk(s, n))
    && (forall u :: 0 <= u < |s.threads| ==> WindowOk(s, u))
  }

  ghost predicate OpenAfter(s: State, d: Delta, up: Option<Id>)
  {
    && up.Some? && up.value < |s.nodes|
    && !s.nodes[up.value].cell.closed && !d.After(up.value, s.nodes[up.value]).cell.closed
  }

  ghost predicate WriteSafe(s: State, t: Tid, d: Delta, x: Write)
    requires t < |s.threads|
  {
    x.Write? ==>
      && x.n < |s.nodes|
      && var node, pc := s.nodes[x.n], s.threads[t];
         && x.node.up == node.up
         && (node.cell.closed ==> x.node.cell.closed)
         && (x.node.cell.closed && !node.cell.closed ==> pc.CloseWait? && pc.n == x.n)
         && (Attached(x.node) && !Attached(node) ==> OpenAfter(s, d, node.up))
         && (!Absent(x.node) && Absent(node) ==>
               node.up.Some? && (Registering(pc) == node.up || Registering(d.pc) == node.up))
         && (x.node.threw && x.node.native && !(node.threw && node.native) ==> ParentClosed(s.nodes, x.n))
         && (x.node.threw && !x.node.native && !(node.threw && !node.native) ==> GrandparentClosed(s.nodes, x.n))
         && (Orphaned(x.node) && !Orphaned(node) ==> ParentClosed(s.nodes, x.n))
  }

  ghost predicate SafeDelta(s: State, t: Tid, d: Delta)
    requires t < |s.threads|
  {
    && WriteSafe(s, t, d, d.first) && WriteSafe(s, t, d, d.second)
    && (d.added.Some? ==>
          var node := d.added.value;
          && !node.threw && !Orphaned(node)
          && (node.up.Some? ==>
                && node.up.value < |s.nodes|
                && (Attached(node) ==> OpenAfter(s, d, node.up))
                && (!Absent(node) ==> Registering(s.threads[t]) == node.up || Registering(d.pc) == node.up)))
    && (var p := Window(d.pc);
        p.Some? ==>
          && s.threads[t].CloseLoad? && d == Quiet(d.pc)
          && p.value < |s.nodes| && IsHandle(s.nodes[p.value].kind) && s.nodes[p.value].cell.children == 0)
  }

  /** Before `p` is closed, its attached children are gone or its busy check may have been fooled. */
  ghost predicate MayClose(s: State, p: Id)
  {
    p !in s.exposed ==> forall c :: 0 <= c < |s.nodes| && s.nodes[c].up == Some(p) ==> !Attached(s.nodes[c])
  }

  lemma PatchAttached(s: State, t: Tid, d: Delta, n: Id)
    requires SafeOk(s) && t < |s.threads| && SafeDelta(s, t, d)
    requires forall m :: 0 <= m < |s.nodes| ==> NodeTyped(s.nodes, m)
    requires forall p :: 0 <= p < |s.nodes| && !s.nodes[p].cell.closed && d.After(p, s.nodes[p]).cell.closed ==>
             MayClose(s, p)
    requires n < |Patch(s, t, d).nodes|
    ensures AttachedOk(Patch(s, t, d), n)
  {
    if n < |s.nodes| {
      assert NodeTyped(s.nodes, n) && ParentOk(s, n);
    }
  }

  lemma PatchStranded(s: State, t: Tid, d: Delta, n: Id)
    requires SafeOk(s) && t < |s.threads| && SafeDelta(s, t, d)
    requires forall m :: 0 <= m < |s.nodes| ==> NodeTyped(s.nodes, m)
    requires n < |Patch(s, t, d).nodes|
    ensures StrandedOk(Patch(s, t, d), n)
  {
    if n < |s.nodes| {
      assert NodeTyped(s.nodes, n) && ParentOk(s, n);
      ClosedAfter(s, t, d, n);
    }
  }

  /** What was closed above a node stays closed. */
  lemma ClosedAfter(s: State, t: Tid, d: Delta, n: Id)
    requires t < |s.threads| && SafeDelta(s, t, d) && n < |s.nodes|
    requires forall m :: 0 <= m < |s.nodes| ==> NodeTyped(s.nodes, m)
    ensures ParentClosed(s.nodes, n) ==> ParentClosed(Patch(s, t, d).nodes, n)
    ensures GrandparentClosed(s.nodes, n) ==> GrandparentClosed(Patch(s, t, d).nodes, n)
  {
    assert NodeTyped(s.nodes, n);
  }

  /** An uncounted native child is one whose `add_child` is still to come. */
  lemma UncountedNative(s: State, c: Id)
    requires Typed(s) && StagesOk(s) && c < |s.nodes|
    requires s.nodes[c].native && !s.nodes[c].counted && s.nodes[c].up.Some?
    ensures exists v :: 0 <= v < |s.threads| && Registering(s.threads[v]) == s.nodes[c].up
  {
    assert NodeOk(s, c) && NodeTyped(s.nodes, c);
    var v := s.nodes[c].driver.value;
    assert PcTyped(s.nodes, s.threads[v]);
    assert Registering(s.threads[v]) == s.nodes[c].up;
  }

  /** A busy check that reads zero while nobody registers has seen all children gone. */
  lemma CheckSeesAll(s: State, t: Tid, p: Id, s': State)
    requires Typed(s) && StagesOk(s) && CountsOk(s)
    requires t < |s.threads| && s.threads[t].CloseLoad? && p < |s.nodes|
    requires IsHandle(s.nodes[p].kind) && s.nodes[p].cell.children == 0 && !s.nodes[p].cell.closed
    requires s'.nodes == s.nodes && s'.threads == s.threads[t := CloseWait(p, false)]
    ensures ExposedNow(s', p) || forall c :: 0 <= c < |s.nodes| && s.nodes[c].up == Some(p) ==> Absent(s.nodes[c])
  {
    assert CountOk(s.nodes, p);
    assert |Kids(s.nodes, p)| == 0 || ExposedNow(s', p);
    forall c | 0 <= c < |s.nodes| && s.nodes[c].up == Some(p)
      ensures Absent(s.nodes[c]) || ExposedNow(s', p)
    {
      assert s.nodes[c].counted ==> c in Kids(s.nodes, p);
      if s.nodes[c].native && !s.nodes[c].counted {
        UncountedNative(s, c);
        var v :| 0 <= v < |s.threads| && Registering(s.threads[v]) == Some(p);
        assert Registering(s'.threads[v]) == Some(p) && Window(s'.threads[t]) == Some(p);
      }
    }
  }

  lemma PatchWindows(s: State, t: Tid, d: Delta, u: Tid)
    requires Typed(s) && StagesOk(s) && CountsOk(s) && SafeOk(s)
    requires t < |s.threads| && SafeDelta(s, t, d)
    requires u < |s.threads|
    ensures WindowOk(Observe(Patch(s, t, d)), u)
  {
    var s1 := Patch(s, t, d);
    var s' := Observe(s1);
    var p := Window(s'.threads[u]);
    if p.Some? && p.value !in s'.exposed && p.value < |s'.nodes| && !s'.nodes[p.value].cell.closed {
      if u == t {
        assert s1.nodes == s.nodes;
        CheckSeesAll(s, t, p.value, s1);
      } else {
        assert WindowOk(s, u) && PcTyped(s.nodes, s.threads[u]);
        assert p.value < |s1.nodes| && !ExposedNow(s1, p.value) && !ExposedNow(s, p.value);
        assert Registering(s.threads[t]) != p && Registering(s1.threads[t]) != p;
      }
    }
  }

  lemma SafeKept(s: State, t: Tid, d: Delta)
    requires Typed(s) && StagesOk(s) && CountsOk(s) && SafeOk(s)
    requires t < |s.threads| && SafeDelta(s, t, d)
    requires forall p :: 0 <= p < |s.nodes| && !s.nodes[p].cell.closed && d.After(p, s.nodes[p]).cell.closed ==>
             MayClose(s, p)
    ensures SafeOk(Observe(Patch(s, t, d)))
  {
    var s1 := Patch(s, t, d);
    var s' := Observe(s1);
    forall p | 0 <= p < |s'.nodes| && ExposedNow(s', p)
      ensures p in s'.exposed
    {
      assert ExposedNow(s1, p);
    }
    forall n | 0 <= n < |s'.nodes|
      ensures ParentOk(s', n)
    {
      PatchAttached(s, t, d, n);
      PatchStranded(s, t, d, n);
      assert ParentOk(s1, n);
    }
    forall u | 0 <= u < |s'.threads|
      ensures WindowOk(s', u)
    {
      PatchWindows(s, t, d, u);
    }
  }

  // ---------------------------------------------------------------- memory

  /** Memory is reclaimed children first and only when nothing holds it. */
  ghost predicate MemNode(s: State, n: Id)
    requires n < |s.nodes|
  {
    var node := s.nodes[n];
    && (node.freed ==> node.refs == 0 && node.driver.None? && (IsHandle(node.kind) ==> node.cell.closed))
    && (!node.freed && node.up.Some? ==> node.up.value < |s.nodes| && !s.nodes[node.up.value].freed)
    && (!IsHandle(node.kind) && node.freed ==> !LiveSub(node))
    && (!IsHandle(node.kind) && LiveSub(node) && node.published && node.refs == 0 ==>
          && node.dropper.Some? && node.dropper.value < |s.threads|
          && (s.threads[node.dropper.value] == DropCheck(n) || s.threads[node.dropper.value] == EndExchange(n)))
  }

  /** A handle in its destructor is held by nobody else, and its children are gone. */
  ghost predicate Doomed(s: State, n: Id, u: Tid)
  {
    && n < |s.nodes| && !s.nodes[n].freed && s.nodes[n].refs == 0 && IsHandle(s.nodes[n].kind)
    && (forall c :: 0 <= c < |s.nodes| && s.nodes[c].up == Some(n) ==> s.nodes[c].freed)
    && (forall v :: 0 <= v < |s.threads| && v != u ==> !Owns(s.threads[v], n) && Destroying(s.threads[v]) != Some(n))
  }

  ghost predicate MemThread(s: State, u: Tid)
    requires u < |s.threads|
  {
    && (forall n: Id :: Owns(s.threads[u], n) ==> n < |s.nodes| && !s.nodes[n].freed)
    && (Destroying(s.threads[u]).Some? ==> Doomed(s, Destroying(s.threads[u]).value, u))
  }

  ghost predicate MemOk(s: State)
  {
    && (forall n :: 0 <= n < |s.nodes| ==> MemNode(s, n))
    && (forall u :: 0 <= u < |s.threads| ==> MemThread(s, u))
  }

  ghost predicate WriteMem(s: State, t: Tid, d: Delta, x: Write)
    requires t < |s.threads|
  {
    x.Write? ==>
      && x.n < |s.nodes|
      && var node, pc := s.nodes[x.n], s.threads[t];
         && x.node.up == node.up && x.node.kind == node.kind
         && (node.freed ==> x.node == node.(ackThrew := x.node.ackThrew))
         && (node.refs == 0 && x.node.refs > 0 ==> Owns(pc, x.n))
         && (x.node.freed && !node.freed ==>
               && x.node.refs == 0 && x.node.driver.None?
               && if IsHandle(node.kind) then
                    Destroying(pc) == Some(x.n) && Destroying(d.pc).None? && x.node.cell.closed
                  else Unowned(s, x.n) && !LiveSub(x.node))
         && (!IsHandle(node.kind) && LiveSub(x.node) && x.node.published && x.node.refs == 0 ==>
               || (x.node.dropper == Some(t) && (d.pc == DropCheck(x.n) || d.pc == EndExchange(x.n)))
               || (LiveSub(node) && node.published && node.refs == 0
                   && x.node.dropper == node.dropper && node.dropper != Some(t)))
  }

  ghost predicate MemDelta(s: State, t: Tid, d: Delta)
    requires t < |s.threads|
  {
    var pc, doomed := s.threads[t], Destroying(d.pc);
    && WriteMem(s, t, d, d.first) && WriteMem(s, t, d, d.second)
    && (d.added.Some? ==>
          && !d.added.value.freed
          && (!IsHandle(d.added.value.kind) ==> !LiveSub(d.added.value))
          && (d.added.value.up.Some? ==> Owns(pc, d.added.value.up.value)))
    && (pc.DropCheck? || pc.EndExchange? ==>
          d.Writes(pc.w) || d.pc == EndExchange(pc.w) || (pc.w < |s.nodes| && s.nodes[pc.w].ended))
    && (forall n: Id :: Owns(d.pc, n) ==>
          || Owns(pc, n)
          || (n < |s.nodes| && s.nodes[n].refs > 0)
          || (n == |s.nodes| && d.added.Some?))
    && (doomed.Some? ==>
          && (doomed == Destroying(pc) || Unowned(s, doomed.value))
          && doomed.value < |s.nodes| && IsHandle(s.nodes[doomed.value].kind)
          && !d.After(doomed.value, s.nodes[doomed.value]).freed
          && d.After(doomed.value, s.nodes[doomed.value]).refs == 0)
  }

  lemma OwnsOrDestroys(pc: Pc, n: Id)
    ensures !(Owns(pc, n) && Destroying(pc) == Some(n))
  {
  }

  /** No step frees a node that still has an unfreed child. */
  lemma ParentStays(s: State, t: Tid, d: Delta, n: Id)
    requires Typed(s) && MemOk(s) && t < |s.threads| && MemDelta(s, t, d)
    requires n < |s.nodes| && !s.nodes[n].freed && s.nodes[n].up.Some?
    ensures s.nodes[n].up.value < |s.nodes| && !Patch(s, t, d).nodes[s.nodes[n].up.value].freed
  {
    assert MemNode(s, n) && MemThread(s, t) && NodeTyped(s.nodes, n);
  }

  lemma AddedMem(s: State, t: Tid, d: Delta)
    requires Typed(s) && MemOk(s) && t < |s.threads| && MemDelta(s, t, d) && d.added.Some?
    ensures MemNode(Patch(s, t, d), |s.nodes|)
  {
    assert MemThread(s, t);
    var up := d.added.value.up;
    if up.Some? {
      OwnsOrDestroys(s.threads[t], up.value);
    }
  }

  lemma PatchMemNode(s: State, t: Tid, d: Delta, n: Id)
    requires Typed(s) && MemOk(s) && t < |s.threads| && MemDelta(s, t, d)
    requires n < |Patch(s, t, d).nodes|
    ensures MemNode(Patch(s, t, d), n)
  {
    if n < |s.nodes| {
      assert MemNode(s, n) && MemThread(s, t);
      if !s.nodes[n].freed && s.nodes[n].up.Some? {
        ParentStays(s, t, d, n);
      }
    } else {
      AddedMem(s, t, d);
    }
  }

  lemma PatchMemThread(s: State, t: Tid, d: Delta, u: Tid)
    requires Typed(s) && MemOk(s) && t < |s.threads| && MemDelta(s, t, d)
    requires u < |s.threads|
    ensures MemThread(Patch(s, t, d), u)
  {
    var s' := Patch(s, t, d);
    assert MemThread(s, t) && MemThread(s, u);
    forall n: Id | Owns(s'.threads[u], n)
      ensures n < |s'.nodes| && !s'.nodes[n].freed
    {
      OwnsOrDestroys(s.threads[t], n);
      if n < |s.nodes| {
        assert MemNode(s, n);
      }
    }
    var doomed := Destroying(s'.threads[u]);
    if doomed.Some? {
      PatchDoomed(s, t, d, u, doomed.value);
    }
  }

  lemma PatchDoomed(s: State, t: Tid, d: Delta, u: Tid, n: Id)
    requires Typed(s) && MemOk(s) && t < |s.threads| && MemDelta(s, t, d)
    requires u < |s.threads| && Destroying(Patch(s, t, d).threads[u]) == Some(n)
    ensures Doomed(Patch(s, t, d), n, u)
  {
    var s' := Patch(s, t, d);
    assert MemThread(s, t) && MemThread(s, u);
    OwnsOrDestroys(s.threads[t], n);
    assert Doomed(s, n, u) || (u == t && Unowned(s, n));
    forall c | 0 <= c < |s'.nodes| && s'.nodes[c].up == Some(n)
      ensures s'.nodes[c].freed
    {
      if c < |s.nodes| {
        assert s.nodes[c].up == Some(n);
      }
    }
    forall v | 0 <= v < |s'.threads| && v != u
      ensures !Owns(s'.threads[v], n) && Destroying(s'.threads[v]) != Some(n)
    {
    }
  }

  lemma MemKept(s: State, t: Tid, d: Delta)
    requires Typed(s) && MemOk(s) && t < |s.threads| && MemDelta(s, t, d)
    ensures MemOk(Patch(s, t, d))
  {
    var s' := Patch(s, t, d);
    forall n | 0 <= n < |s'.nodes|
      ensures MemNode(s', n)
    {
      PatchMemNode(s, t, d, n);
    }
    forall u | 0 <= u < |s'.threads|
      ensures MemThread(s', u)
    {
      PatchMemThread(s, t, d, u);
    }
  }

  // ---------------------------------------------------------------- callbacks and throws

  ghost predicate AllOpen(nodes: seq<Node>, n: Id)
    requires forall m :: 0 <= m < |nodes| ==> NodeTyped(nodes, m)
    requires n < |nodes|
  {
    assert NodeTyped(nodes, n);
    nodes[n].up.None? || (!nodes[nodes[n].up.value].cell.closed && AllOpen(nodes, nodes[n].up.value))
  }

  lemma ClosedAbove(nodes: seq<Node>, n: Id, p: Id)
    requires forall m :: 0 <= m < |nodes| ==> NodeTyped(nodes, m)
    requires n < |nodes| && p < |nodes| && nodes[n].up == Some(p)
    requires nodes[p].cell.closed || !AllOpen(nodes, p)
    ensures !AllOpen(nodes, n)
  {
  }

  ghost predicate AnyExposed(nodes: seq<Node>, exposed: set<Id>, n: Id)
    requires forall m :: 0 <= m < |nodes| ==> NodeTyped(nodes, m)
    requires n < |nodes|
  {
    assert NodeTyped(nodes, n);
    nodes[n].up.Some? && (nodes[n].up.value in exposed || AnyExposed(nodes, exposed, nodes[n].up.value))
  }

  lemma {:induction false} ExposedKept(nodes: seq<Node>, exposed: set<Id>, nodes': seq<Node>, exposed': set<Id>, n: Id)
    requires forall m :: 0 <= m < |nodes| ==> NodeTyped(nodes, m)
    requires forall m :: 0 <= m < |nodes'| ==> NodeTyped(nodes', m)
    requires SameShape(nodes, nodes') && exposed <= exposed'
    requires n < |nodes| && AnyExposed(nodes, exposed, n)
    ensures AnyExposed(nodes', exposed', n)
  {
    assert NodeTyped(nodes, n);
    var p := nodes[n].up.value;
    if p !in exposed {
      ExposedKept(nodes, exposed, nodes', exposed', p);
    }
  }

  /** An attached node has all its ancestors open, unless one of them has been exposed. */
  lemma {:induction false} AttachedUnderOpen(s: State, n: Id)
    requires Typed(s) && StagesOk(s) && SafeOk(s)
    requires n < |s.nodes| && Attached(s.nodes[n])
    ensures AllOpen(s.nodes, n) || AnyExposed(s.nodes, s.exposed, n)
  {
    assert NodeTyped(s.nodes, n) && ParentOk(s, n);
    if s.nodes[n].up.Some? {
      var p := s.nodes[n].up.value;
      if !s.nodes[p].cell.closed {
        assert NodeOk(s, p);
        AttachedUnderOpen(s, p);
      }
    }
  }

  /** `use` threw during `n`'s teardown or acknowledgement only if an ancestor has been exposed. */
  ghost predicate ThrowOk(s: State, n: Id)
    requires Typed(s) && n < |s.nodes|
  {
    s.nodes[n].threw || s.nodes[n].ackThrew ==> AnyExposed(s.nodes, s.exposed, n)
  }

  ghost predicate CallbackOk(s: State, u: Tid)
    requires u < |s.threads|
  {
    var w := InCallback(s.threads[u]);
    w.Some? ==> w.value < |s.nodes| && Callable(s.nodes[w.value]) && !IsHandle(s.nodes[w.value].kind)
  }

  ghost predicate CallsOk(s: State)
    requires Typed(s)
  {
    && (forall n :: 0 <= n < |s.nodes| ==> ThrowOk(s, n))
    && (forall u :: 0 <= u < |s.threads| ==> CallbackOk(s, u))
  }

  ghost predicate WriteCalls(s: State, d: Delta, x: Write)
    requires Typed(s)
  {
    x.Write? ==>
      && x.n < |s.nodes|
      && var node := s.nodes[x.n];
         && ((x.node.threw && !node.threw) || (x.node.ackThrew && !node.ackThrew) ==>
               !AllOpen(s.nodes, x.n) && (Attached(node) || node.threw))
         && (Callable(node) && !Callable(x.node) ==>
               && InCallback(d.pc) != Some(x.n)
               && forall u :: 0 <= u < |s.threads| ==> InCallback(s.threads[u]) != Some(x.n))
  }

  ghost predicate CallsDelta(s: State, t: Tid, d: Delta)
    requires Typed(s) && t < |s.threads|
  {
    var w := InCallback(d.pc);
    && WriteCalls(s, d, d.first) && WriteCalls(s, d, d.second)
    && (d.added.Some? ==> !d.added.value.threw && !d.added.value.ackThrew)
    && (w.Some? ==> w.value < |s.nodes| && Callable(s.nodes[w.value]) && !IsHandle(s.nodes[w.value].kind))
  }

  lemma ThrowKept(s: State, t: Tid, d: Delta, s': State, n: Id)
    requires Typed(s) && StagesOk(s) && SafeOk(s) && CallsOk(s)
    requires t < |s.threads| && CallsDelta(s, t, d) && s' == Observe(Patch(s, t, d))
    requires Typed(s') && SameShape(s.nodes, s'.nodes) && n < |s'.nodes|
    ensures ThrowOk(s', n)
  {
    if n < |s.nodes| {
      assert ThrowOk(s, n);
      if (s'.nodes[n].threw || s'.nodes[n].ackThrew) && !s.nodes[n].threw && !s.nodes[n].ackThrew {
        AttachedUnderOpen(s, n);
      }
      if AnyExposed(s.nodes, s.exposed, n) {
        ExposedKept(s.nodes, s.exposed, s'.nodes, s'.exposed, n);
      }
    }
  }

  lemma CallsKept(s: State, t: Tid, d: Delta, s': State)
    requires Typed(s) && StagesOk(s) && SafeOk(s) && CallsOk(s)
    requires t < |s.threads| && CallsDelta(s, t, d) && s' == Observe(Patch(s, t, d))
    requires Typed(s') && SameShape(s.nodes, s'.nodes)
    ensures CallsOk(s')
  {
    forall n | 0 <= n < |s'.nodes|
      ensures ThrowOk(s', n)
    {
      ThrowKept(s, t, d, s', n);
    }
    forall u | 0 <= u < |s'.threads|
      ensures CallbackOk(s', u)
    {
      assert CallbackOk(s, u);
    }
  }
}
