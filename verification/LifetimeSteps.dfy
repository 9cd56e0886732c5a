/** Every atomic action of the lifetime protocol meets its local obligations, so every step keeps the invariant. */
module LifetimeSteps {
  import opened Wrappers
  import opened Handles
  import opened Lifetime
  import opened LifetimeInvariant
  import opened LifetimeSafety

  ghost predicate Inv(s: State)
  {
    Typed(s) && StagesOk(s) && LocksOk(s) && CountsOk(s) && SafeOk(s) && MemOk(s) && CallsOk(s)
  }

  /** The obligations of a step about the kinds and life stages of the nodes it writes. */
  ghost predicate ShapeOk(s: State, t: Tid, d: Delta)
    requires t < |s.threads|
  {
    DeltaTyped(s.nodes, d) && StageDelta(s, t, d)
  }

  /** Its obligations about locks and counters. */
  ghost predicate HoldOk(s: State, t: Tid, d: Delta)
    requires t < |s.threads|
  {
    LockDelta(s, t, d) && CountDelta(s, d)
  }

  ghost predicate LocalOk(s: State, t: Tid, d: Delta)
    requires t < |s.threads|
  {
    ShapeOk(s, t, d) && HoldOk(s, t, d)
  }

  /** Its obligations about ancestors, memory, callbacks and throws. */
  ghost predicate GlobalOk(s: State, t: Tid, d: Delta)
    requires Typed(s) && t < |s.threads|
  {
    SafeDelta(s, t, d) && MemDelta(s, t, d) && CallsDelta(s, t, d)
  }

  ghost predicate DeltaOk(s: State, t: Tid, d: Delta)
    requires Typed(s) && t < |s.threads|
  {
    LocalOk(s, t, d) && GlobalOk(s, t, d)
  }

  // ---------------------------------------------------------------- what a step may rely on

  /** Thread `t` is at `pc`. */
  ghost predicate At(s: State, t: Tid, pc: Pc)
  {
    t < |s.threads| && s.threads[t] == pc && PcTyped(s.nodes, pc) && HolderOk(s, t)
  }

  /** Node `n` is being created or torn down by `t`. */
  ghost predicate Mine(s: State, t: Tid, n: Id)
  {
    && n < |s.nodes| && t < |s.threads| && Driven(s.threads[t]) == Some(n)
    && s.nodes[n].driver == Some(t) && StageOk(s.threads[t], s.nodes[n]) && FieldsOk(s.nodes[n], n)
    && LockOk(s, n) && !s.nodes[n].freed
  }

  /** `t` does not drive `n`. */
  ghost predicate StageKeeps(s: State, t: Tid, n: Id) { n < |s.nodes| && s.nodes[n].driver != Some(t) && LockOk(s, n) }

  /** Node `n` exists in memory and is not `t`'s to create or tear down. */
  ghost predicate Beside(s: State, t: Tid, n: Id)
  {
    && n < |s.nodes| && FieldsOk(s.nodes[n], n) && LockOk(s, n)
    && s.nodes[n].driver != Some(t) && !s.nodes[n].freed
  }

  lemma AtFacts(s: State, t: Tid)
    requires Inv(s) && t < |s.threads|
    ensures At(s, t, s.threads[t]) && DriverOk(s, t) && MemThread(s, t) && CallbackOk(s, t)
  {
  }

  lemma NodeFacts(s: State, n: Id)
    requires Inv(s) && n < |s.nodes|
    ensures NodeTyped(s.nodes, n) && NodeOk(s, n) && LockOk(s, n) && ParentOk(s, n) && MemNode(s, n)
  {
  }

  /** The thread that creates or tears down `n`, if there is one. */
  lemma DriverFacts(s: State, n: Id)
    requires Inv(s) && n < |s.nodes|
    ensures s.nodes[n].driver.Some? ==>
              var t := s.nodes[n].driver.value;
              && t < |s.threads| && At(s, t, s.threads[t]) && DriverOk(s, t) && MemThread(s, t)
              && Driven(s.threads[t]) == Some(n) && StageOk(s.threads[t], s.nodes[n])
  {
    NodeFacts(s, n);
    if s.nodes[n].driver.Some? {
      AtFacts(s, s.nodes[n].driver.value);
    }
  }

  lemma MineFacts(s: State, t: Tid, n: Id)
    requires Inv(s) && t < |s.threads| && Driven(s.threads[t]) == Some(n)
    ensures Mine(s, t, n)
  {
    AtFacts(s, t);
    NodeFacts(s, n);
  }

  lemma BesideFacts(s: State, t: Tid, n: Id)
    requires Inv(s) && t < |s.threads| && n < |s.nodes| && !s.nodes[n].freed
    requires Driven(s.threads[t]) != Some(n)
    ensures Beside(s, t, n)
  {
    NodeFacts(s, n);
  }

  /** The parent of a node that `t` drives is still in memory. */
  lemma ParentFacts(s: State, t: Tid, w: Id, p: Id)
    requires Inv(s) && t < |s.threads| && w < |s.nodes| && !s.nodes[w].freed && s.nodes[w].up == Some(p)
    requires Driven(s.threads[t]) != Some(p)
    ensures Beside(s, t, p)
  {
    NodeFacts(s, w);
    BesideFacts(s, t, p);
  }

  /** An open handle in use is not being torn down by anyone. */
  lemma OpenAtRest(s: State, n: Id)
    requires Inv(s) && n < |s.nodes| && IsHandle(s.nodes[n].kind) && s.nodes[n].published && !s.nodes[n].cell.closed
    ensures s.nodes[n].driver.None? && PhaseOf(s.nodes[n]) == OpenHandle(s.nodes[n].up)
  {
    NodeFacts(s, n);
    DriverFacts(s, n);
  }

  /** A subscription in use whose `closed` flag is still false is live. */
  lemma LiveAtRest(s: State, w: Id)
    requires Inv(s) && w < |s.nodes| && !IsHandle(s.nodes[w].kind) && s.nodes[w].published && !s.nodes[w].ended
    ensures s.nodes[w].driver.None? && LiveSub(s.nodes[w])
  {
    NodeFacts(s, w);
    DriverFacts(s, w);
  }

  /** Nobody else tears down a handle in its destructor. */
  lemma DoomedAtRest(s: State, t: Tid, n: Id)
    requires Inv(s) && t < |s.threads| && Destroying(s.threads[t]) == Some(n) && Driven(s.threads[t]).None?
    requires n < |s.nodes| && s.nodes[n].published
    ensures s.nodes[n].driver.None? && s.nodes[n].refs == 0 && !s.nodes[n].freed && IsHandle(s.nodes[n].kind)
  {
    AtFacts(s, t);
    NodeFacts(s, n);
    DriverFacts(s, n);
  }

  /** A watch that may be called back is still to be unregistered and flushed, or its teardown threw. */
  lemma CallableAttached(s: State, w: Id)
    requires Inv(s) && w < |s.nodes| && !IsHandle(s.nodes[w].kind) && Callable(s.nodes[w])
    ensures Attached(s.nodes[w]) || s.nodes[w].threw
  {
    NodeFacts(s, w);
    DriverFacts(s, w);
  }

  // ---------------------------------------------------------------- one lemma per atomic action

  lemma UseWaitOk(s: State, t: Tid, n: Id)
    requires Typed(s) && At(s, t, UseWait(n)) && Beside(s, t, n)
    requires s.nodes[n].published && s.nodes[n].cell.CanShare()
    ensures DeltaOk(s, t, EnterDelta(s.nodes, t, n, UseBody(n), Keep))
  {
  }

  lemma UseBodyOk(s: State, t: Tid, n: Id)
    requires Typed(s) && At(s, t, UseBody(n)) && Beside(s, t, n)
    ensures DeltaOk(s, t, LeaveDelta(s.nodes, t, n, Idle))
  {
  }

  lemma OpenWaitOk(s: State, t: Tid, p: Id)
    requires Typed(s) && At(s, t, OpenWait(p)) && Beside(s, t, p)
    requires s.nodes[p].published && s.nodes[p].cell.CanShare()
    ensures DeltaOk(s, t, EnterDelta(s.nodes, t, p, OpenBody(p), Keep))
  {
  }

  lemma OpenFailOk(s: State, t: Tid, p: Id)
    requires Typed(s) && At(s, t, OpenBody(p)) && Beside(s, t, p)
    ensures DeltaOk(s, t, LeaveDelta(s.nodes, t, p, Idle))
  {
  }

  lemma OpenedLocal(s: State, t: Tid, p: Id)
    requires Typed(s) && At(s, t, OpenBody(p)) && Beside(s, t, p)
    requires s.nodes[p].published
    ensures LocalOk(s, t, OpenedDelta(s.nodes, t, p))
  {
  }

  lemma OpenedGlobal(s: State, t: Tid, p: Id)
    requires Typed(s) && At(s, t, OpenBody(p)) && Beside(s, t, p)
    requires s.nodes[p].published
    ensures GlobalOk(s, t, OpenedDelta(s.nodes, t, p))
  {
  }

  lemma OpenedOk(s: State, t: Tid, p: Id)
    requires Typed(s) && At(s, t, OpenBody(p)) && Beside(s, t, p)
    requires s.nodes[p].published
    ensures DeltaOk(s, t, OpenedDelta(s.nodes, t, p))
  {
    OpenedLocal(s, t, p);
    OpenedGlobal(s, t, p);
  }

  lemma OpenAddLocal(s: State, t: Tid, p: Id, c: Id)
    requires Typed(s) && At(s, t, OpenAdd(p, c)) && Beside(s, t, p) && Mine(s, t, c)
    requires s.nodes[p].published
    ensures LocalOk(s, t, OpenAddDelta(s.nodes, p, c))
  {
    assert Joins(s, OpenAddDelta(s.nodes, p, c), c, p);
  }

  lemma OpenAddGlobal(s: State, t: Tid, p: Id, c: Id)
    requires Typed(s) && At(s, t, OpenAdd(p, c)) && Beside(s, t, p) && Mine(s, t, c)
    requires s.nodes[p].published
    ensures GlobalOk(s, t, OpenAddDelta(s.nodes, p, c))
  {
  }

  lemma OpenAddOk(s: State, t: Tid, p: Id, c: Id)
    requires Typed(s) && At(s, t, OpenAdd(p, c)) && Beside(s, t, p) && Mine(s, t, c)
    requires s.nodes[p].published
    ensures DeltaOk(s, t, OpenAddDelta(s.nodes, p, c))
  {
    OpenAddLocal(s, t, p, c);
    OpenAddGlobal(s, t, p, c);
  }

  lemma SubAddShape(s: State, t: Tid, p: Id)
    requires Typed(s) && At(s, t, SubAdd(p)) && Beside(s, t, p)
    ensures ShapeOk(s, t, SubAddDelta(s.nodes, t, p))
  {
  }

  lemma SubAddHold(s: State, t: Tid, p: Id)
    requires Typed(s) && At(s, t, SubAdd(p)) && Beside(s, t, p)
    ensures HoldOk(s, t, SubAddDelta(s.nodes, t, p))
  {
    assert Joins(s, SubAddDelta(s.nodes, t, p), |s.nodes|, p);
  }

  lemma SubAddLocal(s: State, t: Tid, p: Id)
    requires Typed(s) && At(s, t, SubAdd(p)) && Beside(s, t, p)
    ensures LocalOk(s, t, SubAddDelta(s.nodes, t, p))
  {
    SubAddShape(s, t, p);
    SubAddHold(s, t, p);
  }

  lemma SubAddGlobal(s: State, t: Tid, p: Id)
    requires Typed(s) && At(s, t, SubAdd(p)) && Beside(s, t, p)
    ensures GlobalOk(s, t, SubAddDelta(s.nodes, t, p))
  {
  }

  lemma SubWaitLocal(s: State, t: Tid, p: Id, w: Id)
    requires Typed(s) && At(s, t, SubWait(p, w)) && Beside(s, t, p) && Mine(s, t, w)
    requires s.nodes[p].cell.CanShare()
    ensures LocalOk(s, t, EnterDelta(s.nodes, t, p, SubBody(p, w), Write(w, s.nodes[w].(driver := None))))
  {
  }

  lemma SubWaitGlobal(s: State, t: Tid, p: Id, w: Id)
    requires Typed(s) && At(s, t, SubWait(p, w)) && Beside(s, t, p) && Mine(s, t, w)
    requires s.nodes[p].cell.CanShare()
    ensures GlobalOk(s, t, EnterDelta(s.nodes, t, p, SubBody(p, w), Write(w, s.nodes[w].(driver := None))))
  {
  }

  lemma SubWaitOk(s: State, t: Tid, p: Id, w: Id)
    requires Typed(s) && At(s, t, SubWait(p, w)) && Beside(s, t, p) && Mine(s, t, w)
    requires s.nodes[p].cell.CanShare()
    ensures DeltaOk(s, t, EnterDelta(s.nodes, t, p, SubBody(p, w), Write(w, s.nodes[w].(driver := None))))
  {
    SubWaitLocal(s, t, p, w);
    SubWaitGlobal(s, t, p, w);
  }

  lemma RegisteredOk(s: State, t: Tid, p: Id, w: Id)
    requires Typed(s) && At(s, t, SubBody(p, w)) && Beside(s, t, p) && Mine(s, t, w)
    ensures DeltaOk(s, t, RegisteredDelta(s.nodes, p, w))
  {
  }

  lemma RegisterFailLocal(s: State, t: Tid, p: Id, w: Id)
    requires Typed(s) && At(s, t, SubBody(p, w)) && Beside(s, t, p) && Mine(s, t, w)
    ensures LocalOk(s, t, LeaveDelta(s.nodes, t, p, SubFail(p, w)))
  {
  }

  lemma RegisterFailGlobal(s: State, t: Tid, p: Id, w: Id)
    requires Typed(s) && At(s, t, SubBody(p, w)) && Beside(s, t, p) && Mine(s, t, w)
    ensures GlobalOk(s, t, LeaveDelta(s.nodes, t, p, SubFail(p, w)))
  {
  }

  lemma RegisterFailOk(s: State, t: Tid, p: Id, w: Id)
    requires Typed(s) && At(s, t, SubBody(p, w)) && Beside(s, t, p) && Mine(s, t, w)
    ensures DeltaOk(s, t, LeaveDelta(s.nodes, t, p, SubFail(p, w)))
  {
    RegisterFailLocal(s, t, p, w);
    RegisterFailGlobal(s, t, p, w);
  }

  lemma SubLeaveLocal(s: State, t: Tid, p: Id, w: Id)
    requires Typed(s) && At(s, t, SubLeave(p, w)) && Beside(s, t, p) && Mine(s, t, w)
    ensures LocalOk(s, t, SubLeaveDelta(s.nodes, t, p, w))
  {
  }

  lemma SubLeaveGlobal(s: State, t: Tid, p: Id, w: Id)
    requires Typed(s) && At(s, t, SubLeave(p, w)) && Beside(s, t, p) && Mine(s, t, w)
    ensures GlobalOk(s, t, SubLeaveDelta(s.nodes, t, p, w))
  {
  }

  lemma SubLeaveOk(s: State, t: Tid, p: Id, w: Id)
    requires Typed(s) && At(s, t, SubLeave(p, w)) && Beside(s, t, p) && Mine(s, t, w)
    ensures DeltaOk(s, t, SubLeaveDelta(s.nodes, t, p, w))
  {
    SubLeaveLocal(s, t, p, w);
    SubLeaveGlobal(s, t, p, w);
  }

  lemma SubFailOk(s: State, t: Tid, p: Id, w: Id)
    requires Typed(s) && At(s, t, SubFail(p, w)) && Mine(s, t, w)
    ensures DeltaOk(s, t, SubFailDelta(s.nodes, p, w))
  {
  }

  lemma SubFailRemoveLocal(s: State, t: Tid, p: Id, w: Id)
    requires Typed(s) && At(s, t, SubFailRemove(p, w)) && Beside(s, t, p) && Mine(s, t, w)
    ensures LocalOk(s, t, RemoveDelta(s.nodes, p, w))
  {
    assert Parts(s, RemoveDelta(s.nodes, p, w), w, p);
  }

  lemma SubFailRemoveGlobal(s: State, t: Tid, p: Id, w: Id)
    requires Typed(s) && At(s, t, SubFailRemove(p, w)) && Beside(s, t, p) && Mine(s, t, w)
    ensures GlobalOk(s, t, RemoveDelta(s.nodes, p, w))
  {
  }

  lemma CloseLoadOk(s: State, t: Tid, n: Id)
    requires Typed(s) && At(s, t, CloseLoad(n)) && Beside(s, t, n)
    requires s.nodes[n].published
    ensures DeltaOk(s, t, CloseLoadDelta(s.nodes, n))
  {
  }

  lemma CloseWaitLocal(s: State, t: Tid, n: Id, dtor: bool)
    requires Typed(s) && At(s, t, CloseWait(n, dtor)) && Beside(s, t, n)
    requires s.nodes[n].published && s.nodes[n].cell.CanExclude() && !s.nodes[n].cell.closed
    requires s.nodes[n].driver.None? && PhaseOf(s.nodes[n]) == OpenHandle(s.nodes[n].up) && (dtor ==>
             s.nodes[n].refs == 0)
    ensures LocalOk(s, t, CloseWaitDelta(s.nodes, t, n, dtor))
  {
  }

  lemma CloseWaitGlobal(s: State, t: Tid, n: Id, dtor: bool)
    requires Typed(s) && At(s, t, CloseWait(n, dtor)) && Beside(s, t, n)
    requires s.nodes[n].published && s.nodes[n].cell.CanExclude() && !s.nodes[n].cell.closed
    requires s.nodes[n].driver.None? && PhaseOf(s.nodes[n]) == OpenHandle(s.nodes[n].up) && (dtor ==>
             s.nodes[n].refs == 0)
    ensures GlobalOk(s, t, CloseWaitDelta(s.nodes, t, n, dtor))
  {
  }

  lemma CloseReturnOk(s: State, t: Tid, n: Id)
    requires Typed(s) && At(s, t, CloseWait(n, false))
    ensures DeltaOk(s, t, Quiet(Idle))
  {
  }

  lemma DtorReturnOk(s: State, t: Tid, n: Id)
    requires Typed(s) && At(s, t, CloseWait(n, true)) && Beside(s, t, n)
    requires s.nodes[n].cell.closed && s.nodes[n].driver.None? && s.nodes[n].refs == 0
    ensures DeltaOk(s, t, One(Idle, n, s.nodes[n].(freed := true)))
  {
  }

  lemma CloseBodyOk(s: State, t: Tid, n: Id, dtor: bool, h: Handle)
    requires Typed(s) && At(s, t, CloseBody(n, dtor, h)) && Mine(s, t, n)
    requires dtor ==> s.nodes[n].refs == 0
    ensures DeltaOk(s, t, CloseBodyDelta(s.nodes, n, dtor))
  {
  }

  lemma CloseRemoveRootOk(s: State, t: Tid, n: Id, dtor: bool)
    requires Typed(s) && At(s, t, CloseRemove(n, dtor)) && Mine(s, t, n)
    requires s.nodes[n].up.None? && (dtor ==> s.nodes[n].refs == 0)
    ensures DeltaOk(s, t, CloseRemoveDelta(s.nodes, n, dtor))
  {
  }

  lemma CloseRemoveShape(s: State, t: Tid, n: Id, dtor: bool, p: Id)
    requires Typed(s) && At(s, t, CloseRemove(n, dtor)) && Mine(s, t, n) && Beside(s, t, p)
    requires s.nodes[n].up == Some(p) && p < n && IsHandle(s.nodes[p].kind) && (dtor ==> s.nodes[n].refs == 0)
    ensures ShapeOk(s, t, CloseRemoveDelta(s.nodes, n, dtor))
  {
  }

  lemma CloseRemoveHold(s: State, t: Tid, n: Id, dtor: bool, p: Id)
    requires Typed(s) && At(s, t, CloseRemove(n, dtor)) && Mine(s, t, n) && Beside(s, t, p)
    requires s.nodes[n].up == Some(p) && p < n && IsHandle(s.nodes[p].kind) && (dtor ==> s.nodes[n].refs == 0)
    ensures HoldOk(s, t, CloseRemoveDelta(s.nodes, n, dtor))
  {
    assert Parts(s, CloseRemoveDelta(s.nodes, n, dtor), n, p);
  }

  lemma CloseRemoveLocal(s: State, t: Tid, n: Id, dtor: bool, p: Id)
    requires Typed(s) && At(s, t, CloseRemove(n, dtor)) && Mine(s, t, n) && Beside(s, t, p)
    requires s.nodes[n].up == Some(p) && p < n && IsHandle(s.nodes[p].kind) && (dtor ==> s.nodes[n].refs == 0)
    ensures LocalOk(s, t, CloseRemoveDelta(s.nodes, n, dtor))
  {
    CloseRemoveShape(s, t, n, dtor, p);
    CloseRemoveHold(s, t, n, dtor, p);
  }

  lemma CloseRemoveGlobal(s: State, t: Tid, n: Id, dtor: bool, p: Id)
    requires Typed(s) && At(s, t, CloseRemove(n, dtor)) && Mine(s, t, n) && Beside(s, t, p)
    requires s.nodes[n].up == Some(p) && p < n && IsHandle(s.nodes[p].kind) && (dtor ==> s.nodes[n].refs == 0)
    ensures GlobalOk(s, t, CloseRemoveDelta(s.nodes, n, dtor))
  {
  }

  lemma CloseUnlockLocal(s: State, t: Tid, n: Id, dtor: bool)
    requires Typed(s) && At(s, t, CloseUnlock(n, dtor)) && Beside(s, t, n)
    requires dtor ==> s.nodes[n].driver.None? && s.nodes[n].refs == 0
    ensures LocalOk(s, t, CloseUnlockDelta(s.nodes, n, dtor))
  {
  }

  lemma CloseUnlockGlobal(s: State, t: Tid, n: Id, dtor: bool)
    requires Typed(s) && At(s, t, CloseUnlock(n, dtor)) && Beside(s, t, n)
    requires dtor ==> s.nodes[n].driver.None? && s.nodes[n].refs == 0
    ensures GlobalOk(s, t, CloseUnlockDelta(s.nodes, n, dtor))
  {
  }

  lemma CloseUnlockOk(s: State, t: Tid, n: Id, dtor: bool)
    requires Typed(s) && At(s, t, CloseUnlock(n, dtor)) && Beside(s, t, n)
    requires dtor ==> s.nodes[n].driver.None? && s.nodes[n].refs == 0
    ensures DeltaOk(s, t, CloseUnlockDelta(s.nodes, n, dtor))
  {
    CloseUnlockLocal(s, t, n, dtor);
    CloseUnlockGlobal(s, t, n, dtor);
  }

  lemma DropCheckOk(s: State, t: Tid, w: Id)
    requires Typed(s) && At(s, t, DropCheck(w)) && Beside(s, t, w)
    requires s.nodes[w].published
    ensures DeltaOk(s, t, Quiet(if s.nodes[w].ended then Idle else EndExchange(w)))
  {
  }

  lemma EndExchangeLocal(s: State, t: Tid, w: Id, p: Id)
    requires Typed(s) && At(s, t, EndExchange(w)) && Beside(s, t, w)
    requires s.nodes[w].up == Some(p) && HasHandle(s.nodes, p)
    requires !s.nodes[w].ended ==> s.nodes[w].driver.None? && LiveSub(s.nodes[w])
    ensures LocalOk(s, t, EndExchangeDelta(s.nodes, t, w, p))
  {
  }

  lemma EndExchangeGlobal(s: State, t: Tid, w: Id, p: Id)
    requires Typed(s) && At(s, t, EndExchange(w)) && Beside(s, t, w)
    requires s.nodes[w].up == Some(p) && HasHandle(s.nodes, p)
    requires !s.nodes[w].ended ==> s.nodes[w].driver.None? && LiveSub(s.nodes[w])
    ensures GlobalOk(s, t, EndExchangeDelta(s.nodes, t, w, p))
  {
  }

  lemma EndExchangeOk(s: State, t: Tid, w: Id, p: Id)
    requires Typed(s) && At(s, t, EndExchange(w)) && Beside(s, t, w)
    requires s.nodes[w].up == Some(p) && HasHandle(s.nodes, p)
    requires !s.nodes[w].ended ==> s.nodes[w].driver.None? && LiveSub(s.nodes[w])
    ensures DeltaOk(s, t, EndExchangeDelta(s.nodes, t, w, p))
  {
    EndExchangeLocal(s, t, w, p);
    EndExchangeGlobal(s, t, w, p);
  }

  lemma EndUnregisterWaitShape(s: State, t: Tid, w: Id, p: Id)
    requires Typed(s) && At(s, t, EndUnregisterWait(w, p)) && Mine(s, t, w) && Beside(s, t, p)
    requires s.nodes[p].cell.CanShare()
    ensures ShapeOk(s, t, EnterDelta(s.nodes, t, p, EndUnregisterBody(w, p), Stranded(s.nodes, w)))
  {
  }

  lemma EndUnregisterWaitHold(s: State, t: Tid, w: Id, p: Id)
    requires Typed(s) && At(s, t, EndUnregisterWait(w, p)) && Mine(s, t, w) && Beside(s, t, p)
    requires s.nodes[p].cell.CanShare()
    ensures HoldOk(s, t, EnterDelta(s.nodes, t, p, EndUnregisterBody(w, p), Stranded(s.nodes, w)))
  {
  }

  lemma EndUnregisterWaitLocal(s: State, t: Tid, w: Id, p: Id)
    requires Typed(s) && At(s, t, EndUnregisterWait(w, p)) && Mine(s, t, w) && Beside(s, t, p)
    requires s.nodes[p].cell.CanShare()
    ensures LocalOk(s, t, EnterDelta(s.nodes, t, p, EndUnregisterBody(w, p), Stranded(s.nodes, w)))
  {
    EndUnregisterWaitShape(s, t, w, p);
    EndUnregisterWaitHold(s, t, w, p);
  }

  lemma EndUnregisterWaitGlobal(s: State, t: Tid, w: Id, p: Id)
    requires Typed(s) && At(s, t, EndUnregisterWait(w, p)) && Mine(s, t, w) && Beside(s, t, p)
    requires s.nodes[p].cell.CanShare()
    ensures GlobalOk(s, t, EnterDelta(s.nodes, t, p, EndUnregisterBody(w, p), Stranded(s.nodes, w)))
  {
    if s.nodes[p].cell.closed {
      ClosedAbove(s.nodes, w, p);
    }
  }

  lemma EndUnregisterBodyLocal(s: State, t: Tid, w: Id, p: Id, next: Pc)
    requires Typed(s) && At(s, t, EndUnregisterBody(w, p)) && Mine(s, t, w) && Beside(s, t, p)
    requires PcTyped(s.nodes, next)
    requires if s.nodes[w].kind.Watch? then next.EndFlushWait? && next.w == w else next == EndRelease(w)
    ensures LocalOk(s, t, UnregisterDelta(s.nodes, t, p, w, next))
  {
  }

  lemma EndUnregisterBodyGlobal(s: State, t: Tid, w: Id, p: Id, next: Pc)
    requires Typed(s) && At(s, t, EndUnregisterBody(w, p)) && Mine(s, t, w) && Beside(s, t, p)
    requires PcTyped(s.nodes, next)
    requires if s.nodes[w].kind.Watch? then next.EndFlushWait? && next.w == w else next == EndRelease(w)
    ensures GlobalOk(s, t, UnregisterDelta(s.nodes, t, p, w, next))
  {
  }

  lemma EndFlushWaitShape(s: State, t: Tid, w: Id, p: Id, k: Id)
    requires Typed(s) && At(s, t, EndFlushWait(w, k)) && Mine(s, t, w) && Beside(s, t, k)
    requires s.nodes[k].cell.CanShare() && s.nodes[w].up == Some(p) && p < |s.nodes|
    ensures ShapeOk(s, t, EnterDelta(s.nodes, t, k, EndFlushBody(w, k), Stranded(s.nodes, w)))
  {
  }

  lemma EndFlushWaitHold(s: State, t: Tid, w: Id, p: Id, k: Id)
    requires Typed(s) && At(s, t, EndFlushWait(w, k)) && Mine(s, t, w) && Beside(s, t, k)
    requires s.nodes[k].cell.CanShare() && s.nodes[w].up == Some(p) && p < |s.nodes|
    ensures HoldOk(s, t, EnterDelta(s.nodes, t, k, EndFlushBody(w, k), Stranded(s.nodes, w)))
  {
  }

  lemma EndFlushWaitLocal(s: State, t: Tid, w: Id, p: Id, k: Id)
    requires Typed(s) && At(s, t, EndFlushWait(w, k)) && Mine(s, t, w) && Beside(s, t, k)
    requires s.nodes[k].cell.CanShare() && s.nodes[w].up == Some(p) && p < |s.nodes|
    ensures LocalOk(s, t, EnterDelta(s.nodes, t, k, EndFlushBody(w, k), Stranded(s.nodes, w)))
  {
    EndFlushWaitShape(s, t, w, p, k);
    EndFlushWaitHold(s, t, w, p, k);
  }

  lemma EndFlushWaitGlobal(s: State, t: Tid, w: Id, p: Id, k: Id)
    requires Typed(s) && At(s, t, EndFlushWait(w, k)) && Mine(s, t, w) && Beside(s, t, k)
    requires s.nodes[k].cell.CanShare() && s.nodes[w].up == Some(p) && p < |s.nodes|
    ensures GlobalOk(s, t, EnterDelta(s.nodes, t, k, EndFlushBody(w, k), Stranded(s.nodes, w)))
  {
    if s.nodes[k].cell.closed {
      ClosedAbove(s.nodes, p, k);
      ClosedAbove(s.nodes, w, p);
    }
  }

  lemma EndFlushBodyShape(s: State, t: Tid, w: Id, k: Id)
    requires Typed(s) && At(s, t, EndFlushBody(w, k)) && Mine(s, t, w) && Beside(s, t, k)
    requires forall u :: 0 <= u < |s.threads| ==> InCallback(s.threads[u]) != Some(w)
    ensures ShapeOk(s, t, FlushDelta(s.nodes, t, k, w))
  {
  }

  lemma EndFlushBodyHold(s: State, t: Tid, w: Id, k: Id)
    requires Typed(s) && At(s, t, EndFlushBody(w, k)) && Mine(s, t, w) && Beside(s, t, k)
    requires forall u :: 0 <= u < |s.threads| ==> InCallback(s.threads[u]) != Some(w)
    ensures HoldOk(s, t, FlushDelta(s.nodes, t, k, w))
  {
  }

  lemma EndFlushBodyLocal(s: State, t: Tid, w: Id, k: Id)
    requires Typed(s) && At(s, t, EndFlushBody(w, k)) && Mine(s, t, w) && Beside(s, t, k)
    requires forall u :: 0 <= u < |s.threads| ==> InCallback(s.threads[u]) != Some(w)
    ensures LocalOk(s, t, FlushDelta(s.nodes, t, k, w))
  {
    EndFlushBodyShape(s, t, w, k);
    EndFlushBodyHold(s, t, w, k);
  }

  lemma EndFlushBodyGlobal(s: State, t: Tid, w: Id, k: Id)
    requires Typed(s) && At(s, t, EndFlushBody(w, k)) && Mine(s, t, w) && Beside(s, t, k)
    requires forall u :: 0 <= u < |s.threads| ==> InCallback(s.threads[u]) != Some(w)
    ensures GlobalOk(s, t, FlushDelta(s.nodes, t, k, w))
  {
  }

  lemma EndReleaseLocal(s: State, t: Tid, w: Id, p: Id)
    requires Typed(s) && At(s, t, EndRelease(w)) && Mine(s, t, w)
    requires s.nodes[w].up == Some(p) && HasHandle(s.nodes, p)
    ensures LocalOk(s, t, ReleaseDelta(s.nodes, w, p))
  {
  }

  lemma EndReleaseGlobal(s: State, t: Tid, w: Id, p: Id)
    requires Typed(s) && At(s, t, EndRelease(w)) && Mine(s, t, w)
    requires s.nodes[w].up == Some(p) && HasHandle(s.nodes, p)
    ensures GlobalOk(s, t, ReleaseDelta(s.nodes, w, p))
  {
  }

  lemma EndReleaseOk(s: State, t: Tid, w: Id, p: Id)
    requires Typed(s) && At(s, t, EndRelease(w)) && Mine(s, t, w)
    requires s.nodes[w].up == Some(p) && HasHandle(s.nodes, p)
    ensures DeltaOk(s, t, ReleaseDelta(s.nodes, w, p))
  {
    EndReleaseLocal(s, t, w, p);
    EndReleaseGlobal(s, t, w, p);
  }

  lemma EndRemoveLocal(s: State, t: Tid, w: Id, p: Id)
    requires Typed(s) && At(s, t, EndRemove(w, p)) && Mine(s, t, w) && Beside(s, t, p)
    ensures LocalOk(s, t, RemoveDelta(s.nodes, p, w))
  {
    assert Parts(s, RemoveDelta(s.nodes, p, w), w, p);
  }

  lemma EndRemoveGlobal(s: State, t: Tid, w: Id, p: Id)
    requires Typed(s) && At(s, t, EndRemove(w, p)) && Mine(s, t, w) && Beside(s, t, p)
    ensures GlobalOk(s, t, RemoveDelta(s.nodes, p, w))
  {
  }

  lemma CallbackCheckOk(s: State, t: Tid, w: Id)
    requires Typed(s) && At(s, t, CallbackCheck(w))
    requires Callable(s.nodes[w])
    ensures DeltaOk(s, t, Quiet(if s.nodes[w].ended then Idle else CallbackPost(w)))
  {
  }

  lemma CallbackPostLocal(s: State, t: Tid, w: Id, p: Id, ok: bool)
    requires Typed(s) && At(s, t, CallbackPost(w))
    requires Callable(s.nodes[w]) && s.nodes[w].up == Some(p) && HasHandle(s.nodes, p)
    ensures LocalOk(s, t, Quiet(if ok then Idle else CallbackAckWait(w, p)))
  {
  }

  lemma CallbackPostGlobal(s: State, t: Tid, w: Id, p: Id, ok: bool)
    requires Typed(s) && At(s, t, CallbackPost(w))
    requires Callable(s.nodes[w]) && s.nodes[w].up == Some(p) && HasHandle(s.nodes, p)
    ensures GlobalOk(s, t, Quiet(if ok then Idle else CallbackAckWait(w, p)))
  {
  }

  lemma CallbackPostOk(s: State, t: Tid, w: Id, p: Id, ok: bool)
    requires Typed(s) && At(s, t, CallbackPost(w))
    requires Callable(s.nodes[w]) && s.nodes[w].up == Some(p) && HasHandle(s.nodes, p)
    ensures DeltaOk(s, t, Quiet(if ok then Idle else CallbackAckWait(w, p)))
  {
    CallbackPostLocal(s, t, w, p, ok);
    CallbackPostGlobal(s, t, w, p, ok);
  }

  lemma CallbackAckWaitShape(s: State, t: Tid, w: Id, p: Id)
    requires Typed(s) && At(s, t, CallbackAckWait(w, p)) && Beside(s, t, p)
    requires Callable(s.nodes[w]) && s.nodes[p].cell.CanShare() && s.nodes[p].cell.Usable()
    ensures ShapeOk(s, t, One(CallbackAckBody(w, p), p, s.nodes[p].(cell := s.nodes[p].cell.Enter(t))))
  {
  }

  lemma CallbackAckWaitHold(s: State, t: Tid, w: Id, p: Id)
    requires Typed(s) && At(s, t, CallbackAckWait(w, p)) && Beside(s, t, p)
    requires Callable(s.nodes[w]) && s.nodes[p].cell.CanShare() && s.nodes[p].cell.Usable()
    ensures HoldOk(s, t, One(CallbackAckBody(w, p), p, s.nodes[p].(cell := s.nodes[p].cell.Enter(t))))
  {
  }

  lemma CallbackAckWaitLocal(s: State, t: Tid, w: Id, p: Id)
    requires Typed(s) && At(s, t, CallbackAckWait(w, p)) && Beside(s, t, p)
    requires Callable(s.nodes[w]) && s.nodes[p].cell.CanShare() && s.nodes[p].cell.Usable()
    ensures LocalOk(s, t, One(CallbackAckBody(w, p), p, s.nodes[p].(cell := s.nodes[p].cell.Enter(t))))
  {
    CallbackAckWaitShape(s, t, w, p);
    CallbackAckWaitHold(s, t, w, p);
  }

  lemma CallbackAckWaitGlobal(s: State, t: Tid, w: Id, p: Id)
    requires Typed(s) && At(s, t, CallbackAckWait(w, p)) && Beside(s, t, p)
    requires Callable(s.nodes[w]) && s.nodes[p].cell.CanShare() && s.nodes[p].cell.Usable()
    ensures GlobalOk(s, t, One(CallbackAckBody(w, p), p, s.nodes[p].(cell := s.nodes[p].cell.Enter(t))))
  {
  }

  lemma CallbackAckThrowLocal(s: State, t: Tid, w: Id, p: Id)
    requires Typed(s) && At(s, t, CallbackAckWait(w, p))
    requires s.nodes[p].cell.closed && FieldsOk(s.nodes[w], w) && StageKeeps(s, t, w) && MemNode(s, w)
    requires Attached(s.nodes[w]) || s.nodes[w].threw
    ensures LocalOk(s, t, Delta(Idle, Write(w, s.nodes[w].(ackThrew := true)), Keep, None))
  {
  }

  lemma CallbackAckThrowGlobal(s: State, t: Tid, w: Id, p: Id)
    requires Typed(s) && At(s, t, CallbackAckWait(w, p))
    requires s.nodes[p].cell.closed && FieldsOk(s.nodes[w], w) && StageKeeps(s, t, w) && MemNode(s, w)
    requires Attached(s.nodes[w]) || s.nodes[w].threw
    ensures GlobalOk(s, t, Delta(Idle, Write(w, s.nodes[w].(ackThrew := true)), Keep, None))
  {
    ClosedAbove(s.nodes, w, p);
  }

  lemma CallbackAckBodyLocal(s: State, t: Tid, w: Id, p: Id)
    requires Typed(s) && At(s, t, CallbackAckBody(w, p)) && Beside(s, t, p)
    ensures LocalOk(s, t, LeaveDelta(s.nodes, t, p, Idle))
  {
  }

  lemma CallbackAckBodyGlobal(s: State, t: Tid, w: Id, p: Id)
    requires Typed(s) && At(s, t, CallbackAckBody(w, p)) && Beside(s, t, p)
    ensures GlobalOk(s, t, LeaveDelta(s.nodes, t, p, Idle))
  {
  }

  lemma AckWaitShape(s: State, t: Tid, w: Id, p: Id)
    requires Typed(s) && At(s, t, AckWait(w, p)) && Beside(s, t, p) && s.nodes[p].cell.CanShare()
    ensures ShapeOk(s, t, EnterDelta(s.nodes, t, p, AckBody(w, p), Keep))
  {
  }

  lemma AckWaitHold(s: State, t: Tid, w: Id, p: Id)
    requires Typed(s) && At(s, t, AckWait(w, p)) && Beside(s, t, p) && s.nodes[p].cell.CanShare()
    ensures HoldOk(s, t, EnterDelta(s.nodes, t, p, AckBody(w, p), Keep))
  {
  }

  lemma AckWaitLocal(s: State, t: Tid, w: Id, p: Id)
    requires Typed(s) && At(s, t, AckWait(w, p)) && Beside(s, t, p) && s.nodes[p].cell.CanShare()
    ensures LocalOk(s, t, EnterDelta(s.nodes, t, p, AckBody(w, p), Keep))
  {
    AckWaitShape(s, t, w, p);
    AckWaitHold(s, t, w, p);
  }

  lemma AckWaitGlobal(s: State, t: Tid, w: Id, p: Id)
    requires Typed(s) && At(s, t, AckWait(w, p)) && Beside(s, t, p) && s.nodes[p].cell.CanShare()
    ensures GlobalOk(s, t, EnterDelta(s.nodes, t, p, AckBody(w, p), Keep))
  {
  }

  lemma AckBodyLocal(s: State, t: Tid, w: Id, p: Id)
    requires Typed(s) && At(s, t, AckBody(w, p)) && Beside(s, t, p)
    ensures LocalOk(s, t, LeaveDelta(s.nodes, t, p, Idle))
  {
  }

  lemma AckBodyGlobal(s: State, t: Tid, w: Id, p: Id)
    requires Typed(s) && At(s, t, AckBody(w, p)) && Beside(s, t, p)
    ensures GlobalOk(s, t, LeaveDelta(s.nodes, t, p, Idle))
  {
  }

  lemma BeginQuietOk(s: State, t: Tid, n: Id, pc: Pc)
    requires Typed(s) && At(s, t, Idle) && n < |s.nodes| && s.nodes[n].refs > 0 && s.nodes[n].published
    requires PcTyped(s.nodes, pc)
    requires pc == UseWait(n) || pc == OpenWait(n) || pc == SubAdd(n) || pc == CloseLoad(n) || pc == EndExchange(n)
             || (pc.AckWait? && pc.w == n)
    ensures DeltaOk(s, t, Quiet(pc))
  {
  }

  lemma BeginRefsOk(s: State, t: Tid, n: Id, refs: nat)
    requires Typed(s) && At(s, t, Idle) && Beside(s, t, n) && s.nodes[n].refs > 0 && IsHandle(s.nodes[n].kind)
    ensures DeltaOk(s, t, One(Idle, n, s.nodes[n].(refs := refs)))
  {
  }

  lemma BeginDestroyOk(s: State, t: Tid, n: Id)
    requires Typed(s) && At(s, t, Idle) && Unowned(s, n) && IsHandle(s.nodes[n].kind) && s.nodes[n].published
    ensures DeltaOk(s, t, Quiet(CloseWait(n, true)))
  {
  }

  lemma BeginFreeLocal(s: State, t: Tid, w: Id)
    requires Typed(s) && At(s, t, Idle) && Beside(s, t, w) && Unowned(s, w) && !IsHandle(s.nodes[w].kind)
    requires s.nodes[w].driver.None? && !LiveSub(s.nodes[w])
    ensures LocalOk(s, t, One(Idle, w, s.nodes[w].(freed := true)))
  {
  }

  lemma BeginFreeGlobal(s: State, t: Tid, w: Id)
    requires Typed(s) && At(s, t, Idle) && Beside(s, t, w) && Unowned(s, w) && !IsHandle(s.nodes[w].kind)
    requires s.nodes[w].driver.None? && !LiveSub(s.nodes[w])
    ensures GlobalOk(s, t, One(Idle, w, s.nodes[w].(freed := true)))
  {
  }

  lemma BeginFreeOk(s: State, t: Tid, w: Id)
    requires Typed(s) && At(s, t, Idle) && Beside(s, t, w) && Unowned(s, w) && !IsHandle(s.nodes[w].kind)
    requires s.nodes[w].driver.None? && !LiveSub(s.nodes[w])
    ensures DeltaOk(s, t, One(Idle, w, s.nodes[w].(freed := true)))
  {
    BeginFreeLocal(s, t, w);
    BeginFreeGlobal(s, t, w);
  }

  lemma BeginDropLocal(s: State, t: Tid, w: Id)
    requires Typed(s) && At(s, t, Idle) && Beside(s, t, w) && !IsHandle(s.nodes[w].kind) && s.nodes[w].refs > 0
    ensures LocalOk(s, t, One(DropCheck(w), w, s.nodes[w].(refs := 0, dropper := Some(t))))
  {
  }

  lemma BeginDropGlobal(s: State, t: Tid, w: Id)
    requires Typed(s) && At(s, t, Idle) && Beside(s, t, w) && !IsHandle(s.nodes[w].kind) && s.nodes[w].refs > 0
    ensures GlobalOk(s, t, One(DropCheck(w), w, s.nodes[w].(refs := 0, dropper := Some(t))))
  {
  }

  lemma BeginDropOk(s: State, t: Tid, w: Id)
    requires Typed(s) && At(s, t, Idle) && Beside(s, t, w) && !IsHandle(s.nodes[w].kind) && s.nodes[w].refs > 0
    ensures DeltaOk(s, t, One(DropCheck(w), w, s.nodes[w].(refs := 0, dropper := Some(t))))
  {
    BeginDropLocal(s, t, w);
    BeginDropGlobal(s, t, w);
  }

  lemma BeginNotifyOk(s: State, t: Tid, w: Id)
    requires Typed(s) && At(s, t, Idle) && HasSub(s.nodes, w) && Callable(s.nodes[w])
    ensures DeltaOk(s, t, Quiet(CallbackCheck(w)))
  {
  }

  lemma ConnectOk(s: State, t: Tid)
    requires Typed(s) && At(s, t, Idle)
    ensures DeltaOk(s, t, BeginDelta(s.nodes, t, Connect))
  {
  }

  /** An unowned node is nobody's to create or tear down, and a subscription among them is not live. */
  lemma UnownedAtRest(s: State, n: Id)
    requires Inv(s) && Unowned(s, n)
    ensures !IsHandle(s.nodes[n].kind) ==> s.nodes[n].driver.None? && !LiveSub(s.nodes[n])
    ensures IsHandle(s.nodes[n].kind) ==> s.nodes[n].published
  {
    NodeFacts(s, n);
    DriverFacts(s, n);
  }

  lemma BeginHeldOk(s: State, t: Tid, op: Op)
    requires Inv(s) && CanBegin(s, t, op) && (op.Work? || op.Open? || op.Subscribe? || op.Close? || op.End? || op.Ack?)
    ensures DeltaOk(s, t, BeginDelta(s.nodes, t, op))
  {
    AtFacts(s, t);
    NodeFacts(s, op.n);
    BeginQuietOk(s, t, op.n, BeginDelta(s.nodes, t, op).pc);
  }

  lemma BeginWrapperOk(s: State, t: Tid, op: Op)
    requires Inv(s) && CanBegin(s, t, op) && (op.Share? || op.Drop?)
    ensures DeltaOk(s, t, BeginDelta(s.nodes, t, op))
  {
    AtFacts(s, t);
    NodeFacts(s, op.n);
    BesideFacts(s, t, op.n);
    BeginRefsOk(s, t, op.n, if op.Share? then s.nodes[op.n].refs + 1 else s.nodes[op.n].refs - 1);
  }

  lemma BeginDroppingOk(s: State, t: Tid, w: Id)
    requires Inv(s) && CanBegin(s, t, DropWatch(w))
    ensures DeltaOk(s, t, BeginDelta(s.nodes, t, DropWatch(w)))
  {
    AtFacts(s, t);
    NodeFacts(s, w);
    BesideFacts(s, t, w);
    BeginDropOk(s, t, w);
  }

  lemma BeginReclaimOk(s: State, t: Tid, n: Id)
    requires Inv(s) && CanBegin(s, t, Destroy(n))
    ensures DeltaOk(s, t, BeginDelta(s.nodes, t, Destroy(n)))
  {
    AtFacts(s, t);
    UnownedAtRest(s, n);
    if IsHandle(s.nodes[n].kind) {
      BeginDestroyOk(s, t, n);
    } else {
      BesideFacts(s, t, n);
      BeginFreeOk(s, t, n);
    }
  }

  lemma BeginOk(s: State, t: Tid, op: Op)
    requires Inv(s) && CanBegin(s, t, op)
    ensures DeltaOk(s, t, BeginDelta(s.nodes, t, op))
  {
    AtFacts(s, t);
    match op
    case Connect => ConnectOk(s, t);
    case Destroy(n) => BeginReclaimOk(s, t, n);
    case Notify(w) => BeginNotifyOk(s, t, w);
    case Share(_) => BeginWrapperOk(s, t, op);
    case Drop(_) => BeginWrapperOk(s, t, op);
    case DropWatch(w) => BeginDroppingOk(s, t, w);
    case _ => BeginHeldOk(s, t, op);
  }

  // ---------------------------------------------------------------- every action

  lemma OpeningOk(s: State, t: Tid, ok: bool)
    requires Inv(s) && t < |s.threads| && Opens(s.threads[t]) && Ready(s, t)
    ensures DeltaOk(s, t, OpenAdvance(s.nodes, t, s.threads[t], ok))
  {
    AtFacts(s, t);
    match s.threads[t]
    case UseWait(n) => BesideFacts(s, t, n); UseWaitOk(s, t, n);
    case UseBody(n) => BesideFacts(s, t, n); UseBodyOk(s, t, n);
    case OpenWait(p) => BesideFacts(s, t, p); OpenWaitOk(s, t, p);
    case OpenBody(p) => BesideFacts(s, t, p); if ok { OpenedOk(s, t, p); } else { OpenFailOk(s, t, p); }
    case OpenAdd(p, c) => NodeFacts(s, c); BesideFacts(s, t, p); MineFacts(s, t, c); OpenAddOk(s, t, p, c);
  }

  lemma SubAddingOk(s: State, t: Tid, p: Id)
    requires Inv(s) && t < |s.threads| && s.threads[t] == SubAdd(p)
    ensures HasHandle(s.nodes, p) && DeltaOk(s, t, SubAddDelta(s.nodes, t, p))
  {
    AtFacts(s, t);
    BesideFacts(s, t, p);
    SubAddLocal(s, t, p);
    SubAddGlobal(s, t, p);
  }

  /** The handle under which `t` creates a subscription, and the subscription. */
  lemma CreatedFacts(s: State, t: Tid, p: Id, w: Id)
    requires Inv(s) && t < |s.threads| && Driven(s.threads[t]) == Some(w) && Creates(s.threads[t]) &&
             s.threads[t].p == p
    ensures At(s, t, s.threads[t]) && Beside(s, t, p) && Mine(s, t, w)
  {
    AtFacts(s, t);
    BesideFacts(s, t, p);
    MineFacts(s, t, w);
  }

  lemma SubWaitingOk(s: State, t: Tid, p: Id, w: Id)
    requires Inv(s) && t < |s.threads| && s.threads[t] == SubWait(p, w) && p < |s.nodes| && s.nodes[p].cell.CanShare()
    ensures w < |s.nodes|
    ensures DeltaOk(s, t, EnterDelta(s.nodes, t, p, SubBody(p, w), Write(w, s.nodes[w].(driver := None))))
  {
    CreatedFacts(s, t, p, w);
    SubWaitOk(s, t, p, w);
  }

  lemma SubRegisteringOk(s: State, t: Tid, p: Id, w: Id, ok: bool)
    requires Inv(s) && t < |s.threads| && s.threads[t] == SubBody(p, w)
    ensures p < |s.nodes| && w < |s.nodes|
    ensures DeltaOk(s, t, if ok then RegisteredDelta(s.nodes, p, w) else LeaveDelta(s.nodes, t, p, SubFail(p, w)))
  {
    CreatedFacts(s, t, p, w);
    if ok { RegisteredOk(s, t, p, w); } else { RegisterFailOk(s, t, p, w); }
  }

  lemma SubLeavingOk(s: State, t: Tid, p: Id, w: Id)
    requires Inv(s) && t < |s.threads| && s.threads[t] == SubLeave(p, w)
    ensures p < |s.nodes| && w < |s.nodes| && DeltaOk(s, t, SubLeaveDelta(s.nodes, t, p, w))
  {
    CreatedFacts(s, t, p, w);
    SubLeaveOk(s, t, p, w);
  }

  lemma SubFailingOk(s: State, t: Tid, p: Id, w: Id)
    requires Inv(s) && t < |s.threads| && s.threads[t] == SubFail(p, w)
    ensures w < |s.nodes| && DeltaOk(s, t, SubFailDelta(s.nodes, p, w))
  {
    CreatedFacts(s, t, p, w);
    SubFailOk(s, t, p, w);
  }

  lemma SubFailRemovingOk(s: State, t: Tid, p: Id, w: Id)
    requires Inv(s) && t < |s.threads| && s.threads[t] == SubFailRemove(p, w)
    ensures p < |s.nodes| && w < |s.nodes| && DeltaOk(s, t, RemoveDelta(s.nodes, p, w))
  {
    CreatedFacts(s, t, p, w);
    SubFailRemoveLocal(s, t, p, w);
    SubFailRemoveGlobal(s, t, p, w);
  }

  lemma CreatingOk(s: State, t: Tid, ok: bool)
    requires Inv(s) && t < |s.threads| && Creates(s.threads[t]) && Ready(s, t)
    ensures DeltaOk(s, t, CreateAdvance(s.nodes, t, s.threads[t], ok))
  {
    match s.threads[t]
    case SubAdd(p) => SubAddingOk(s, t, p);
    case SubWait(p, w) => SubWaitingOk(s, t, p, w);
    case SubBody(p, w) => SubRegisteringOk(s, t, p, w, ok);
    case SubLeave(p, w) => SubLeavingOk(s, t, p, w);
    case SubFail(p, w) => SubFailingOk(s, t, p, w);
    case SubFailRemove(p, w) => SubFailRemovingOk(s, t, p, w);
  }

  lemma CloseWaitingOk(s: State, t: Tid, n: Id, dtor: bool)
    requires Inv(s) && t < |s.threads| && s.threads[t] == CloseWait(n, dtor)
    requires n < |s.nodes| && s.nodes[n].cell.CanExclude()
    ensures DeltaOk(s, t, CloseWaitDelta(s.nodes, t, n, dtor))
  {
    AtFacts(s, t);
    NodeFacts(s, n);
    if dtor {
      DoomedAtRest(s, t, n);
    }
    if s.nodes[n].cell.closed {
      if dtor {
        BesideFacts(s, t, n);
        DtorReturnOk(s, t, n);
      } else {
        CloseReturnOk(s, t, n);
      }
    } else {
      OpenAtRest(s, n);
      BesideFacts(s, t, n);
      CloseWaitLocal(s, t, n, dtor);
      CloseWaitGlobal(s, t, n, dtor);
    }
  }

  lemma CloseRemovingOk(s: State, t: Tid, n: Id, dtor: bool)
    requires Inv(s) && t < |s.threads| && s.threads[t] == CloseRemove(n, dtor)
    ensures n < |s.nodes| && NodeTyped(s.nodes, n)
    ensures DeltaOk(s, t, CloseRemoveDelta(s.nodes, n, dtor))
  {
    AtFacts(s, t);
    MineFacts(s, t, n);
    NodeFacts(s, n);
    match s.nodes[n].up
    case None => CloseRemoveRootOk(s, t, n, dtor);
    case Some(p) =>
      ParentFacts(s, t, n, p);
      CloseRemoveLocal(s, t, n, dtor, p);
      CloseRemoveGlobal(s, t, n, dtor, p);
  }

  lemma CloseLoadingOk(s: State, t: Tid, n: Id)
    requires Inv(s) && t < |s.threads| && s.threads[t] == CloseLoad(n)
    ensures n < |s.nodes| && DeltaOk(s, t, CloseLoadDelta(s.nodes, n))
  {
    AtFacts(s, t);
    BesideFacts(s, t, n);
    CloseLoadOk(s, t, n);
  }

  lemma CloseBodyingOk(s: State, t: Tid, n: Id, dtor: bool, h: Handle)
    requires Inv(s) && t < |s.threads| && s.threads[t] == CloseBody(n, dtor, h)
    ensures n < |s.nodes| && DeltaOk(s, t, CloseBodyDelta(s.nodes, n, dtor))
  {
    AtFacts(s, t);
    MineFacts(s, t, n);
    CloseBodyOk(s, t, n, dtor, h);
  }

  lemma CloseUnlockingOk(s: State, t: Tid, n: Id, dtor: bool)
    requires Inv(s) && t < |s.threads| && s.threads[t] == CloseUnlock(n, dtor)
    ensures n < |s.nodes| && DeltaOk(s, t, CloseUnlockDelta(s.nodes, n, dtor))
  {
    AtFacts(s, t);
    if dtor {
      CloseUnlockPublished(s, t, n);
      DoomedAtRest(s, t, n);
    }
    BesideFacts(s, t, n);
    CloseUnlockOk(s, t, n, dtor);
  }

  lemma ClosingOk(s: State, t: Tid, ok: bool)
    requires Inv(s) && t < |s.threads| && Closes(s.threads[t]) && Ready(s, t)
    ensures DeltaOk(s, t, CloseAdvance(s.nodes, t, s.threads[t], ok))
  {
    match s.threads[t]
    case CloseLoad(n) => CloseLoadingOk(s, t, n);
    case CloseWait(n, dtor) => CloseWaitingOk(s, t, n, dtor);
    case CloseBody(n, dtor, h) => CloseBodyingOk(s, t, n, dtor, h);
    case CloseRemove(n, dtor) => CloseRemovingOk(s, t, n, dtor);
    case CloseUnlock(n, dtor) => CloseUnlockingOk(s, t, n, dtor);
  }

  lemma ExchangingOk(s: State, t: Tid, w: Id)
    requires Inv(s) && t < |s.threads| && s.threads[t] == EndExchange(w)
    ensures HasSub(s.nodes, w) && NodeTyped(s.nodes, w)
    ensures DeltaOk(s, t, EndExchangeDelta(s.nodes, t, w, UpOf(s.nodes, w)))
  {
    AtFacts(s, t);
    NodeFacts(s, w);
    if !s.nodes[w].ended {
      LiveAtRest(s, w);
    }
    BesideFacts(s, t, w);
    EndExchangeOk(s, t, w, UpOf(s.nodes, w));
  }

  lemma UnregisterWaitingOk(s: State, t: Tid, w: Id, p: Id)
    requires Inv(s) && t < |s.threads| && s.threads[t] == EndUnregisterWait(w, p)
    requires p < |s.nodes| && s.nodes[p].cell.CanShare()
    ensures w < |s.nodes|
    ensures DeltaOk(s, t, EnterDelta(s.nodes, t, p, EndUnregisterBody(w, p), Stranded(s.nodes, w)))
  {
    AtFacts(s, t);
    MineFacts(s, t, w);
    ParentFacts(s, t, w, p);
    EndUnregisterWaitLocal(s, t, w, p);
    EndUnregisterWaitGlobal(s, t, w, p);
  }

  lemma UnregisteringOk(s: State, t: Tid, w: Id, p: Id)
    requires Inv(s) && t < |s.threads| && s.threads[t] == EndUnregisterBody(w, p)
    ensures PcTyped(s.nodes, s.threads[t]) && NodeTyped(s.nodes, w) && NodeTyped(s.nodes, p)
    ensures DeltaOk(s, t, UnregisterDelta(s.nodes, t, p, w, AfterUnregister(s.nodes, p, w)))
  {
    AtFacts(s, t);
    NodeFacts(s, p);
    MineFacts(s, t, w);
    ParentFacts(s, t, w, p);
    EndUnregisterBodyLocal(s, t, w, p, AfterUnregister(s.nodes, p, w));
    EndUnregisterBodyGlobal(s, t, w, p, AfterUnregister(s.nodes, p, w));
  }

  lemma DropCheckingOk(s: State, t: Tid, w: Id)
    requires Inv(s) && t < |s.threads| && s.threads[t] == DropCheck(w)
    ensures HasSub(s.nodes, w) && DeltaOk(s, t, Quiet(if s.nodes[w].ended then Idle else EndExchange(w)))
  {
    AtFacts(s, t);
    BesideFacts(s, t, w);
    DropCheckOk(s, t, w);
  }

  lemma EndingOk(s: State, t: Tid, ok: bool)
    requires Inv(s) && t < |s.threads| && Ends(s.threads[t]) && Ready(s, t)
    ensures DeltaOk(s, t, EndAdvance(s.nodes, t, s.threads[t], ok))
  {
    match s.threads[t]
    case DropCheck(w) => DropCheckingOk(s, t, w);
    case EndExchange(w) => ExchangingOk(s, t, w);
    case EndUnregisterWait(w, p) => UnregisterWaitingOk(s, t, w, p);
    case EndUnregisterBody(w, p) => UnregisteringOk(s, t, w, p);
  }

  /** The subscription that `t` tears down, its parent and, for a watch, the cluster. */
  lemma ReleasedFacts(s: State, t: Tid, w: Id) returns (p: Id)
    requires Inv(s) && t < |s.threads| && Releases(s.threads[t]) && s.threads[t].w == w
    ensures At(s, t, s.threads[t]) && Mine(s, t, w) && NodeTyped(s.nodes, w) && p == UpOf(s.nodes, w) && Beside(s, t, p)
    ensures s.threads[t].EndFlushWait? || s.threads[t].EndFlushBody? ==> Beside(s, t, s.threads[t].k)
  {
    AtFacts(s, t);
    MineFacts(s, t, w);
    NodeFacts(s, w);
    p := UpOf(s.nodes, w);
    ParentFacts(s, t, w, p);
    if s.threads[t].EndFlushWait? || s.threads[t].EndFlushBody? {
      ParentFacts(s, t, p, s.threads[t].k);
    }
  }

  lemma FlushWaitingOk(s: State, t: Tid, w: Id, k: Id)
    requires Inv(s) && t < |s.threads| && s.threads[t] == EndFlushWait(w, k) && k < |s.nodes| &&
             s.nodes[k].cell.CanShare()
    ensures w < |s.nodes| && DeltaOk(s, t, EnterDelta(s.nodes, t, k, EndFlushBody(w, k), Stranded(s.nodes, w)))
  {
    var p := ReleasedFacts(s, t, w);
    EndFlushWaitLocal(s, t, w, p, k);
    EndFlushWaitGlobal(s, t, w, p, k);
  }

  lemma FlushingOk(s: State, t: Tid, w: Id, k: Id)
    requires Inv(s) && t < |s.threads| && s.threads[t] == EndFlushBody(w, k)
    requires forall u :: 0 <= u < |s.threads| ==> InCallback(s.threads[u]) != Some(w)
    ensures w < |s.nodes| && k < |s.nodes| && DeltaOk(s, t, FlushDelta(s.nodes, t, k, w))
  {
    var p := ReleasedFacts(s, t, w);
    EndFlushBodyLocal(s, t, w, k);
    EndFlushBodyGlobal(s, t, w, k);
  }

  lemma EndReleasingOk(s: State, t: Tid, w: Id)
    requires Inv(s) && t < |s.threads| && s.threads[t] == EndRelease(w)
    ensures w < |s.nodes| && NodeTyped(s.nodes, w) && !IsHandle(s.nodes[w].kind)
    ensures DeltaOk(s, t, ReleaseDelta(s.nodes, w, UpOf(s.nodes, w)))
  {
    var p := ReleasedFacts(s, t, w);
    EndReleaseOk(s, t, w, p);
  }

  lemma EndRemovingOk(s: State, t: Tid, w: Id, p: Id)
    requires Inv(s) && t < |s.threads| && s.threads[t] == EndRemove(w, p)
    ensures w < |s.nodes| && p < |s.nodes| && DeltaOk(s, t, RemoveDelta(s.nodes, p, w))
  {
    var _ := ReleasedFacts(s, t, w);
    EndRemoveLocal(s, t, w, p);
    EndRemoveGlobal(s, t, w, p);
  }

  lemma ReleasingOk(s: State, t: Tid, ok: bool)
    requires Inv(s) && t < |s.threads| && Releases(s.threads[t]) && Ready(s, t)
    ensures DeltaOk(s, t, ReleaseAdvance(s.nodes, t, s.threads[t], ok))
  {
    match s.threads[t]
    case EndFlushWait(w, k) => FlushWaitingOk(s, t, w, k);
    case EndFlushBody(w, k) => FlushingOk(s, t, w, k);
    case EndRelease(w) => EndReleasingOk(s, t, w);
    case EndRemove(w, p) => EndRemovingOk(s, t, w, p);
  }

  lemma AcknowledgingOk(s: State, t: Tid, w: Id, p: Id)
    requires Inv(s) && t < |s.threads| && s.threads[t] == CallbackAckWait(w, p) && p < |s.nodes| &&
             s.nodes[p].cell.CanShare()
    ensures w < |s.nodes|
    ensures DeltaOk(s, t, EnterDelta(s.nodes, t, p, CallbackAckBody(w, p), Write(w, s.nodes[w].(ackThrew := true))))
  {
    AtFacts(s, t);
    NodeFacts(s, p);
    if s.nodes[p].cell.Usable() {
      BesideFacts(s, t, p);
      CallbackAckWaitLocal(s, t, w, p);
      CallbackAckWaitGlobal(s, t, w, p);
    } else {
      NodeFacts(s, w);
      CallableAttached(s, w);
      CallbackAckThrowLocal(s, t, w, p);
      CallbackAckThrowGlobal(s, t, w, p);
    }
  }

  lemma AcknowledgedOk(s: State, t: Tid, w: Id, p: Id)
    requires Inv(s) && t < |s.threads| && s.threads[t] == CallbackAckBody(w, p)
    ensures p < |s.nodes| && DeltaOk(s, t, LeaveDelta(s.nodes, t, p, Idle))
  {
    AtFacts(s, t);
    NodeFacts(s, p);
    BesideFacts(s, t, p);
    CallbackAckBodyLocal(s, t, w, p);
    CallbackAckBodyGlobal(s, t, w, p);
  }

  lemma CheckingOk(s: State, t: Tid, w: Id)
    requires Inv(s) && t < |s.threads| && s.threads[t] == CallbackCheck(w)
    ensures w < |s.nodes| && DeltaOk(s, t, Quiet(if s.nodes[w].ended then Idle else CallbackPost(w)))
  {
    AtFacts(s, t);
    CallbackCheckOk(s, t, w);
  }

  lemma PostingOk(s: State, t: Tid, w: Id, ok: bool)
    requires Inv(s) && t < |s.threads| && s.threads[t] == CallbackPost(w)
    ensures w < |s.nodes| && NodeTyped(s.nodes, w) && !IsHandle(s.nodes[w].kind)
    ensures DeltaOk(s, t, Quiet(if ok then Idle else CallbackAckWait(w, UpOf(s.nodes, w))))
  {
    AtFacts(s, t);
    NodeFacts(s, w);
    CallbackPostOk(s, t, w, UpOf(s.nodes, w), ok);
  }

  lemma NotifyingOk(s: State, t: Tid, ok: bool)
    requires Inv(s) && t < |s.threads| && Notifies(s.threads[t]) && Ready(s, t)
    ensures DeltaOk(s, t, NotifyAdvance(s.nodes, t, s.threads[t], ok))
  {
    match s.threads[t]
    case CallbackCheck(w) => CheckingOk(s, t, w);
    case CallbackPost(w) => PostingOk(s, t, w, ok);
    case CallbackAckWait(w, p) => AcknowledgingOk(s, t, w, p);
    case CallbackAckBody(w, p) => AcknowledgedOk(s, t, w, p);
  }

  lemma JsAckingOk(s: State, t: Tid, ok: bool)
    requires Inv(s) && t < |s.threads| && Acks(s.threads[t]) && Ready(s, t)
    ensures DeltaOk(s, t, AckAdvance(s.nodes, t, s.threads[t], ok))
  {
    AtFacts(s, t);
    var w, p := s.threads[t].w, s.threads[t].p;
    ParentFacts(s, t, w, p);
    if s.threads[t].AckWait? {
      AckWaitLocal(s, t, w, p);
      AckWaitGlobal(s, t, w, p);
    } else {
      AckBodyLocal(s, t, w, p);
      AckBodyGlobal(s, t, w, p);
    }
  }

  lemma CloseUnlockPublished(s: State, t: Tid, n: Id)
    requires Inv(s) && t < |s.threads| && s.threads[t].CloseUnlock? && s.threads[t].n == n && n < |s.nodes|
    ensures s.nodes[n].published
  {
    AtFacts(s, t);
    NodeFacts(s, n);
    DriverFacts(s, n);
  }

  lemma StepDeltaOk(s: State, step: Step)
    requires Inv(s) && Enabled(s, step)
    ensures DeltaOk(s, step.t, StepDelta(s, step))
  {
    match step
    case Begin(t, op) => BeginOk(s, t, op);
    case Advance(t, ok) =>
      var pc := s.threads[t];
      if Opens(pc) { OpeningOk(s, t, ok); }
      else if Creates(pc) { CreatingOk(s, t, ok); }
      else if Closes(pc) { ClosingOk(s, t, ok); }
      else if Ends(pc) { EndingOk(s, t, ok); }
      else if Releases(pc) { ReleasingOk(s, t, ok); }
      else if Acks(pc) { JsAckingOk(s, t, ok); }
      else { NotifyingOk(s, t, ok); }
  }

  // ---------------------------------------------------------------- the invariant

  lemma ClosesOnlyWhenAllowed(s: State, step: Step, p: Id)
    requires Inv(s) && Enabled(s, step) && p < |s.nodes|
    requires !s.nodes[p].cell.closed && StepDelta(s, step).After(p, s.nodes[p]).cell.closed
    ensures MayClose(s, p)
  {
    StepDeltaOk(s, step);
    var t, d := step.t, StepDelta(s, step);
    assert WriteSafe(s, t, d, if d.second.Write? && d.second.n == p then d.second else d.first);
    AcquiredWhenAllowed(s, t, p);
  }

  /** `close_now` follows a passed busy check, or runs in a destructor whose children are gone. */
  lemma AcquiredWhenAllowed(s: State, t: Tid, p: Id)
    requires Inv(s) && t < |s.threads| && s.threads[t].CloseWait? && s.threads[t].n == p
    requires p < |s.nodes| && !s.nodes[p].cell.closed
    ensures MayClose(s, p)
  {
    AtFacts(s, t);
    if s.threads[t].dtor {
      forall c | 0 <= c < |s.nodes| && s.nodes[c].up == Some(p)
        ensures !Attached(s.nodes[c])
      {
        NodeFacts(s, c);
        assert s.nodes[c].freed;
      }
    } else {
      assert WindowOk(s, t);
    }
  }

  lemma StepKeepsInv(s: State, step: Step)
    requires Inv(s) && Enabled(s, step)
    ensures Inv(Apply(s, step))
    ensures SameShape(s.nodes, Apply(s, step).nodes)
  {
    var t, d := step.t, StepDelta(s, step);
    StepDeltaOk(s, step);
    forall p | 0 <= p < |s.nodes| && !s.nodes[p].cell.closed && d.After(p, s.nodes[p]).cell.closed
      ensures MayClose(s, p)
    {
      ClosesOnlyWhenAllowed(s, step, p);
    }
    PatchKeepsInv(s, t, d);
  }

  lemma PatchKeepsInv(s: State, t: Tid, d: Delta)
    requires Inv(s) && t < |s.threads| && DeltaOk(s, t, d)
    requires forall p :: 0 <= p < |s.nodes| && !s.nodes[p].cell.closed && d.After(p, s.nodes[p]).cell.closed ==>
             MayClose(s, p)
    ensures Inv(Observe(Patch(s, t, d)))
    ensures SameShape(s.nodes, Patch(s, t, d).nodes)
  {
    var s1 := Patch(s, t, d);
    PatchTyped(s, t, d);
    PatchStages(s, t, d);
    PatchLocks(s, t, d);
    PatchCounts(s, t, d);
    SafeKept(s, t, d);
    MemKept(s, t, d);
    CallsKept(s, t, d, Observe(s1));
    ObserveKeeps(s1);
  }

  /** Observation only adds to the history, which the other parts of the invariant do not read. */
  lemma ObserveKeeps(s: State)
    requires Typed(s) && StagesOk(s) && LocksOk(s) && CountsOk(s) && MemOk(s)
    ensures Typed(Observe(s)) && StagesOk(Observe(s)) && LocksOk(Observe(s)) && CountsOk(Observe(s)) &&
            MemOk(Observe(s))
  {
    var s' := Observe(s);
    forall n | 0 <= n < |s'.nodes|
      ensures NodeOk(s', n) && LockOk(s', n) && MemNode(s', n)
    {
      assert NodeOk(s, n) && LockOk(s, n) && MemNode(s, n);
    }
    forall t | 0 <= t < |s'.threads|
      ensures DriverOk(s', t) && HolderOk(s', t) && MemThread(s', t)
    {
      assert DriverOk(s, t) && HolderOk(s, t) && MemThread(s, t);
    }
  }
}
