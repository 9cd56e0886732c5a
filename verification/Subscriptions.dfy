/**
 `Create` and `Data::close` of the three subscriptions, run by a thread that meets no contention,
 over the `HandleState` objects of module Handles. Concurrent runs are the subject of module Lifetime.
 */
module Subscriptions {
  import opened Wrappers
  import opened Handles

  datatype Call = Register(h: Handle) | Unregister(h: Handle) | Flush(h: Handle) | ReleaseCallback

  /** What a subscription's operations touch: its parent's cell, its own flag, and the native calls made for it. */
  datatype World = World(parent: Cell, closed: bool, calls: seq<Call>)

  /** `Create` after the thread-safe function has been made; `rc` is the native registration's result. */
  function Created(parent: Cell, rc: int): (Result<int, CallError>, World)
  {
    var counted := parent.AddChild();
    if !parent.Usable() then (Err(Thrown(ResourceIsClosed)), World(counted, false, []))
    else if rc < 0 then
      (Err(Ceph(rc)), World(counted.RemoveChild(), true, [Register(parent.handle.value), ReleaseCallback]))
    else (Ok(rc), World(counted, false, [Register(parent.handle.value)]))
  }

  /** `Data::close`; `flusher` is the cluster of an object watch, and `rc`, `flushRc` the native results. */
  function Closed(w: World, flusher: Option<Cell>, rc: int, flushRc: int): (Result<int, UseError>, World)
  {
    if w.closed then (Ok(0), w)
    else if !w.parent.Usable() then (Err(ResourceIsClosed), w.(closed := true))
    else
      var unregistered := w.(closed := true, calls := w.calls + [Unregister(w.parent.handle.value)]);
      match flusher
      case None =>
        (Ok(rc), unregistered.(parent := w.parent.RemoveChild(), calls := unregistered.calls + [ReleaseCallback]))
      case Some(cluster) =>
        if !cluster.Usable() then (Err(ResourceIsClosed), unregistered)
        else (Ok(if rc < 0 then rc else flushRc),
              unregistered.(parent := w.parent.RemoveChild(),
                            calls := unregistered.calls + [Flush(cluster.handle.value), ReleaseCallback]))
  }

  /**
   What `Create` comes to. A closed parent: it throws, the child stays counted and nothing native happens.
   A refused registration: the parent is as before, the flag is set and the callback released. A success:
   one child more, and the flag clear.
   */
  lemma CreatedOutcome(parent: Cell, rc: int)
    requires parent.children < COUNTER_LIMIT
    ensures var (r, w) := Created(parent, rc);
            if parent.closed || parent.handle.None? then
              r == Err(Thrown(ResourceIsClosed)) && w.parent == parent.AddChild() && !w.closed && w.calls == []
            else if rc < 0 then
              r == Err(Ceph(rc)) && w.parent == parent && w.closed
              && w.calls == [Register(parent.handle.value), ReleaseCallback]
            else
              r == Ok(rc) && w.parent == parent.AddChild() && !w.closed && w.calls == [Register(parent.handle.value)]
  {
    AddRemoveCancel(parent);
  }

  /**
   What the first `close` comes to. It throws exactly if the parent, or the cluster it flushes through, is
   closed, in the latter case after the unregister call; then the child stays counted and the callback is
   never released. Otherwise its code is the unregister call's if that failed or there is no flush, else the
   flush's; the native calls are unregister, flush and release, in this order, and the parent has one child
   less.
   */
  lemma ClosedOutcome(w: World, flusher: Option<Cell>, rc: int, flushRc: int)
    requires !w.closed && w.parent.children < COUNTER_LIMIT
    ensures var (r, w') := Closed(w, flusher, rc, flushRc);
            && w'.closed
            && (r.Err? <==> w.parent.closed || w.parent.handle.None?
                            || (flusher.Some? && (flusher.value.closed || flusher.value.handle.None?)))
            && (r.Err? ==>
                  && w'.parent == w.parent
                  && w'.calls == w.calls + (if w.parent.closed || w.parent.handle.None? then []
                                            else [Unregister(w.parent.handle.value)]))
            && (r.Ok? ==>
                  && r.value == (if flusher.None? || rc < 0 then rc else flushRc)
                  && w'.parent.AddChild() == w.parent
                  && w'.calls == w.calls + [Unregister(w.parent.handle.value)]
                                 + (if flusher.Some? then [Flush(flusher.value.handle.value)] else [])
                                 + [ReleaseCallback])
  {
    AddRemoveCancel(w.parent);
  }

  /** A second `close` answers 0 and changes nothing. */
  lemma ClosedAgain(w: World, flusher: Option<Cell>, rc: int, flushRc: int,
                    flusher': Option<Cell>, rc': int, flushRc': int)
    ensures var (_, w1) := Closed(w, flusher, rc, flushRc);
            Closed(w1, flusher', rc', flushRc') == (Ok(0), w1)
  {
  }

  /** Where `Create` and the first `close` both go through, the parent is as it was before. */
  lemma CreateCloseRestores(parent: Cell, flusher: Option<Cell>, createRc: int, rc: int, flushRc: int)
    requires parent.children < COUNTER_LIMIT
    ensures var (created, w) := Created(parent, createRc);
            var (closed, w') := Closed(w, flusher, rc, flushRc);
            created.Ok? ==> (w'.parent == parent <==> closed.Ok?)
  {
    CreatedOutcome(parent, createRc);
    AddRemoveCancel(parent);
    if Created(parent, createRc).0.Ok? {
      ClosedOutcome(Created(parent, createRc).1, flusher, rc, flushRc);
    }
    assert parent.AddChild() != parent by { assert parent.AddChild().children != parent.children; }
  }

  /** `ObjectWatchWrap::Data`, `MonitorLogWrap::Data`, `ImageUpdateWatchWrap::Data`; only the first has a `flusher`. */
  class Data {
    const parent: HandleState
    const flusher: HandleState?
    var closed: bool
    var calls: seq<Call>

    ghost function Abs(): World
      reads this, parent
    {
      World(parent.Abs(), closed, calls)
    }

    ghost function FlushCell(): Option<Cell>
      reads if flusher == null then {} else {flusher}
    {
      if flusher == null then None else Some(flusher.Abs())
    }

    ghost predicate Valid()
      reads this, parent, if flusher == null then {} else {flusher}
    {
      && parent.Valid() && flusher != parent
      && (flusher != null ==> flusher.Valid())
    }

    /** No other thread holds a lock that this one needs. */
    ghost predicate Free(t: Tid)
      reads this, parent, if flusher == null then {} else {flusher}
    {
      && parent.Abs().CanShare() && t !in parent.readers
      && (flusher != null ==> flusher.Abs().CanShare() && t !in flusher.readers)
    }

    constructor (parent: HandleState, flusher: HandleState?)
      requires parent.Valid() && flusher != parent && (flusher != null ==> flusher.Valid())
      ensures Valid() && this.parent == parent && this.flusher == flusher
      ensures Abs() == World(old(parent.Abs()), false, [])
    {
      this.parent, this.flusher, closed, calls := parent, flusher, false, [];
    }

    method Register(t: Tid, rc: int) returns (r: Result<int, CallError>)
      requires Valid() && Free(t) && !closed && calls == []
      modifies this, parent
      ensures Valid() && (r, Abs()) == Created(old(parent.Abs()), rc)
    {
      EnterLeave(parent.Abs().AddChild(), t);
      parent.AddChild();
      var h := parent.EnterUse(t);
      if h.Err? {
        return Err(Thrown(h.error));
      }
      calls := [Call.Register(h.value)];
      parent.LeaveUse(t);
      if rc < 0 {
        closed := true;
        calls := [Call.Register(h.value), ReleaseCallback];
        parent.RemoveChild();
        return Err(Ceph(rc));
      }
      return Ok(rc);
    }

    method Close(t: Tid, rc: int, flushRc: int) returns (r: Result<int, UseError>)
      requires Valid() && Free(t)
      modifies this, parent, if flusher == null then {} else {flusher}
      ensures Valid() && (r, Abs()) == Closed(old(Abs()), old(FlushCell()), rc, flushRc)
      ensures FlushCell() == old(FlushCell())
    {
      if closed {
        return Ok(0);
      }
      EnterLeave(parent.Abs(), t);
      closed := true;
      var h := parent.EnterUse(t);
      if h.Err? {
        return Err(h.error);
      }
      calls := calls + [Unregister(h.value)];
      parent.LeaveUse(t);
      var result := rc;
      if flusher != null {
        EnterLeave(flusher.Abs(), t);
        var k := flusher.EnterUse(t);
        if k.Err? {
          return Err(k.error);
        }
        calls := calls + [Flush(k.value)];
        assert calls + [ReleaseCallback] == old(calls) + [Unregister(h.value)] + [Flush(k.value), ReleaseCallback];
        flusher.LeaveUse(t);
        result := if rc < 0 then rc else flushRc;
      }
      calls := calls + [ReleaseCallback];
      parent.RemoveChild();
      return Ok(result);
    }
  }
}
