/**
 The native handle wrapper of src/common.h: a reader-writer lock, a `closed_` flag, a nullable
 handle and an atomic 32-bit child counter.

 `Cell` is the abstract value; its functions are the atomic actions that the interleaving model
 of module Lifetime schedules. The class `HandleState` is the object itself, with its methods
 run by a thread that meets no contention.
 */
module Handles {
  import opened Wrappers

  type Handle = nat
  type Tid = nat

  const COUNTER_LIMIT: nat := 0x1_0000_0000
  const EBUSY := 16

  datatype UseError = ResourceIsClosed

  datatype CallError = Thrown(error: UseError) | Ceph(code: int)

  datatype Cell = Cell(handle: Option<Handle>, closed: bool, children: nat,
                       readers: set<Tid>, writer: Option<Tid>)
  {
    /** A shared lock can be granted. */
    predicate CanShare() { writer.None? }

    /** An exclusive lock can be granted. */
    predicate CanExclude() { writer.None? && readers == {} }

    /** The test `use` makes once it holds the shared lock. */
    predicate Usable() { !closed && handle.Some? }

    function Enter(t: Tid): Cell { this.(readers := readers + {t}) }

    function Leave(t: Tid): Cell { this.(readers := readers - {t}) }

    /** `close_now` up to the call of the close closure. */
    function BeginClose(t: Tid): Cell { this.(closed := true, handle := None, writer := Some(t)) }

    function EndClose(): Cell { this.(writer := None) }

    function AddChild(): Cell { this.(children := (children + 1) % COUNTER_LIMIT) }

    function RemoveChild(): Cell { this.(children := (children + COUNTER_LIMIT - 1) % COUNTER_LIMIT) }
  }

  function NewCell(handle: Option<Handle>): Cell { Cell(handle, false, 0, {}, None) }

  /** Registering and unregistering a child cancel, also across the 32-bit wrap. */
  lemma AddRemoveCancel(c: Cell)
    requires c.children < COUNTER_LIMIT
    ensures c.AddChild().RemoveChild() == c
    ensures c.RemoveChild().AddChild() == c
  {
    if c.children == COUNTER_LIMIT - 1 {
      assert c.AddChild().children == 0;
    }
    if c.children == 0 {
      assert c.RemoveChild().children == COUNTER_LIMIT - 1;
    }
  }

  /** A `use` leaves the lock as it found it. */
  lemma EnterLeave(c: Cell, t: Tid)
    requires t !in c.readers
    ensures c.Enter(t).Leave(t) == c
  {
    assert c.Enter(t).Leave(t).readers == c.readers;
  }

  /**
   `HandleState<Handle>`. The close closure of a context or an image destroys the native object
   and decrements its parent's counter; `parent` is null for a cluster, whose closure only shuts
   the native handle down. The closure's return code is the parameter `rc`.
   */
  class HandleState {
    var handle: Option<Handle>
    var closed: bool
    var children: nat
    var readers: set<Tid>
    var writer: Option<Tid>
    const parent: HandleState?

    /** Native handles passed to the close closure, in order. */
    ghost var nativeCloses: seq<Handle>

    ghost function Abs(): Cell
      reads this
    {
      Cell(handle, closed, children, readers, writer)
    }

    /** The handle is nulled exactly when the flag is set, and the closure ran at most once. */
    ghost predicate Valid()
      reads this
    {
      && children < COUNTER_LIMIT
      && (closed ==> handle.None?)
      && (!closed ==> nativeCloses == [])
      && |nativeCloses| <= 1
      && parent != this
    }

    constructor (handle: Option<Handle>, parent: HandleState?)
      ensures Valid() && Abs() == NewCell(handle) && this.parent == parent && nativeCloses == []
    {
      this.handle, this.closed, this.children := handle, false, 0;
      this.readers, this.writer := {}, None;
      this.parent := parent;
      this.nativeCloses := [];
    }

    method AddChild()
      requires Valid()
      modifies this`children
      ensures Valid() && Abs() == old(Abs()).AddChild()
    {
      children := (children + 1) % COUNTER_LIMIT;
    }

    method RemoveChild()
      requires Valid()
      modifies this`children
      ensures Valid() && Abs() == old(Abs()).RemoveChild()
    {
      children := (children + COUNTER_LIMIT - 1) % COUNTER_LIMIT;
    }

    /** `use`, first half: take the shared lock and test; on failure the lock is released. */
    method EnterUse(t: Tid) returns (r: Result<Handle, UseError>)
      requires Valid() && Abs().CanShare() && t !in readers
      modifies this`readers
      ensures Valid()
      ensures old(Abs().Usable()) ==> r == Ok(old(handle).value) && Abs() == old(Abs()).Enter(t)
      ensures !old(Abs().Usable()) ==> r == Err(ResourceIsClosed) && Abs() == old(Abs())
    {
      readers := readers + {t};
      if closed || handle.None? {
        readers := readers - {t};
        return Err(ResourceIsClosed);
      }
      return Ok(handle.value);
    }

    /** `use`, second half: the body has run and the shared lock is released. */
    method LeaveUse(t: Tid)
      requires Valid() && t in readers
      modifies this`readers
      ensures Valid() && Abs() == old(Abs()).Leave(t)
    {
      readers := readers - {t};
    }

    /** `close_now`: at most one call ever reaches the native close, with the original handle. */
    method CloseNow(t: Tid, rc: int) returns (code: int)
      requires Valid() && Abs().CanExclude()
      requires parent != null ==> parent.Valid()
      modifies this, (if parent == null then {} else {parent})`children
      ensures Valid() && (parent != null ==> parent.Valid())
      ensures Abs() == old(Abs()).BeginClose(t).EndClose()
      ensures closed && handle.None? && children == old(children) && readers == old(readers) && writer.None?
      ensures old(handle).Some? ==> code == rc && nativeCloses == old(nativeCloses) + [old(handle).value]
      ensures old(handle).None? ==> code == 0 && nativeCloses == old(nativeCloses)
      ensures parent != null ==>
                parent.Abs() == if old(handle).Some? then old(parent.Abs()).RemoveChild() else old(parent.Abs())
    {
      writer := Some(t);
      if closed {
        writer := None;
        return 0;
      }
      closed := true;
      var saved := handle;
      handle := None;
      code := 0;
      if saved.Some? {
        nativeCloses := nativeCloses + [saved.value];
        if parent != null {
          parent.RemoveChild();
        }
        code := rc;
      }
      writer := None;
    }

    /** `close_checked`: a counted child makes it refuse and leave everything as it was. */
    method CloseChecked(t: Tid, rc: int) returns (code: int)
      requires Valid() && Abs().CanExclude()
      requires parent != null ==> parent.Valid()
      modifies this, (if parent == null then {} else {parent})`children
      ensures Valid() && (parent != null ==> parent.Valid())
      ensures old(children) != 0 ==>
                && code == -EBUSY && Abs() == old(Abs()) && nativeCloses == old(nativeCloses)
                && (parent != null ==> parent.Abs() == old(parent.Abs()))
      ensures old(children) == 0 ==>
                && closed && handle.None?
                && code == (if old(handle).Some? then rc else 0)
                && nativeCloses == old(nativeCloses) + (if old(handle).Some? then [old(handle).value] else [])
                && (parent != null ==>
                      parent.Abs() == if old(handle).Some? then old(parent.Abs()).RemoveChild() else old(parent.Abs()))
    {
      if children != 0 {
        return -EBUSY;
      }
      code := CloseNow(t, rc);
    }
  }

  /**
   `OpenIoContext` and `RbdPoolWrap::Open`: `use` with the native open, whose result is `rc` and
   whose handle is `native`, and then `add_child`.
   */
  method OpenUnder(parent: HandleState, t: Tid, rc: int, native: Handle) returns (r: Result<HandleState, CallError>)
    requires parent.Valid() && parent.Abs().CanShare() && t !in parent.readers
    modifies parent
    ensures parent.Valid()
    ensures r.Err? ==> parent.Abs() == old(parent.Abs())
    ensures r.Err? <==> !old(parent.Abs().Usable()) || rc < 0
    ensures r.Err? ==> r.error == if old(parent.Abs().Usable()) then Ceph(rc) else Thrown(ResourceIsClosed)
    ensures r.Ok? ==>
              && fresh(r.value) && r.value.Valid() && r.value.parent == parent
              && r.value.Abs() == NewCell(Some(native)) && parent.Abs() == old(parent.Abs()).AddChild()
  {
    EnterLeave(parent.Abs(), t);
    var h := parent.EnterUse(t);
    if h.Err? {
      return Err(Thrown(h.error));
    }
    parent.LeaveUse(t);
    if rc < 0 {
      return Err(Ceph(rc));
    }
    parent.AddChild();
    var child := new HandleState(Some(native), parent);
    return Ok(child);
  }

  /** A child opened and closed again leaves its parent as it was; until then the parent refuses to close. */
  method OpenThenClose(parent: HandleState, t: Tid, native: Handle, closeRc: int) returns (busy: int, code: int)
    requires parent.Valid() && parent.Abs().CanExclude() && parent.Abs().Usable() && parent.children == 0
    requires parent.parent != null ==> parent.parent.Valid()
    modifies parent, (if parent.parent == null then {} else {parent.parent})`children
    ensures parent.Valid() && parent.Abs() == old(parent.Abs()) && busy == -EBUSY && code == closeRc
  {
    var r := OpenUnder(parent, t, 0, native);
    AddRemoveCancel(old(parent.Abs()));
    busy := parent.CloseChecked(t, 0);
    code := r.value.CloseChecked(t, closeRc);
  }
}
