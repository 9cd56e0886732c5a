/**
 The native lifetime protocol as a step system.

 A cluster holds I/O contexts and monitor logs, a context holds images and object watches, an
 image holds update watches. JS calls, pool workers, Ceph callback threads and destructors all
 run here as threads with a program counter; one step is one atomic action of the source, so
 every interleaving of their lock acquisitions, flag exchanges, counter updates and native calls
 is a run. `close_checked` is two steps: the load of the counter, and `close_now`.
 */
module Lifetime {
  import opened Wrappers
  import opened Handles

  type Id = nat

  datatype Kind = Cluster | Context | Image | Log | Watch | Updates

  predicate IsHandle(k: Kind) { k.Cluster? || k.Context? || k.Image? }

  /** What `OpenIoContext` and `RbdPoolWrap::Open` create under a handle. */
  function HandleUnder(k: Kind): Kind
    requires k.Cluster? || k.Context?
  {
    if k.Cluster? then Context else Image
  }

  /** The subscription that registers under a handle. */
  function SubscriptionUnder(k: Kind): Kind
    requires IsHandle(k)
  {
    match k
    case Cluster => Log
    case Context => Watch
    case Image => Updates
  }

  predicate MayHold(parent: Kind, child: Kind)
  {
    IsHandle(parent) && (child == SubscriptionUnder(parent) || (!parent.Image? && child == HandleUnder(parent)))
  }

  /** How often each teardown action of a subscription has run. */
  datatype Tally = Tally(unregistered: nat, flushed: nat, released: nat, removed: nat)

  /**
   A `HandleState` (kinds Cluster, Context, Image; field `cell`) or a subscription's `Data`
   (kinds Log, Watch, Updates; fields `ended` to `tally`).
     native   the native object, or the native registration, exists
     counted  the parent's counter includes this node
     refs     JS wrappers that own this node
     published  the shared pointer has left the thread that created it
     freed    its memory has been reclaimed
     driver   the thread that is creating or tearing down this node
     closes   runs of the native close
     ended    `Data::closed`
     entered  the native registration has succeeded
     threw    a `use` inside `Data::close` found its handle closed
     ackThrew a `use` inside the overflow acknowledgement found its handle closed
     dropper  the thread running the wrapper's destructor
   */
  datatype Node = Node(kind: Kind, up: Option<Id>, native: bool, counted: bool, refs: nat, published: bool, freed: bool,
                       driver: Option<Tid>, cell: Cell, closes: nat,
                       ended: bool, entered: bool, threw: bool, ackThrew: bool,
                       dropper: Option<Tid>, tally: Tally)

  datatype Pc =
    | Idle
    // Any forwarding operation: `use` with a native call in its body.
    | UseWait(n: Id) | UseBody(n: Id)
    // OpenIoContext, RbdPoolWrap::Open: `use`, then `add_child`.
    | OpenWait(p: Id) | OpenBody(p: Id) | OpenAdd(p: Id, c: Id)
    // The three Create functions: `add_child`, then `use`.
    | SubAdd(p: Id) | SubWait(p: Id, w: Id) | SubBody(p: Id, w: Id) | SubLeave(p: Id, w: Id)
    | SubFail(p: Id, w: Id) | SubFailRemove(p: Id, w: Id)
    // close_checked, or the destructor, which enters at CloseWait.
    | CloseLoad(n: Id) | CloseWait(n: Id, dtor: bool) | CloseBody(n: Id, dtor: bool, h: Handle)
    | CloseRemove(n: Id, dtor: bool) | CloseUnlock(n: Id, dtor: bool)
    // Data::close, or the wrapper's destructor, which enters at DropCheck.
    | DropCheck(w: Id) | EndExchange(w: Id) | EndUnregisterWait(w: Id, p: Id) | EndUnregisterBody(w: Id, p: Id)
    | EndFlushWait(w: Id, k: Id) | EndFlushBody(w: Id, k: Id) | EndRelease(w: Id) | EndRemove(w: Id, p: Id)
    // ObjectWatchWrap::Ack, which holds the watch's Data only.
    | AckWait(w: Id, p: Id) | AckBody(w: Id, p: Id)
    // object_watch_cb.
    | CallbackCheck(w: Id) | CallbackPost(w: Id) | CallbackAckWait(w: Id, p: Id) | CallbackAckBody(w: Id, p: Id)

  /** `exposed`: the handles whose busy check may have been fooled so far, see `ExposedNow`. */
  datatype State = State(nodes: seq<Node>, threads: seq<Pc>, exposed: set<Id>)

  datatype Op =
    | Connect
    | Work(n: Id) | Open(n: Id) | Subscribe(n: Id) | Close(n: Id)
    | Share(n: Id) | Drop(n: Id) | Destroy(n: Id)
    | End(n: Id) | DropWatch(n: Id) | Ack(n: Id)
    | Notify(n: Id)

  /** Start an operation on an idle thread, or let a thread take its next step; `ok` is the outcome
      of a native call in that step, if it makes one. */
  datatype Step = Begin(t: Tid, op: Op) | Advance(t: Tid, ok: bool)

  // ---------------------------------------------------------------- what a program counter means

  /** The handle whose shared lock the thread holds. */
  function HeldShared(pc: Pc): Option<Id>
  {
    match pc
    case UseBody(n) => Some(n)
    case OpenBody(p) => Some(p)
    case SubBody(p, _) => Some(p)
    case SubLeave(p, _) => Some(p)
    case EndUnregisterBody(_, p) => Some(p)
    case EndFlushBody(_, k) => Some(k)
    case AckBody(_, p) => Some(p)
    case CallbackAckBody(_, p) => Some(p)
    case _ => None
  }

  /** The handle whose shared lock the thread is about to request. */
  function WantedShared(pc: Pc): Option<Id>
  {
    match pc
    case UseWait(n) => Some(n)
    case OpenWait(p) => Some(p)
    case SubWait(p, _) => Some(p)
    case EndUnregisterWait(_, p) => Some(p)
    case EndFlushWait(_, k) => Some(k)
    case AckWait(_, p) => Some(p)
    case CallbackAckWait(_, p) => Some(p)
    case _ => None
  }

  /** The handle whose exclusive lock the thread holds. */
  function HeldExclusive(pc: Pc): Option<Id>
  {
    match pc
    case CloseBody(n, _, _) => Some(n)
    case CloseRemove(n, _) => Some(n)
    case CloseUnlock(n, _) => Some(n)
    case _ => None
  }

  /** The handle for which the thread is between a passed busy check and its `close_now`. */
  function Window(pc: Pc): Option<Id>
  {
    match pc
    case CloseWait(n, dtor) => if dtor then None else Some(n)
    case _ => None
  }

  /** The handle under which the thread is between `use` and `add_child`, in whichever order. */
  function Registering(pc: Pc): Option<Id>
  {
    match pc
    case OpenBody(p) => Some(p)
    case OpenAdd(p, _) => Some(p)
    case SubWait(p, _) => Some(p)
    case SubBody(p, _) => Some(p)
    case SubLeave(p, _) => Some(p)
    case _ => None
  }

  /** The node the thread is creating or tearing down. */
  function Driven(pc: Pc): Option<Id>
  {
    match pc
    case OpenAdd(_, c) => Some(c)
    case SubWait(_, w) => Some(w)
    case SubBody(_, w) => Some(w)
    case SubLeave(_, w) => Some(w)
    case SubFail(_, w) => Some(w)
    case SubFailRemove(_, w) => Some(w)
    case CloseBody(n, _, _) => Some(n)
    case CloseRemove(n, _) => Some(n)
    case EndUnregisterWait(w, _) => Some(w)
    case EndUnregisterBody(w, _) => Some(w)
    case EndFlushWait(w, _) => Some(w)
    case EndFlushBody(w, _) => Some(w)
    case EndRelease(w) => Some(w)
    case EndRemove(w, _) => Some(w)
    case _ => None
  }

  /** The node the thread was given when it started on its present work. */
  function Given(pc: Pc): Option<Id>
  {
    match pc
    case UseWait(n) => Some(n)
    case UseBody(n) => Some(n)
    case OpenWait(p) => Some(p)
    case OpenBody(p) => Some(p)
    case OpenAdd(p, _) => Some(p)
    case CloseLoad(n) => Some(n)
    case CloseWait(n, _) => Some(n)
    case DropCheck(w) => Some(w)
    case EndExchange(w) => Some(w)
    case _ => None
  }

  /** The handle whose destructor the thread runs. */
  function Destroying(pc: Pc): Option<Id>
  {
    match pc
    case CloseWait(n, dtor) => if dtor then Some(n) else None
    case CloseBody(n, dtor, _) => if dtor then Some(n) else None
    case CloseRemove(n, dtor) => if dtor then Some(n) else None
    case CloseUnlock(n, dtor) => if dtor then Some(n) else None
    case _ => None
  }

  /** The watch whose callback the thread runs. */
  function InCallback(pc: Pc): Option<Id>
  {
    match pc
    case CallbackCheck(w) => Some(w)
    case CallbackPost(w) => Some(w)
    case CallbackAckWait(w, _) => Some(w)
    case CallbackAckBody(w, _) => Some(w)
    case _ => None
  }

  /** The thread's closure or stack holds a shared pointer to `n`. Ceph callbacks hold raw pointers. */
  predicate Owns(pc: Pc, n: Id)
  {
    match pc
    case UseWait(m) => m == n
    case UseBody(m) => m == n
    case OpenWait(p) => p == n
    case OpenBody(p) => p == n
    case OpenAdd(p, c) => p == n || c == n
    case SubAdd(p) => p == n
    case SubWait(p, w) => p == n || w == n
    case SubBody(p, w) => p == n || w == n
    case SubLeave(p, w) => p == n || w == n
    case SubFail(p, w) => p == n || w == n
    case SubFailRemove(p, w) => p == n || w == n
    case CloseLoad(m) => m == n
    case CloseWait(m, d) => !d && m == n
    case CloseBody(m, d, _) => !d && m == n
    case CloseRemove(m, d) => !d && m == n
    case CloseUnlock(m, d) => !d && m == n
    case DropCheck(w) => w == n
    case EndExchange(w) => w == n
    case EndUnregisterWait(w, _) => w == n
    case EndUnregisterBody(w, _) => w == n
    case EndFlushWait(w, _) => w == n
    case EndFlushBody(w, _) => w == n
    case EndRelease(w) => w == n
    case EndRemove(w, _) => w == n
    case AckWait(w, _) => w == n
    case AckBody(w, _) => w == n
    case _ => false
  }

  // ---------------------------------------------------------------- well-typed states

  predicate Has(nodes: seq<Node>, n: Id) { n < |nodes| }

  predicate HasHandle(nodes: seq<Node>, n: Id) { n < |nodes| && IsHandle(nodes[n].kind) }

  predicate HasSub(nodes: seq<Node>, n: Id) { n < |nodes| && !IsHandle(nodes[n].kind) }

  predicate ChildOf(nodes: seq<Node>, c: Id, p: Id) { c < |nodes| && nodes[c].up == Some(p) }

  predicate WatchIn(nodes: seq<Node>, w: Id, p: Id)
  {
    HasHandle(nodes, p) && HasSub(nodes, w) && nodes[w].kind.Watch? && ChildOf(nodes, w, p)
  }

  /** A parent is older than its children and of a kind that may hold them. */
  predicate NodeTyped(nodes: seq<Node>, n: Id)
    requires n < |nodes|
  {
    match nodes[n].up
    case None => nodes[n].kind.Cluster?
    case Some(p) => p < n && MayHold(nodes[p].kind, nodes[n].kind)
  }

  predicate PcTyped(nodes: seq<Node>, pc: Pc)
  {
    match pc
    case Idle => true
    case UseWait(n) => HasHandle(nodes, n)
    case UseBody(n) => HasHandle(nodes, n)
    case OpenWait(p) => HasHandle(nodes, p) && !nodes[p].kind.Image?
    case OpenBody(p) => HasHandle(nodes, p) && !nodes[p].kind.Image?
    case OpenAdd(p, c) => HasHandle(nodes, p) && HasHandle(nodes, c) && ChildOf(nodes, c, p)
    case SubAdd(p) => HasHandle(nodes, p)
    case SubWait(p, w) => HasHandle(nodes, p) && HasSub(nodes, w) && ChildOf(nodes, w, p)
    case SubBody(p, w) => HasHandle(nodes, p) && HasSub(nodes, w) && ChildOf(nodes, w, p)
    case SubLeave(p, w) => HasHandle(nodes, p) && HasSub(nodes, w) && ChildOf(nodes, w, p)
    case SubFail(p, w) => HasHandle(nodes, p) && HasSub(nodes, w) && ChildOf(nodes, w, p)
    case SubFailRemove(p, w) => HasHandle(nodes, p) && HasSub(nodes, w) && ChildOf(nodes, w, p)
    case CloseLoad(n) => HasHandle(nodes, n)
    case CloseWait(n, _) => HasHandle(nodes, n)
    case CloseBody(n, _, _) => HasHandle(nodes, n)
    case CloseRemove(n, _) => HasHandle(nodes, n)
    case CloseUnlock(n, _) => HasHandle(nodes, n)
    case DropCheck(w) => HasSub(nodes, w)
    case EndExchange(w) => HasSub(nodes, w)
    case EndUnregisterWait(w, p) => HasHandle(nodes, p) && HasSub(nodes, w) && ChildOf(nodes, w, p)
    case EndUnregisterBody(w, p) => HasHandle(nodes, p) && HasSub(nodes, w) && ChildOf(nodes, w, p)
    case EndFlushWait(w, k) => WatchUnder(nodes, w, k)
    case EndFlushBody(w, k) => WatchUnder(nodes, w, k)
    case EndRelease(w) => HasSub(nodes, w)
    case EndRemove(w, p) => HasHandle(nodes, p) && HasSub(nodes, w) && ChildOf(nodes, w, p)
    case AckWait(w, p) => WatchIn(nodes, w, p)
    case AckBody(w, p) => WatchIn(nodes, w, p)
    case CallbackCheck(w) => HasSub(nodes, w) && nodes[w].kind.Watch?
    case CallbackPost(w) => HasSub(nodes, w) && nodes[w].kind.Watch?
    case CallbackAckWait(w, p) => WatchIn(nodes, w, p)
    case CallbackAckBody(w, p) => WatchIn(nodes, w, p)
  }

  /** `w` is an object watch in a context of cluster `k`. */
  predicate WatchUnder(nodes: seq<Node>, w: Id, k: Id)
  {
    && HasSub(nodes, w) && nodes[w].kind.Watch?
    && nodes[w].up.Some? && Has(nodes, nodes[w].up.value)
    && nodes[nodes[w].up.value].up == Some(k) && HasHandle(nodes, k)
  }

  predicate Typed(s: State)
  {
    && (forall n :: 0 <= n < |s.nodes| ==> NodeTyped(s.nodes, n))
    && (forall t :: 0 <= t < |s.threads| ==> PcTyped(s.nodes, s.threads[t]))
  }

  // ---------------------------------------------------------------- steps

  const ZERO_TALLY := Tally(0, 0, 0, 0)

  function NewHandle(kind: Kind, up: Option<Id>, n: Id, driver: Option<Tid>): Node
  {
    Node(kind, up, true, false, if driver.None? then 1 else 0, driver.None?, false, driver, NewCell(Some(n)), 0,
         false, true, false, false, None, ZERO_TALLY)
  }

  function NewSub(kind: Kind, p: Id, t: Tid): Node
  {
    Node(kind, Some(p), false, true, 0, false, false, Some(t), NewCell(None), 0,
         false, false, false, false, None, ZERO_TALLY)
  }

  datatype Write = Keep | Write(n: Id, node: Node)

  /** What a step writes: the thread's next program counter, at most two existing nodes, and a new one. */
  datatype Delta = Delta(pc: Pc, first: Write, second: Write, added: Option<Node>)
  {
    predicate Writes(n: Id) { (first.Write? && first.n == n) || (second.Write? && second.n == n) }

    function After(n: Id, node: Node): Node
    {
      if second.Write? && second.n == n then second.node
      else if first.Write? && first.n == n then first.node
      else node
    }
  }

  function Quiet(pc: Pc): Delta { Delta(pc, Keep, Keep, None) }

  function One(pc: Pc, n: Id, node: Node): Delta { Delta(pc, Write(n, node), Keep, None) }

  function Two(pc: Pc, n: Id, node: Node, m: Id, other: Node): Delta
  {
    Delta(pc, Write(n, node), Write(m, other), None)
  }

  function Patch(s: State, t: Tid, d: Delta): (s': State)
    requires t < |s.threads|
    ensures |s'.nodes| == |s.nodes| + (if d.added.Some? then 1 else 0)
    ensures s'.threads == s.threads[t := d.pc] && s'.exposed == s.exposed
    ensures forall n :: 0 <= n < |s.nodes| ==> s'.nodes[n] == d.After(n, s.nodes[n])
    ensures d.added.Some? ==> s'.nodes[|s.nodes|] == d.added.value
  {
    var kept := seq(|s.nodes|, n requires 0 <= n < |s.nodes| => d.After(n, s.nodes[n]));
    State(if d.added.Some? then kept + [d.added.value] else kept, s.threads[t := d.pc], s.exposed)
  }

  /** No wrapper, closure, child or destructor has hold of `n`. */
  ghost predicate Unowned(s: State, n: Id)
  {
    && n < |s.nodes|
    && !s.nodes[n].freed
    && s.nodes[n].refs == 0
    && (forall t :: 0 <= t < |s.threads| ==> !Owns(s.threads[t], n) && Destroying(s.threads[t]) != Some(n))
    && (forall c :: 0 <= c < |s.nodes| && s.nodes[c].up == Some(n) ==> s.nodes[c].freed)
  }

  /**
   librados may call back from the registration until the flush that follows the unwatch; nothing says that the
   cluster's shutdown stops it.
   */
  predicate Callable(node: Node) { node.kind.Watch? && node.entered && node.tally.flushed == 0 }

  ghost predicate CanBegin(s: State, t: Tid, op: Op)
  {
    && t < |s.threads| && s.threads[t].Idle?
    && match op
       case Connect => true
       case Work(n) => HasHandle(s.nodes, n) && s.nodes[n].refs > 0
       case Open(n) => HasHandle(s.nodes, n) && !s.nodes[n].kind.Image? && s.nodes[n].refs > 0
       case Subscribe(n) => HasHandle(s.nodes, n) && s.nodes[n].refs > 0
       case Close(n) => HasHandle(s.nodes, n) && s.nodes[n].refs > 0
       case Share(n) => HasHandle(s.nodes, n) && s.nodes[n].refs > 0
       case Drop(n) => HasHandle(s.nodes, n) && s.nodes[n].refs > 0
       case Destroy(n) => Unowned(s, n)
       case End(w) => HasSub(s.nodes, w) && s.nodes[w].refs > 0
       case DropWatch(w) => HasSub(s.nodes, w) && s.nodes[w].refs > 0
       case Ack(w) => HasSub(s.nodes, w) && s.nodes[w].kind.Watch? && s.nodes[w].up.Some? && s.nodes[w].refs > 0
       case Notify(w) => HasSub(s.nodes, w) && Callable(s.nodes[w])
  }

  function BeginDelta(nodes: seq<Node>, t: Tid, op: Op): Delta
    requires !op.Connect? ==> op.n < |nodes|
    requires op.Ack? ==> nodes[op.n].up.Some?
  {
    match op
    case Connect => Quiet(Idle).(added := Some(NewHandle(Cluster, None, |nodes|, None)))
    case Work(n) => Quiet(UseWait(n))
    case Open(n) => Quiet(OpenWait(n))
    case Subscribe(n) => Quiet(SubAdd(n))
    case Close(n) => Quiet(CloseLoad(n))
    case Share(n) => One(Idle, n, nodes[n].(refs := nodes[n].refs + 1))
    case Drop(n) => One(Idle, n, nodes[n].(refs := if nodes[n].refs == 0 then 0 else nodes[n].refs - 1))
    case Destroy(n) =>
      if IsHandle(nodes[n].kind) then Quiet(CloseWait(n, true))
      else One(Idle, n, nodes[n].(freed := true))
    case End(w) => Quiet(EndExchange(w))
    case DropWatch(w) => One(DropCheck(w), w, nodes[w].(refs := 0, dropper := Some(t)))
    case Ack(w) => Quiet(AckWait(w, nodes[w].up.value))
    case Notify(w) => Quiet(CallbackCheck(w))
  }

  /** A callback of some watch of the cluster `k` is running. */
  ghost predicate CallsBack(s: State, k: Id)
  {
    exists u :: 0 <= u < |s.threads| && InCallback(s.threads[u]).Some? &&
                WatchUnder(s.nodes, InCallback(s.threads[u]).value, k)
  }

  /**
   The thread's next step is not blocked by a lock, or by a flush, which is given the cluster only and
   waits for the callbacks of all its watches.
   */
  ghost predicate Ready(s: State, t: Tid)
    requires t < |s.threads| && PcTyped(s.nodes, s.threads[t])
  {
    var pc := s.threads[t];
    && !pc.Idle?
    && (WantedShared(pc).Some? ==> s.nodes[WantedShared(pc).value].cell.CanShare())
    && (pc.CloseWait? ==> s.nodes[pc.n].cell.CanExclude())
    && (pc.EndFlushBody? ==> !CallsBack(s, pc.k))
  }

  /** `use`: with the shared lock granted, enter the body, or throw and end with the write `thrown`. */
  function EnterDelta(nodes: seq<Node>, t: Tid, n: Id, body: Pc, thrown: Write): Delta
    requires n < |nodes|
  {
    if nodes[n].cell.Usable() then One(body, n, nodes[n].(cell := nodes[n].cell.Enter(t)))
    else Delta(Idle, thrown, Keep, None)
  }

  function Left(nodes: seq<Node>, t: Tid, n: Id): Node
    requires n < |nodes|
  {
    nodes[n].(cell := nodes[n].cell.Leave(t))
  }

  /** The end of a `use` body that leaves nothing behind. */
  function LeaveDelta(nodes: seq<Node>, t: Tid, n: Id, next: Pc): Delta
    requires n < |nodes|
  {
    One(next, n, Left(nodes, t, n))
  }

  /** The native open succeeded: the object exists, the parent does not count it yet. */
  function OpenedDelta(nodes: seq<Node>, t: Tid, p: Id): Delta
    requires p < |nodes| && IsHandle(nodes[p].kind) && !nodes[p].kind.Image?
  {
    var child := NewHandle(HandleUnder(nodes[p].kind), Some(p), |nodes|, Some(t));
    One(OpenAdd(p, |nodes|), p, Left(nodes, t, p)).(added := Some(child))
  }

  /** `add_child`; the new wrapper owns the child and its parent. */
  function OpenAddDelta(nodes: seq<Node>, p: Id, c: Id): Delta
    requires p < |nodes| && c < |nodes|
  {
    var parent := nodes[p].(cell := nodes[p].cell.AddChild(), refs := nodes[p].refs + 1);
    var child := nodes[c].(counted := true, driver := None, refs := 1, published := true);
    Two(Idle, p, parent, c, child)
  }

  /** `add_child` in `Create`, before the native registration. */
  function SubAddDelta(nodes: seq<Node>, t: Tid, p: Id): Delta
    requires p < |nodes| && IsHandle(nodes[p].kind)
  {
    var parent := nodes[p].(cell := nodes[p].cell.AddChild());
    One(SubWait(p, |nodes|), p, parent).(added := Some(NewSub(SubscriptionUnder(nodes[p].kind), p, t)))
  }

  function RegisteredDelta(nodes: seq<Node>, p: Id, w: Id): Delta
    requires w < |nodes|
  {
    One(SubLeave(p, w), w, nodes[w].(native := true, entered := true))
  }

  function SubLeaveDelta(nodes: seq<Node>, t: Tid, p: Id, w: Id): Delta
    requires p < |nodes| && w < |nodes|
  {
    Two(Idle, p, Left(nodes, t, p), w, nodes[w].(driver := None, refs := 1, published := true))
  }

  /** The native registration failed: mark closed and release the callback. */
  function SubFailDelta(nodes: seq<Node>, p: Id, w: Id): Delta
    requires w < |nodes|
  {
    var tally := nodes[w].tally;
    One(SubFailRemove(p, w), w, nodes[w].(ended := true, tally := tally.(released := tally.released + 1)))
  }

  /** `remove_child`, the last action of a subscription's teardown. */
  function RemoveDelta(nodes: seq<Node>, p: Id, w: Id): Delta
    requires p < |nodes| && w < |nodes|
  {
    var tally := nodes[w].tally;
    var child := nodes[w].(counted := false, driver := None, tally := tally.(removed := tally.removed + 1));
    Two(Idle, w, child, p, nodes[p].(cell := nodes[p].cell.RemoveChild()))
  }

  /** `close_checked`: the load of the counter. */
  function CloseLoadDelta(nodes: seq<Node>, n: Id): Delta
    requires n < |nodes|
  {
    Quiet(if nodes[n].cell.children != 0 then Idle else CloseWait(n, false))
  }

  /** `close_now` with the exclusive lock granted: return if already closed, else flip the flag. */
  function CloseWaitDelta(nodes: seq<Node>, t: Tid, n: Id, dtor: bool): Delta
    requires n < |nodes|
  {
    var node := nodes[n];
    if node.cell.closed then if dtor then One(Idle, n, node.(freed := true)) else Quiet(Idle)
    else
      var body := if node.cell.handle.Some? then CloseBody(n, dtor, node.cell.handle.value) else CloseUnlock(n, dtor);
      One(body, n, node.(cell := node.cell.BeginClose(t), driver := Some(t)))
  }

  /** The close closure destroys the native object. */
  function CloseBodyDelta(nodes: seq<Node>, n: Id, dtor: bool): Delta
    requires n < |nodes|
  {
    One(CloseRemove(n, dtor), n, nodes[n].(native := false, closes := nodes[n].closes + 1))
  }

  /** The close closure takes the child off its parent's counter. */
  function CloseRemoveDelta(nodes: seq<Node>, n: Id, dtor: bool): Delta
    requires n < |nodes| && (nodes[n].up.Some? ==> nodes[n].up.value < |nodes|)
  {
    var child := nodes[n].(counted := false, driver := None);
    match nodes[n].up
    case None => One(CloseUnlock(n, dtor), n, child)
    case Some(p) => Two(CloseUnlock(n, dtor), n, child, p, nodes[p].(cell := nodes[p].cell.RemoveChild()))
  }

  function CloseUnlockDelta(nodes: seq<Node>, n: Id, dtor: bool): Delta
    requires n < |nodes|
  {
    One(Idle, n, nodes[n].(cell := nodes[n].cell.EndClose(), freed := nodes[n].freed || dtor))
  }

  /** `closed.exchange(true)`: only the first caller goes on. */
  function EndExchangeDelta(nodes: seq<Node>, t: Tid, w: Id, p: Id): Delta
    requires w < |nodes|
  {
    if nodes[w].ended then Quiet(Idle)
    else One(EndUnregisterWait(w, p), w, nodes[w].(ended := true, driver := Some(t)))
  }

  /** A `use` in `Data::close` threw: the rest of the teardown is skipped. */
  function Stranded(nodes: seq<Node>, w: Id): Write
    requires w < |nodes|
  {
    Write(w, nodes[w].(threw := true, driver := None))
  }

  /** The native unregister call, in the body of `use`; an object watch then flushes. */
  function UnregisterDelta(nodes: seq<Node>, t: Tid, p: Id, w: Id, next: Pc): Delta
    requires p < |nodes| && w < |nodes|
  {
    var tally := nodes[w].tally;
    Two(next, p, Left(nodes, t, p),
        w, nodes[w].(native := false, tally := tally.(unregistered := tally.unregistered + 1)))
  }

  function FlushDelta(nodes: seq<Node>, t: Tid, k: Id, w: Id): Delta
    requires k < |nodes| && w < |nodes|
  {
    var tally := nodes[w].tally;
    Two(EndRelease(w), k, Left(nodes, t, k), w, nodes[w].(tally := tally.(flushed := tally.flushed + 1)))
  }

  function ReleaseDelta(nodes: seq<Node>, w: Id, p: Id): Delta
    requires w < |nodes|
  {
    var tally := nodes[w].tally;
    One(EndRemove(w, p), w, nodes[w].(tally := tally.(released := tally.released + 1)))
  }

  function UpOf(nodes: seq<Node>, n: Id): (p: Id)
    requires n < |nodes| && NodeTyped(nodes, n) && !IsHandle(nodes[n].kind)
    ensures p < n && nodes[n].up == Some(p) && MayHold(nodes[p].kind, nodes[n].kind)
  {
    nodes[n].up.value
  }

  /** After the unregister call: an object watch flushes through its cluster, the others do not. */
  function AfterUnregister(nodes: seq<Node>, p: Id, w: Id): Pc
    requires PcTyped(nodes, EndUnregisterBody(w, p))
    requires NodeTyped(nodes, w) && NodeTyped(nodes, p)
  {
    if nodes[w].kind.Watch? then EndFlushWait(w, nodes[p].up.value) else EndRelease(w)
  }

  predicate Opens(pc: Pc) { pc.UseWait? || pc.UseBody? || pc.OpenWait? || pc.OpenBody? || pc.OpenAdd? }

  predicate Creates(pc: Pc)
  {
    pc.SubAdd? || pc.SubWait? || pc.SubBody? || pc.SubLeave? || pc.SubFail? || pc.SubFailRemove?
  }

  predicate Closes(pc: Pc) { pc.CloseLoad? || pc.CloseWait? || pc.CloseBody? || pc.CloseRemove? || pc.CloseUnlock? }

  predicate Ends(pc: Pc) { pc.DropCheck? || pc.EndExchange? || pc.EndUnregisterWait? || pc.EndUnregisterBody? }

  predicate Releases(pc: Pc) { pc.EndFlushWait? || pc.EndFlushBody? || pc.EndRelease? || pc.EndRemove? }

  predicate Notifies(pc: Pc) { pc.CallbackCheck? || pc.CallbackPost? || pc.CallbackAckWait? || pc.CallbackAckBody? }

  predicate Acks(pc: Pc) { pc.AckWait? || pc.AckBody? }

  function OpenAdvance(nodes: seq<Node>, t: Tid, pc: Pc, ok: bool): Delta
    requires PcTyped(nodes, pc) && Opens(pc)
  {
    match pc
    case UseWait(n) => EnterDelta(nodes, t, n, UseBody(n), Keep)
    case UseBody(n) => LeaveDelta(nodes, t, n, Idle)
    case OpenWait(p) => EnterDelta(nodes, t, p, OpenBody(p), Keep)
    case OpenBody(p) => if ok then OpenedDelta(nodes, t, p) else LeaveDelta(nodes, t, p, Idle)
    case OpenAdd(p, c) => OpenAddDelta(nodes, p, c)
  }

  function CreateAdvance(nodes: seq<Node>, t: Tid, pc: Pc, ok: bool): Delta
    requires PcTyped(nodes, pc) && Creates(pc)
  {
    match pc
    case SubAdd(p) => SubAddDelta(nodes, t, p)
    case SubWait(p, w) => EnterDelta(nodes, t, p, SubBody(p, w), Write(w, nodes[w].(driver := None)))
    case SubBody(p, w) => if ok then RegisteredDelta(nodes, p, w) else LeaveDelta(nodes, t, p, SubFail(p, w))
    case SubLeave(p, w) => SubLeaveDelta(nodes, t, p, w)
    case SubFail(p, w) => SubFailDelta(nodes, p, w)
    case SubFailRemove(p, w) => RemoveDelta(nodes, p, w)
  }

  function CloseAdvance(nodes: seq<Node>, t: Tid, pc: Pc, ok: bool): Delta
    requires PcTyped(nodes, pc) && Closes(pc)
    requires forall n :: 0 <= n < |nodes| ==> NodeTyped(nodes, n)
  {
    match pc
    case CloseLoad(n) => CloseLoadDelta(nodes, n)
    case CloseWait(n, dtor) => CloseWaitDelta(nodes, t, n, dtor)
    case CloseBody(n, dtor, _) => CloseBodyDelta(nodes, n, dtor)
    case CloseRemove(n, dtor) => assert NodeTyped(nodes, n); CloseRemoveDelta(nodes, n, dtor)
    case CloseUnlock(n, dtor) => CloseUnlockDelta(nodes, n, dtor)
  }

  function EndAdvance(nodes: seq<Node>, t: Tid, pc: Pc, ok: bool): Delta
    requires PcTyped(nodes, pc) && Ends(pc)
    requires forall n :: 0 <= n < |nodes| ==> NodeTyped(nodes, n)
  {
    match pc
    case DropCheck(w) => Quiet(if nodes[w].ended then Idle else EndExchange(w))
    case EndExchange(w) => EndExchangeDelta(nodes, t, w, UpOf(nodes, w))
    case EndUnregisterWait(w, p) => EnterDelta(nodes, t, p, EndUnregisterBody(w, p), Stranded(nodes, w))
    case EndUnregisterBody(w, p) => UnregisterDelta(nodes, t, p, w, AfterUnregister(nodes, p, w))
  }

  function ReleaseAdvance(nodes: seq<Node>, t: Tid, pc: Pc, ok: bool): Delta
    requires PcTyped(nodes, pc) && Releases(pc)
    requires forall n :: 0 <= n < |nodes| ==> NodeTyped(nodes, n)
  {
    match pc
    case EndFlushWait(w, k) => EnterDelta(nodes, t, k, EndFlushBody(w, k), Stranded(nodes, w))
    case EndFlushBody(w, k) => FlushDelta(nodes, t, k, w)
    case EndRelease(w) => ReleaseDelta(nodes, w, UpOf(nodes, w))
    case EndRemove(w, p) => RemoveDelta(nodes, p, w)
  }

  function AckAdvance(nodes: seq<Node>, t: Tid, pc: Pc, ok: bool): Delta
    requires PcTyped(nodes, pc) && Acks(pc)
  {
    match pc
    case AckWait(w, p) => EnterDelta(nodes, t, p, AckBody(w, p), Keep)
    case AckBody(w, p) => LeaveDelta(nodes, t, p, Idle)
  }

  function NotifyAdvance(nodes: seq<Node>, t: Tid, pc: Pc, ok: bool): Delta
    requires PcTyped(nodes, pc) && Notifies(pc)
    requires forall n :: 0 <= n < |nodes| ==> NodeTyped(nodes, n)
  {
    match pc
    case CallbackCheck(w) => Quiet(if nodes[w].ended then Idle else CallbackPost(w))
    case CallbackPost(w) => Quiet(if ok then Idle else CallbackAckWait(w, UpOf(nodes, w)))
    case CallbackAckWait(w, p) =>
      EnterDelta(nodes, t, p, CallbackAckBody(w, p), Write(w, nodes[w].(ackThrew := true)))
    case CallbackAckBody(w, p) => LeaveDelta(nodes, t, p, Idle)
  }

  /** The next action of a thread at `pc`. */
  function AdvanceDelta(nodes: seq<Node>, t: Tid, pc: Pc, ok: bool): Delta
    requires PcTyped(nodes, pc)
    requires forall n :: 0 <= n < |nodes| ==> NodeTyped(nodes, n)
  {
    if Opens(pc) then OpenAdvance(nodes, t, pc, ok)
    else if Creates(pc) then CreateAdvance(nodes, t, pc, ok)
    else if Closes(pc) then CloseAdvance(nodes, t, pc, ok)
    else if Ends(pc) then EndAdvance(nodes, t, pc, ok)
    else if Releases(pc) then ReleaseAdvance(nodes, t, pc, ok)
    else if Acks(pc) then AckAdvance(nodes, t, pc, ok)
    else if Notifies(pc) then NotifyAdvance(nodes, t, pc, ok)
    else Quiet(Idle)
  }

  // ---------------------------------------------------------------- observation and runs

  /** The children that `p`'s counter includes. */
  ghost function Kids(nodes: seq<Node>, p: Id): set<Id>
  {
    set c | 0 <= c < |nodes| && nodes[c].up == Some(p) && nodes[c].counted
  }

  /** Someone registers under the open handle `p` inside a check-to-close window of `p`. */
  ghost predicate Overlap(s: State, p: Id)
  {
    && p < |s.nodes| && !s.nodes[p].cell.closed
    && exists t, u :: 0 <= t < |s.threads| && 0 <= u < |s.threads|
                      && Registering(s.threads[t]) == Some(p) && Window(s.threads[u]) == Some(p)
  }

  /** `p`'s busy check may be fooled: by such an overlap, or because its 32-bit counter has wrapped. */
  ghost predicate ExposedNow(s: State, p: Id) { Overlap(s, p) || |Kids(s.nodes, p)| >= COUNTER_LIMIT }

  ghost function Observe(s: State): State
  {
    s.(exposed := s.exposed + set p | 0 <= p < |s.nodes| && ExposedNow(s, p))
  }

  ghost predicate Enabled(s: State, step: Step)
  {
    && Typed(s)
    && match step
       case Begin(t, op) => CanBegin(s, t, op)
       case Advance(t, _) => t < |s.threads| && Ready(s, t)
  }

  ghost function StepDelta(s: State, step: Step): Delta
    requires Enabled(s, step)
  {
    match step
    case Begin(t, op) => BeginDelta(s.nodes, t, op)
    case Advance(t, ok) => AdvanceDelta(s.nodes, t, s.threads[t], ok)
  }

  ghost function Apply(s: State, step: Step): State
    requires Enabled(s, step)
  {
    Observe(Patch(s, step.t, StepDelta(s, step)))
  }

  ghost predicate Init(s: State)
  {
    s.nodes == [] && s.exposed == {} && forall t :: 0 <= t < |s.threads| ==> s.threads[t].Idle?
  }

  ghost predicate Valid(s: State, run: seq<Step>)
    decreases |run|
  {
    run == [] || (Enabled(s, run[0]) && Valid(Apply(s, run[0]), run[1..]))
  }

  ghost function Exec(s: State, run: seq<Step>): State
    requires Valid(s, run)
    decreases |run|
  {
    if run == [] then s else Exec(Apply(s, run[0]), run[1..])
  }
}
