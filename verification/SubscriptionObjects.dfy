/** The subscription classes of src-ts/index.ts as objects, and the methods that create them. */
module SubscriptionObjects {
  import opened Wrappers
  import opened Delivery
  import opened Dispatch

  class MonitorLogSubscription {
    var closed: bool
    var trace: seq<Emission>
    var handleCloses: nat
    var resolving: bool

    ghost function Abs(): Subscription
      reads this
    {
      Subscription(MonitorLines, false, closed, trace, [], [], handleCloses, resolving)
    }

    constructor ()
      ensures Abs() == New(MonitorLines, false)
    {
      closed, trace, handleCloses, resolving := false, [], 0, false;
    }

    /** `emit`; the listeners may close the subscription. */
    method Emit(e: Emission, closes: bool)
      modifies this
      ensures Abs() == old(Abs()).Emit(e).BeginCloseIf(closes)
    {
      trace := trace + [e];
      if closes {
        Close();
      }
    }

    method Dispatch(arrival: nat, dropped: nat, r: Reaction)
      modifies this
      ensures Abs() == Dispatched(old(Abs()), Signal(arrival, dropped), r)
      ensures old(closed) ==> Abs() == old(Abs())
      ensures !old(closed) ==>
                && trace == old(trace) + (if dropped > 0 then [Overflow(dropped)] else []) + [Log(arrival, dropped)]
                && (closed <==> r.closes || (dropped > 0 && r.closesEarly))
    {
      if closed {
        return;
      }
      if dropped > 0 {
        Emit(Overflow(dropped), r.closesEarly);
      }
      Emit(Log(arrival, dropped), r.closes);
    }

    /** `close` up to its `await`. */
    method Close()
      modifies this
      ensures Abs() == old(Abs()).BeginClose()
      ensures closed && trace == old(trace) && handleCloses == old(handleCloses) + (if old(closed) then 0 else 1)
    {
      if closed {
        return;
      }
      closed := true;
      handleCloses := handleCloses + 1;
      resolving := true;
    }

    /** `close` behind its `await`, once for each native close that resolves. */
    method Closed()
      requires resolving
      modifies this
      ensures Abs() == old(Abs()).EndClose() && trace == old(trace) + [Emission.Closed] && !resolving
    {
      resolving := false;
      trace := trace + [Emission.Closed];
    }
  }

  class ImageUpdateWatch {
    var closed: bool
    var trace: seq<Emission>
    var handleCloses: nat
    var resolving: bool

    ghost function Abs(): Subscription
      reads this
    {
      Subscription(ImageUpdates, false, closed, trace, [], [], handleCloses, resolving)
    }

    constructor ()
      ensures Abs() == New(ImageUpdates, false)
    {
      closed, trace, handleCloses, resolving := false, [], 0, false;
    }

    method Dispatch(arrival: nat, coalesced: nat, r: Reaction)
      modifies this
      ensures Abs() == Dispatched(old(Abs()), Signal(arrival, coalesced), r)
      ensures old(closed) ==> Abs() == old(Abs())
      ensures !old(closed) ==> trace == old(trace) + [Update(arrival, coalesced)] && (closed <==> r.closes)
    {
      if !closed {
        trace := trace + [Update(arrival, coalesced)];
        if r.closes {
          Close();
        }
      }
    }

    /** `close` up to its `await`. */
    method Close()
      modifies this
      ensures Abs() == old(Abs()).BeginClose()
      ensures closed && trace == old(trace) && handleCloses == old(handleCloses) + (if old(closed) then 0 else 1)
    {
      if closed {
        return;
      }
      closed := true;
      handleCloses := handleCloses + 1;
      resolving := true;
    }

    /** `close` behind its `await`, once for each native close that resolves. */
    method Closed()
      requires resolving
      modifies this
      ensures Abs() == old(Abs()).EndClose() && trace == old(trace) + [Emission.Closed] && !resolving
    {
      resolving := false;
      trace := trace + [Emission.Closed];
    }
  }

  class ObjectWatch {
    const autoAck: bool
    var closed: bool
    var trace: seq<Emission>
    var notices: seq<Notice>
    var acks: seq<nat>
    var handleCloses: nat
    var resolving: bool

    ghost function Abs(): Subscription
      reads this
    {
      Subscription(ObjectNotices, autoAck, closed, trace, notices, acks, handleCloses, resolving)
    }

    constructor (autoAck: bool)
      ensures Abs() == New(ObjectNotices, autoAck) && this.autoAck == autoAck
    {
      this.autoAck := autoAck;
      closed, trace, notices, acks, handleCloses, resolving := false, [], [], [], 0, false;
    }

    /** `notification.ack()` of the `i`-th notification; false when it rejects as already acknowledged. */
    method Ack(i: nat) returns (ok: bool)
      requires i < |notices|
      modifies this
      ensures Abs() == old(Abs()).Ack(i) && ok == !old(notices)[i].acknowledged
      ensures acks == old(acks) + if ok then [old(notices)[i].arrival] else []
      ensures notices == old(notices)[i := Notice(old(notices)[i].arrival, true)] && trace == old(trace)
    {
      ok := !notices[i].acknowledged;
      if ok {
        acks := acks + [notices[i].arrival];
        notices := notices[i := notices[i].(acknowledged := true)];
      }
    }

    /** The listeners acknowledge `times` times: the first call counts, the others reject. */
    method Acknowledge(i: nat, times: nat)
      requires i < |notices|
      modifies this
      ensures Abs() == if times > 0 then old(Abs()).Ack(i) else old(Abs())
    {
      for k := 0 to times
        invariant i < |notices|
        invariant Abs() == if k > 0 then old(Abs()).Ack(i) else old(Abs())
      {
        var _ := Ack(i);
      }
    }

    method Emit(e: Emission, closes: bool)
      modifies this
      ensures Abs() == old(Abs()).Emit(e).BeginCloseIf(closes)
    {
      trace := trace + [e];
      if closes {
        Close();
      }
    }

    /** `dispatch`, and the error it throws when it is to emit one that nobody listens for. */
    method Dispatch(e: Event, r: Reaction) returns (thrown: Option<int>)
      modifies this
      ensures Abs() == Dispatched(old(Abs()), e, r)
      ensures thrown == if !old(closed) && e.Failure? && !r.hears then Some(e.code) else None
      ensures old(closed) || thrown.Some? ==> Abs() == old(Abs())
      ensures !old(closed) && e.Failure? && r.hears ==>
                && trace == old(trace) + [Error(e.code)] && (closed <==> r.closes)
                && notices == old(notices) && acks == old(acks)
      ensures !old(closed) && e.Signal? ==>
                && trace == old(trace) + (if e.payload > 0 then [Overflow(e.payload)] else [])
                            + [Notification(e.arrival, e.payload)]
                && (closed <==> r.closes || (e.payload > 0 && r.closesEarly))
                && notices == old(notices) + [Notice(e.arrival, autoAck || r.acks > 0)]
                && acks == old(acks) + if autoAck || r.acks > 0 then [e.arrival] else []
    {
      thrown := None;
      if closed {
        return;
      }
      if e.Failure? {
        if !r.hears {
          return Some(e.code);
        }
        Emit(Error(e.code), r.closes);
        return;
      }
      var dropped := e.payload;
      if dropped > 0 {
        Emit(Overflow(dropped), r.closesEarly);
      }
      var i := |notices|;
      notices := notices + [Notice(e.arrival, false)];
      Emit(Notification(e.arrival, dropped), false);
      Acknowledge(i, r.acks);
      if r.closes {
        Close();
      }
      if autoAck && !notices[i].acknowledged {
        var _ := Ack(i);
      }
    }

    /** `close` up to its `await`. */
    method Close()
      modifies this
      ensures Abs() == old(Abs()).BeginClose()
      ensures closed && trace == old(trace) && handleCloses == old(handleCloses) + (if old(closed) then 0 else 1)
    {
      if closed {
        return;
      }
      closed := true;
      handleCloses := handleCloses + 1;
      resolving := true;
    }

    /** `close` behind its `await`, once for each native close that resolves. */
    method Closed()
      requires resolving
      modifies this
      ensures Abs() == old(Abs()).EndClose() && trace == old(trace) + [Emission.Closed] && !resolving
    {
      resolving := false;
      trace := trace + [Emission.Closed];
    }
  }

  lemma ReplayExtends(s: Subscription, early: seq<Event>, k: nat)
    requires k < |early|
    ensures Run(s, Replay(early[..k + 1])) == Dispatched(Run(s, Replay(early[..k])), early[k], NO_REACTION)
  {
    assert Replay(early[..k + 1])[..k] == Replay(early[..k]);
  }

  lemma SurvivorsUpTo(early: seq<Event>, k: nat)
    requires k <= |early| && forall i :: 0 <= i < k ==> early[i].Signal?
    ensures Survivors(early) >= k
    ensures k < |early| && early[k].Failure? ==> Survivors(early) == k
  {
  }

  /** `s` has had the first `k` early events replayed to it, and none of them was an error. */
  predicate Replaying(s: Subscription, autoAck: bool, early: seq<Event>, k: nat)
  {
    && k <= |early| && !s.closed && s == Run(New(ObjectNotices, autoAck), Replay(early[..k]))
    && forall i :: 0 <= i < k ==> early[i].Signal?
  }

  /** One turn of the replay: a signal leaves the subscription open, an error throws and changes nothing. */
  lemma ReplayTurn(s: Subscription, autoAck: bool, early: seq<Event>, k: nat)
    requires Replaying(s, autoAck, early, k) && k < |early|
    ensures Throws(s, early[k], NO_REACTION) <==> early[k].Failure?
    ensures early[k].Signal? ==> Replaying(Dispatched(s, early[k], NO_REACTION), autoAck, early, k + 1)
    ensures early[k].Failure? ==> Dispatched(s, early[k], NO_REACTION) == s
  {
    ReplayExtends(New(ObjectNotices, autoAck), early, k);
    DispatchedTrace(s, early[k], NO_REACTION);
  }

  lemma ReplayEnds(s: Subscription, autoAck: bool, early: seq<Event>, k: nat)
    requires Replaying(s, autoAck, early, k) && (k == |early| || early[k].Failure?)
    ensures Survivors(early) == k && s == Run(New(ObjectNotices, autoAck), Replay(early[..Survivors(early)]))
  {
    SurvivorsUpTo(early, k);
  }

  /** The replay of what is pending, up to the first error. */
  method ReplayAll(w: ObjectWatch, pending: seq<Event>) returns (thrown: Option<int>)
    requires w.Abs() == New(ObjectNotices, w.autoAck)
    modifies w
    ensures w.Abs() == Run(New(ObjectNotices, w.autoAck), Replay(pending[..Survivors(pending)]))
    ensures thrown == if Survivors(pending) < |pending| then Some(pending[Survivors(pending)].code) else None
  {
    for k := 0 to |pending|
      invariant Replaying(w.Abs(), w.autoAck, pending, k)
    {
      ReplayTurn(w.Abs(), w.autoAck, pending, k);
      thrown := w.Dispatch(pending[k], NO_REACTION);
      if thrown.Some? {
        ReplayEnds(w.Abs(), w.autoAck, pending, k);
        return;
      }
    }
    ReplayEnds(w.Abs(), w.autoAck, pending, |pending|);
    thrown := None;
  }

  /**
   `IoContext.watch`: events that arrive before the object exists are kept back, then dispatched in order.
   An error among them is thrown: `w` is then held by the native callback only.
   */
  method Watch(early: seq<Event>, autoAck: bool) returns (w: ObjectWatch, thrown: Option<int>)
    ensures fresh(w) && w.Abs() == Run(New(ObjectNotices, autoAck), Replay(early[..Survivors(early)]))
    ensures match Replayed(ObjectNotices, autoAck, early)
            case Ok(s) => thrown == None && w.Abs() == s
            case Err(code) => thrown == Some(code)
  {
    var pending: seq<Event> := [];
    for k := 0 to |early|
      invariant pending == early[..k]
    {
      pending := pending + [early[k]];
    }
    assert pending == early;
    w := new ObjectWatch(autoAck);
    thrown := ReplayAll(w, pending);
    assert Survivors(early) == |early| ==> early[..Survivors(early)] == early;
  }

  /** `Cluster.monitorLogs`. */
  method MonitorLogs(early: seq<Event>) returns (w: MonitorLogSubscription)
    requires forall k :: 0 <= k < |early| ==> early[k].Signal?
    ensures fresh(w) && w.Abs() == Run(New(MonitorLines, false), Replay(early))
  {
    var pending: seq<Event> := [];
    for k := 0 to |early|
      invariant pending == early[..k]
    {
      pending := pending + [early[k]];
    }
    w := new MonitorLogSubscription();
    for k := 0 to |pending|
      invariant fresh(w) && w.Abs() == Run(New(MonitorLines, false), Replay(pending[..k]))
    {
      ReplayExtends(New(MonitorLines, false), pending, k);
      w.Dispatch(pending[k].arrival, pending[k].payload, NO_REACTION);
    }
    assert pending[..|pending|] == early;
  }

  /** `RbdImage.watchUpdates`. */
  method WatchUpdates(early: seq<Event>) returns (w: ImageUpdateWatch)
    requires forall k :: 0 <= k < |early| ==> early[k].Signal?
    ensures fresh(w) && w.Abs() == Run(New(ImageUpdates, false), Replay(early))
  {
    var pending: seq<Event> := [];
    for k := 0 to |early|
      invariant pending == early[..k]
    {
      pending := pending + [early[k]];
    }
    w := new ImageUpdateWatch();
    for k := 0 to |pending|
      invariant fresh(w) && w.Abs() == Run(New(ImageUpdates, false), Replay(pending[..k]))
    {
      ReplayExtends(New(ImageUpdates, false), pending, k);
      w.Dispatch(pending[k].arrival, pending[k].payload, NO_REACTION);
    }
    assert pending[..|pending|] == early;
  }
}
