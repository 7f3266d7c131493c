/** The poll loop as a machine over socket handles: who holds which handle, and when each is
    opened and closed. */
module WsSockets {
  import opened Basics
  import opened Sockets
  import opened SocketTrace
  import opened WsSession

  const MAX_PENDING_HTTP := 8
  const MAX_REQUEST := 64 * 1024
  const SEND_QUEUE_LIMIT := 32

  /** A connection whose HTTP request is still coming in. */
  datatype Slot = Slot(fd: Option<Handle>, buf: Bytes)

  const FREE_SLOT := Slot(None, [])

  datatype SendItem = SendItem(opcode: nat, data: Bytes)

  /** What a complete request head asks for. */
  datatype Request = NotLocal | Upgrade(hasKey: bool) | Static

  datatype World = World(
    listener: Option<Handle>,
    pending: seq<Slot>,
    client: Option<Handle>,
    session: State,
    sendQueue: seq<SendItem>,
    passed: set<nat>,         // threads that found a client and have not queued their message yet
    rejects: nat,
    calls: Trace              // accepts and closes
  )

  /** End of a request head: an empty line. */
  predicate HasHead(buf: Bytes) {
    |buf| >= 4 && (buf[..4] == [13, 10, 13, 10] || HasHead(buf[1..]))
  }

  // ---------------------------------------------------------------- steps

  function Start(h: Handle): World {
    World(Some(h), seq(MAX_PENDING_HTTP, _ => FREE_SLOT), None, FRESH, [], {}, 0, [Opened(h)])
  }

  function Close(w: World, h: Handle): World {
    w.(calls := w.calls + [Closed(h)])
  }

  function Fd(slot: Slot): Option<Handle> {
    slot.fd
  }

  function Accept(w: World, h: Handle): World {
    var w1 := w.(calls := w.calls + [Opened(h)]);
    var i := FirstFree(w.pending, Fd);
    if i < |w.pending| then w1.(pending := w.pending[i := Slot(Some(h), [])]) else Close(w1, h)
  }

  /** Close a pending connection and free its slot. */
  function Drop(w: World, i: nat): World
    requires i < |w.pending| && w.pending[i].fd.Some?
  {
    Close(w, w.pending[i].fd.value).(pending := w.pending[i := FREE_SLOT])
  }

  /** Parser state at the start and after the end of a session; queued messages survive. */
  function Reset(s: State): State {
    s.(recvBuf := [], fragAcc := [], fragOpcode := 0)
  }

  /** Turn a pending connection into the WebSocket session. */
  function Promote(w: World, i: nat): World
    requires i < |w.pending| && w.pending[i].fd.Some?
  {
    w.(client := w.pending[i].fd, session := Reset(w.session).(wire := []), rejects := 0,
       pending := w.pending[i := FREE_SLOT])
  }

  function Serve(w: World, i: nat, event: Event, classify: Bytes -> Request): World
    requires i < |w.pending|
  {
    if w.pending[i].fd == None then w
    else match event
      case Quiet => w
      case HangUp => Drop(w, i)
      case RecvFailed => Drop(w, i)
      case Received(data) =>
        var buf := w.pending[i].buf + data;
        if |buf| > MAX_REQUEST then Drop(w, i)
        else if !HasHead(buf) then w.(pending := w.pending[i := w.pending[i].(buf := buf)])
        else match classify(buf)
          case NotLocal => Drop(w, i)
          case Static => Drop(w, i)
          case Upgrade(hasKey) =>
            if hasKey && w.client == None then Promote(w, i)
            else Drop(w, i).(rejects := w.rejects + 1)
  }

  function EndSession(w: World): World
    requires w.client.Some?
  {
    Close(w, w.client.value).(client := None, session := Reset(w.session), rejects := 0)
  }

  function Listen(w: World, event: Event): World {
    if w.client == None then w
    else match event
      case Quiet => w
      case HangUp => EndSession(w)
      case RecvFailed => EndSession(w)
      case Received(data) =>
        var (session, closed) := Feed(w.session, data);
        if closed then EndSession(w.(session := session)) else w.(session := session)
  }

  function Frames(items: seq<SendItem>): Bytes
    requires forall i | i in items :: i.opcode < 16
  {
    if |items| == 0 then [] else Reply(items[0].opcode, items[0].data) + Frames(items[1..])
  }

  /** Hand everything queued to the client, if there is one. */
  function DrainSends(w: World): World
    requires forall i | i in w.sendQueue :: i.opcode < 16
  {
    if w.client == None then w
    else w.(session := w.session.(wire := w.session.wire + Frames(w.sendQueue)), sendQueue := [])
  }

  /** Sending, first half: a thread that finds a client may go on to queue its message. */
  function Check(w: World, thread: nat): World {
    if w.client == None || thread in w.passed then w else w.(passed := w.passed + {thread})
  }

  /** Queue a message; the oldest makes room. */
  function Enqueue(w: World, item: SendItem): World {
    if |w.sendQueue| >= SEND_QUEUE_LIMIT then w.(sendQueue := w.sendQueue[1..] + [item])
    else w.(sendQueue := w.sendQueue + [item])
  }

  /** Sending, second half: the message is queued whoever is connected by then, if anyone. */
  function Push(w: World, thread: nat, item: SendItem): World {
    if thread !in w.passed then w else Enqueue(w, item).(passed := w.passed - {thread})
  }

  function CloseSlots(w: World, n: nat): World
    requires n <= |w.pending|
    ensures CloseSlots(w, n) == w.(pending := CloseSlots(w, n).pending, calls := CloseSlots(w, n).calls)
    ensures |CloseSlots(w, n).pending| == |w.pending|
    ensures forall k | n <= k < |w.pending| :: CloseSlots(w, n).pending[k] == w.pending[k]
  {
    if n == 0 then w
    else
      var v := CloseSlots(w, n - 1);
      if v.pending[n - 1].fd == None then v
      else Close(v, v.pending[n - 1].fd.value).(pending := v.pending[n - 1 := v.pending[n - 1].(fd := None)])
  }

  /** The clean-up after the loop: every pending connection, the client, the listener. */
  function Shutdown(w: World): World {
    var v := CloseSlots(w, |w.pending|);
    var u := if v.client == None then v else Close(v, v.client.value).(client := None);
    if u.listener == None then u else Close(u, u.listener.value).(listener := None)
  }

  // ---------------------------------------------------------------- runs

  datatype Action =
    | DoAccept(h: Handle)
    | DoServe(i: nat, event: Event)
    | DoListen(event: Event)
    | DoDrain
    | DoCheck(thread: nat)
    | DoPush(thread: nat, text: bool, data: Bytes)

  /** The item a text or binary message is queued as. */
  function Item(text: bool, data: Bytes): (item: SendItem)
    ensures item.opcode < 16
  {
    SendItem(if text then TEXT else BINARY, data)
  }

  predicate WellFormed(w: World) {
    && |w.pending| == MAX_PENDING_HTTP && |w.sendQueue| <= SEND_QUEUE_LIMIT
    && forall i | i in w.sendQueue :: i.opcode < 16
  }

  /** One atomic step of any thread: sending is two, as the check for a client and the queue are
      not guarded together, and any number of threads may send. The kernel hands out only handles not in use. */
  function Step(w: World, a: Action, classify: Bytes -> Request): World
    requires WellFormed(w)
  {
    match a
    case DoAccept(h) => if h in Open(w.calls) then w else Accept(w, h)
    case DoServe(i, event) => if i < MAX_PENDING_HTTP then Serve(w, i, event, classify) else w
    case DoListen(event) => Listen(w, event)
    case DoDrain => DrainSends(w)
    case DoCheck(thread) => Check(w, thread)
    case DoPush(thread, text, data) => Push(w, thread, Item(text, data))
  }

  lemma StepWellFormed(w: World, a: Action, classify: Bytes -> Request)
    requires WellFormed(w)
    ensures WellFormed(Step(w, a, classify))
  {
    hide Feed, Frames, HasHead;
  }

  function Run(w: World, actions: seq<Action>, classify: Bytes -> Request): World
    requires WellFormed(w)
    decreases |actions|
  {
    if |actions| == 0 then w
    else
      StepWellFormed(w, actions[0], classify);
      Run(Step(w, actions[0], classify), actions[1..], classify)
  }

  // ---------------------------------------------------------------- who holds what

  /** Handles open after a sequence of calls. */
  function Open(calls: Trace): set<Handle> {
    if |calls| == 0 then {}
    else
      var before, last := Open(calls[..|calls| - 1]), calls[|calls| - 1];
      if last.Opened? then before + {last.h} else if last.Closed? then before - {last.h} else before
  }

  /** Only closed handles are opened, and only open handles used and closed. */
  predicate Legal(calls: Trace) {
    |calls| == 0 ||
    var before, last := calls[..|calls| - 1], calls[|calls| - 1];
    Legal(before) && (if last.Opened? then last.h !in Open(before) else last.h in Open(before))
  }

  lemma OpenNext(calls: Trace, c: Call)
    requires c.Opened? || c.Closed?
    ensures Open(calls + [c]) == if c.Opened? then Open(calls) + {c.h} else Open(calls) - {c.h}
    ensures Legal(calls + [c]) <==> Legal(calls) && (c.h in Open(calls) <==> c.Closed?)
  {
    assert (calls + [c])[..|calls|] == calls;
  }

  predicate HeldBySlot(w: World, h: Handle) {
    exists i | 0 <= i < |w.pending| :: w.pending[i].fd == Some(h)
  }

  predicate Held(w: World, h: Handle) {
    w.listener == Some(h) || w.client == Some(h) || HeldBySlot(w, h)
  }

  /** Every open handle is in exactly one place, and nothing else is held. */
  ghost predicate Owns(w: World) {
    && |w.pending| == MAX_PENDING_HTTP
    && Legal(w.calls)
    && (forall h :: Held(w, h) <==> h in Open(w.calls))
    && (forall i, j | 0 <= i < j < |w.pending| && w.pending[i].fd.Some? :: w.pending[i].fd != w.pending[j].fd)
    && (w.client.Some? ==> w.client != w.listener && !HeldBySlot(w, w.client.value))
    && (w.listener.Some? ==> !HeldBySlot(w, w.listener.value))
  }

  lemma StartOwns(h: Handle)
    ensures Owns(Start(h)) && WellFormed(Start(h))
  {
    var w := Start(h);
    OpenNext([], Opened(h));
    assert [] + [Opened(h)] == w.calls;
    assert Open([]) == {} && Legal([]);
    hide Open, Legal;
    forall g: Handle
      ensures !HeldBySlot(w, g)
    {
      assert forall i | 0 <= i < |w.pending| :: w.pending[i].fd == None;
    }
  }

  lemma AcceptOwns(w: World, h: Handle)
    requires Owns(w) && h !in Open(w.calls)
    ensures Owns(Accept(w, h))
  {
    var v := Accept(w, h);
    OpenNext(w.calls, Opened(h));
    OpenNext(w.calls + [Opened(h)], Closed(h));
    var i := FirstFree(w.pending, Fd);
    hide Open, Legal;
    if i < |w.pending| {
      assert v.pending[i].fd == Some(h);
      forall g: Handle
        ensures HeldBySlot(v, g) <==> HeldBySlot(w, g) || g == h
      {
        if HeldBySlot(w, g) {
          var k :| 0 <= k < |w.pending| && w.pending[k].fd == Some(g);
          assert v.pending[k].fd == Some(g);
        }
      }
      assert !Held(w, h);
    } else {
      assert Open(v.calls) == Open(w.calls);
      SameSlots(w, v);
    }
  }

  lemma SameSlots(w: World, v: World)
    requires |w.pending| == |v.pending|
    requires forall i | 0 <= i < |w.pending| :: w.pending[i].fd == v.pending[i].fd
    ensures forall h :: HeldBySlot(w, h) <==> HeldBySlot(v, h)
  {
    forall h: Handle
      ensures HeldBySlot(w, h) <==> HeldBySlot(v, h)
    {
      if HeldBySlot(w, h) {
        var i :| 0 <= i < |w.pending| && w.pending[i].fd == Some(h);
        assert v.pending[i].fd == Some(h);
      }
    }
  }

  /** Emptying a slot gives up exactly the handle it held. */
  lemma EmptySlot(w: World, v: World, i: nat)
    requires Owns(w) && i < |w.pending| && w.pending[i].fd.Some?
    requires |v.pending| == |w.pending| && v.pending[i].fd == None
    requires forall k | 0 <= k < |w.pending| && k != i :: v.pending[k].fd == w.pending[k].fd
    ensures forall h :: HeldBySlot(v, h) <==> HeldBySlot(w, h) && h != w.pending[i].fd.value
  {
    var given := w.pending[i].fd.value;
    forall h: Handle
      ensures HeldBySlot(v, h) <==> HeldBySlot(w, h) && h != given
    {
      if HeldBySlot(v, h) {
        var k :| 0 <= k < |v.pending| && v.pending[k].fd == Some(h);
        assert w.pending[k].fd == Some(h);
      }
      if HeldBySlot(w, h) && h != given {
        var k :| 0 <= k < |w.pending| && w.pending[k].fd == Some(h);
        assert v.pending[k].fd == Some(h);
      }
    }
  }

  lemma DropOwns(w: World, i: nat)
    requires Owns(w) && i < |w.pending| && w.pending[i].fd.Some?
    ensures Owns(Drop(w, i))
  {
    var v, h := Drop(w, i), w.pending[i].fd.value;
    assert HeldBySlot(w, h) && Held(w, h);
    OpenNext(w.calls, Closed(h));
    EmptySlot(w, v, i);
    hide Open, Legal, HeldBySlot;
  }

  lemma PromoteOwns(w: World, i: nat)
    requires Owns(w) && i < |w.pending| && w.pending[i].fd.Some? && w.client == None
    ensures Owns(Promote(w, i))
  {
    var v, h := Promote(w, i), w.pending[i].fd.value;
    assert HeldBySlot(w, h);
    EmptySlot(w, v, i);
    hide Open, Legal, HeldBySlot;
  }

  lemma EndSessionOwns(w: World)
    requires Owns(w) && w.client.Some?
    ensures Owns(EndSession(w))
  {
    assert Held(w, w.client.value);
    OpenNext(w.calls, Closed(w.client.value));
    SameSlots(w, EndSession(w));
    hide Open, Legal, HeldBySlot;
  }

  /** Bookkeeping that touches no handle. */
  lemma SameHandlesOwn(w: World, v: World)
    requires Owns(w) && v.listener == w.listener && v.client == w.client && v.calls == w.calls
    requires |v.pending| == |w.pending| && forall i | 0 <= i < |w.pending| :: v.pending[i].fd == w.pending[i].fd
    ensures Owns(v)
  {
    SameSlots(w, v);
    hide Open, Legal, HeldBySlot;
  }

  lemma ServeOwns(w: World, i: nat, event: Event, classify: Bytes -> Request)
    requires Owns(w) && i < |w.pending|
    ensures Owns(Serve(w, i, event, classify))
  {
    hide Owns, Drop, Promote, HasHead;
    if w.pending[i].fd.Some? {
      DropOwns(w, i);
      if w.client == None { PromoteOwns(w, i); }
      if event.Received? {
        SameHandlesOwn(Drop(w, i), Drop(w, i).(rejects := w.rejects + 1));
        SameHandlesOwn(w, w.(pending := w.pending[i := w.pending[i].(buf := w.pending[i].buf + event.data)]));
      }
    }
  }

  lemma ListenOwns(w: World, event: Event)
    requires Owns(w)
    ensures Owns(Listen(w, event))
  {
    if w.client.Some? {
      EndSessionOwns(w);
      if event.Received? {
        var v := w.(session := Feed(w.session, event.data).0);
        SameHandlesOwn(w, v);
        EndSessionOwns(v);
      }
      hide Owns, EndSession, Feed;
    }
  }

  /** Every step of either thread keeps the ownership invariant. */
  lemma StepOwns(w: World, a: Action, classify: Bytes -> Request)
    requires WellFormed(w) && Owns(w)
    ensures Owns(Step(w, a, classify))
  {
    match a
    case DoAccept(h) =>
      if h !in Open(w.calls) { AcceptOwns(w, h); }
    case DoServe(i, event) =>
      if i < MAX_PENDING_HTTP { ServeOwns(w, i, event, classify); }
    case DoListen(event) =>
      ListenOwns(w, event);
    case DoDrain =>
      SameHandlesOwn(w, DrainSends(w));
    case DoCheck(thread) =>
      SameHandlesOwn(w, Check(w, thread));
    case DoPush(thread, text, data) =>
      SameHandlesOwn(w, Push(w, thread, Item(text, data)));
  }

  lemma {:induction false} RunOwns(w: World, actions: seq<Action>, classify: Bytes -> Request)
    requires WellFormed(w) && Owns(w)
    ensures WellFormed(Run(w, actions, classify)) && Owns(Run(w, actions, classify))
    decreases |actions|
  {
    hide Step, Owns, WellFormed;
    if |actions| > 0 {
      StepWellFormed(w, actions[0], classify);
      StepOwns(w, actions[0], classify);
      RunOwns(Step(w, actions[0], classify), actions[1..], classify);
    }
  }

  /** Closing a pending connection at the clean-up, where its buffer is left alone. */
  lemma CloseOneOwns(w: World, i: nat)
    requires Owns(w) && i < |w.pending| && w.pending[i].fd.Some?
    ensures Owns(Close(w, w.pending[i].fd.value).(pending := w.pending[i := w.pending[i].(fd := None)]))
  {
    DropOwns(w, i);
    hide Owns;
    SameHandlesOwn(Drop(w, i), Close(w, w.pending[i].fd.value).(pending := w.pending[i := w.pending[i].(fd := None)]));
  }

  lemma {:induction false} CloseSlotsOwns(w: World, n: nat)
    requires Owns(w) && n <= |w.pending|
    ensures Owns(CloseSlots(w, n))
    ensures forall k | 0 <= k < n :: CloseSlots(w, n).pending[k].fd == None
  {
    hide Owns;
    if n > 0 {
      CloseSlotsOwns(w, n - 1);
      var v := CloseSlots(w, n - 1);
      if v.pending[n - 1].fd.Some? {
        CloseOneOwns(v, n - 1);
      }
    }
  }

  lemma ClientClosedOwns(w: World)
    requires Owns(w) && w.client.Some?
    ensures Owns(Close(w, w.client.value).(client := None))
  {
    EndSessionOwns(w);
    hide Owns;
    SameHandlesOwn(EndSession(w), Close(w, w.client.value).(client := None));
  }

  /** With no client and all slots free only the listener can be open. */
  lemma ListenerIsLast(w: World)
    requires Owns(w) && w.client == None && forall k | 0 <= k < |w.pending| :: w.pending[k].fd == None
    ensures Legal(w.calls) && Open(w.calls) == if w.listener.Some? then {w.listener.value} else {}
  {
    hide Open, Legal;
    forall h
      ensures h in Open(w.calls) <==> w.listener == Some(h)
    {
      assert !HeldBySlot(w, h);
      assert Held(w, h) <==> h in Open(w.calls);
    }
  }

  /** The clean-up leaves nothing open. */
  lemma ShutdownClosesAll(w: World)
    requires Owns(w)
    ensures Legal(Shutdown(w).calls) && Open(Shutdown(w).calls) == {}
  {
    CloseSlotsOwns(w, |w.pending|);
    var v := CloseSlots(w, |w.pending|);
    hide Owns, CloseSlots, Open, Legal;
    var u := if v.client == None then v else Close(v, v.client.value).(client := None);
    if v.client.Some? {
      ClientClosedOwns(v);
    }
    ListenerIsLast(u);
    if u.listener.Some? {
      OpenNext(u.calls, Closed(u.listener.value));
    }
  }

  /** In a legal history a handle has been closed as often as opened, unless it is open now. */
  lemma {:induction false} ClosedAsOftenAsOpened(calls: Trace, h: Handle)
    requires Legal(calls)
    ensures multiset(calls)[Opened(h)] == multiset(calls)[Closed(h)] + if h in Open(calls) then 1 else 0
  {
    if |calls| > 0 {
      var before, last := calls[..|calls| - 1], calls[|calls| - 1];
      ClosedAsOftenAsOpened(before, h);
      assert calls == before + [last];
    }
  }

  /** Over any run, any interleaving of the two threads' steps and then the clean-up: sockets
      are only closed while open, and every one is closed exactly as often as it was opened. */
  lemma RunClosesEverySocketOnce(listener: Handle, actions: seq<Action>, classify: Bytes -> Request, h: Handle)
    ensures WellFormed(Start(listener))
    ensures var calls := Shutdown(Run(Start(listener), actions, classify)).calls;
            Legal(calls) && multiset(calls)[Opened(h)] == multiset(calls)[Closed(h)]
  {
    StartOwns(listener);
    hide Start, Run, Shutdown;
    RunOwns(Start(listener), actions, classify);
    ShutdownClosesAll(Run(Start(listener), actions, classify));
    ClosedAsOftenAsOpened(Shutdown(Run(Start(listener), actions, classify)).calls, h);
  }

  // ---------------------------------------------------------------- the send queue

  function EnqueueAll(w: World, items: seq<SendItem>): World
    decreases |items|
  {
    if |items| == 0 then w else EnqueueAll(Enqueue(w, items[0]), items[1..])
  }

  function Newest(items: seq<SendItem>): seq<SendItem> {
    if |items| <= SEND_QUEUE_LIMIT then items else items[|items| - SEND_QUEUE_LIMIT..]
  }

  lemma NewestStep(queue: seq<SendItem>, items: seq<SendItem>)
    requires |items| > 0 && |queue| <= SEND_QUEUE_LIMIT
    ensures Newest(queue + items) == Newest(Newest(queue + [items[0]]) + items[1..])
  {
    var all := queue + items;
    assert queue + [items[0]] + items[1..] == all;
    if |queue| == SEND_QUEUE_LIMIT {
      assert Newest(queue + [items[0]]) + items[1..] == all[1..];
    }
  }

  /** The queue holds the newest 32 messages not yet sent. */
  lemma {:induction false} QueueKeepsNewest(w: World, items: seq<SendItem>)
    requires |w.sendQueue| <= SEND_QUEUE_LIMIT
    ensures var all := w.sendQueue + items;
            EnqueueAll(w, items) == w.(sendQueue := if |all| <= 32 then all else all[|all| - 32..])
    decreases |items|
  {
    if |items| == 0 {
      assert w.sendQueue + items == w.sendQueue;
    } else {
      var v := Enqueue(w, items[0]);
      assert v == w.(sendQueue := Newest(w.sendQueue + [items[0]]));
      NewestStep(w.sendQueue, items);
      hide Newest, Enqueue;
      QueueKeepsNewest(v, items[1..]);
    }
  }
}
