/** Who becomes the WebSocket client: over any run, only a connection that sent one complete upgrade
    request of at most 64 KiB with a key, from an allowed origin. Every other request is turned away. */
module WsDoor {
  import opened Basics
  import opened Sockets
  import opened SocketTrace
  import opened WsSession
  import opened WsSockets

  // ---------------------------------------------------------------- requests

  /** Carriage return, line feed, carriage return, line feed stand at `k`. */
  predicate EndsAt(buf: Bytes, k: nat) {
    k + 4 <= |buf| && buf[k] == 13 && buf[k + 1] == 10 && buf[k + 2] == 13 && buf[k + 3] == 10
  }

  ghost predicate IsComplete(buf: Bytes) {
    exists k: nat :: EndsAt(buf, k)
  }

  /** The scan for the end of the head finds it wherever it is. */
  lemma {:induction false} HeadIsFound(buf: Bytes)
    ensures HasHead(buf) <==> IsComplete(buf)
    decreases |buf|
  {
    if |buf| >= 4 {
      HeadIsFound(buf[1..]);
      assert buf[..4] == [13, 10, 13, 10] <==> EndsAt(buf, 0);
      if IsComplete(buf[1..]) {
        var k: nat :| EndsAt(buf[1..], k);
        assert EndsAt(buf, k + 1);
      }
      if IsComplete(buf) {
        var k: nat :| EndsAt(buf, k);
        if k > 0 { assert EndsAt(buf[1..], k - 1); }
      }
    }
  }

  /** A request the server takes a client for. */
  ghost predicate Admissible(request: Bytes, classify: Bytes -> Request) {
    |request| <= 65536 && IsComplete(request) && classify(request) == Upgrade(true)
  }

  // ---------------------------------------------------------------- one step

  /** A chunk on a pending connection: the connection becomes the client just if its request is now
      complete and admissible and there is no client; any other complete or oversize request closes
      the connection there and then, leaving client and session alone; an incomplete one waits. */
  lemma RequestDecides(w: World, i: nat, data: Bytes, classify: Bytes -> Request)
    requires i < |w.pending| && w.pending[i].fd.Some?
    ensures var v := Serve(w, i, Received(data), classify);
            var h, request := w.pending[i].fd.value, w.pending[i].buf + data;
            if Admissible(request, classify) && w.client == None then
              && v.client == Some(h) && v.calls == w.calls && v.pending == w.pending[i := FREE_SLOT]
              && v.session == w.session.(recvBuf := [], fragAcc := [], fragOpcode := 0, wire := []) && v.rejects == 0
            else if |request| > 65536 || IsComplete(request) then
              && v.client == w.client && v.session == w.session && v.sendQueue == w.sendQueue
              && v.calls == w.calls + [Closed(h)] && v.pending == w.pending[i := FREE_SLOT]
              && v.rejects == w.rejects + if |request| <= 65536 && classify(request).Upgrade? then 1 else 0
            else
              v == w.(pending := w.pending[i := Slot(Some(h), request)])
  {
    HeadIsFound(w.pending[i].buf + data);
    hide HasHead, IsComplete;
  }

  /** A new connection waits in the first free slot, or is closed at once if none is. */
  lemma RoomDecides(w: World, h: Handle)
    ensures var v := Accept(w, h);
            if exists i :: 0 <= i < |w.pending| && w.pending[i].fd == None then
              exists i | 0 <= i < |w.pending| ::
                && w.pending[i].fd == None && (forall k | 0 <= k < i :: w.pending[k].fd.Some?)
                && v == w.(calls := w.calls + [Opened(h)], pending := w.pending[i := Slot(Some(h), [])])
            else
              v == w.(calls := w.calls + [Opened(h)] + [Closed(h)])
  {
    var i := FirstFree(w.pending, Fd);
    if i < |w.pending| {
      assert w.pending[i].fd == None && Accept(w, h).pending == w.pending[i := Slot(Some(h), [])];
      assert forall k | 0 <= k < i :: w.pending[k].fd.Some?;
    }
  }

  /** A hang-up, an error or a failed receive closes a pending connection at once; nothing to do leaves
      it alone. */
  lemma SilenceDecides(w: World, i: nat, event: Event, classify: Bytes -> Request)
    requires i < |w.pending| && w.pending[i].fd.Some? && !event.Received?
    ensures Serve(w, i, event, classify)
            == if event.Quiet? then w
               else w.(calls := w.calls + [Closed(w.pending[i].fd.value)], pending := w.pending[i := Slot(None, [])])
  {}

  /** The client's session ends with a hang-up, an error, a failed receive, or bytes that hold a close
      or a frame too large: its handle is closed and what was not read or not finished forgotten, but
      messages queued either way stay. */
  lemma SessionEnds(w: World, event: Event)
    requires w.client.Some?
    ensures var v := Listen(w, event);
            if event.Quiet? then v == w
            else if event.Received? && !Feed(w.session, event.data).1 then
              v == w.(session := Feed(w.session, event.data).0)
            else
              && v.client == None && v.calls == w.calls + [Closed(w.client.value)] && v.rejects == 0
              && v.session.recvBuf == [] && v.session.fragAcc == [] && v.session.fragOpcode == 0
              && v.sendQueue == w.sendQueue && v.pending == w.pending
              && (!event.Received? ==>
                    && v.session.recvQueue == w.session.recvQueue
                    && v.session.recvBinaryQueue == w.session.recvBinaryQueue)
  {
    hide Drain;
  }

  // ---------------------------------------------------------------- runs

  /** A run, and what each handle has sent since it was last accepted and before it became client. */
  datatype Door = Door(w: World, requests: map<Handle, Bytes>)

  function Observe(requests: map<Handle, Bytes>, w: World, a: Action): map<Handle, Bytes> {
    match a
    case DoAccept(h) => if h in Open(w.calls) then requests else requests[h := []]
    case DoServe(i, event) =>
      if i < |w.pending| && w.pending[i].fd.Some? && event.Received? && w.pending[i].fd.value in requests then
        var h := w.pending[i].fd.value;
        requests[h := requests[h] + event.data]
      else requests
    case _ => requests
  }

  function StepDoor(d: Door, a: Action, classify: Bytes -> Request): (e: Door)
    requires WellFormed(d.w)
    ensures WellFormed(e.w)
  {
    StepWellFormed(d.w, a, classify);
    Door(Step(d.w, a, classify), Observe(d.requests, d.w, a))
  }

  function RunDoor(d: Door, actions: seq<Action>, classify: Bytes -> Request): (e: Door)
    requires WellFormed(d.w)
    ensures WellFormed(e.w)
    decreases |actions|
  {
    if |actions| == 0 then d else RunDoor(StepDoor(d, actions[0], classify), actions[1..], classify)
  }

  lemma {:induction false} ObservedRun(d: Door, actions: seq<Action>, classify: Bytes -> Request)
    requires WellFormed(d.w)
    ensures RunDoor(d, actions, classify).w == Run(d.w, actions, classify)
    decreases |actions|
  {
    hide Step, Observe, WellFormed;
    if |actions| > 0 {
      ObservedRun(StepDoor(d, actions[0], classify), actions[1..], classify);
    }
  }

  /** Each slot's buffer is what its handle has sent, too little to decide, and the client's request
      was admissible. */
  ghost predicate Guarded(d: Door, classify: Bytes -> Request) {
    && (forall i | 0 <= i < |d.w.pending| && d.w.pending[i].fd.Some? ::
          Waiting(d.w.pending[i], d.requests))
    && (d.w.client.Some? ==>
          d.w.client.value in d.requests && Admissible(d.requests[d.w.client.value], classify))
  }

  ghost predicate Waiting(slot: Slot, requests: map<Handle, Bytes>)
    requires slot.fd.Some?
  {
    var h := slot.fd.value;
    h in requests && slot.buf == requests[h] && |slot.buf| <= 65536 && !IsComplete(slot.buf)
  }

  ghost predicate Inv(d: Door, classify: Bytes -> Request) {
    WellFormed(d.w) && Owns(d.w) && Guarded(d, classify)
  }

  /** Handles in different places differ, and are open. */
  lemma Apart(w: World)
    requires Owns(w)
    ensures forall i, j | 0 <= i < j < |w.pending| && w.pending[i].fd.Some? :: w.pending[i].fd != w.pending[j].fd
    ensures forall i | 0 <= i < |w.pending| && w.pending[i].fd.Some? ::
              w.pending[i].fd != w.client && w.pending[i].fd.value in Open(w.calls)
    ensures w.client.Some? ==> w.client.value in Open(w.calls)
  {
    forall i | 0 <= i < |w.pending| && w.pending[i].fd.Some?
      ensures w.pending[i].fd != w.client && w.pending[i].fd.value in Open(w.calls)
    {
      assert HeldBySlot(w, w.pending[i].fd.value);
      assert Held(w, w.pending[i].fd.value);
    }
    if w.client.Some? { assert Held(w, w.client.value); }
    hide Open, Legal;
  }

  lemma AcceptGuards(d: Door, h: Handle, classify: Bytes -> Request)
    requires Inv(d, classify)
    ensures Guarded(StepDoor(d, DoAccept(h), classify), classify)
  {
    Apart(d.w);
    NothingEnds();
    hide Owns, Open, IsComplete;
  }

  lemma NothingEnds()
    ensures !IsComplete([])
  {}

  lemma ServeGuards(d: Door, i: nat, event: Event, classify: Bytes -> Request)
    requires Inv(d, classify)
    ensures Guarded(StepDoor(d, DoServe(i, event), classify), classify)
  {
    Apart(d.w);
    if i < |d.w.pending| && d.w.pending[i].fd.Some? && event.Received? {
      RequestDecides(d.w, i, event.data, classify);
      assert Waiting(d.w.pending[i], d.requests);
    }
    hide Owns, Open, IsComplete, HasHead;
  }

  lemma ListenGuards(d: Door, event: Event, classify: Bytes -> Request)
    requires Inv(d, classify)
    ensures Guarded(StepDoor(d, DoListen(event), classify), classify)
  {
    hide Owns, Open, IsComplete, Feed;
  }

  lemma OtherGuards(d: Door, a: Action, classify: Bytes -> Request)
    requires Inv(d, classify) && (a.DoDrain? || a.DoCheck? || a.DoPush?)
    ensures Guarded(StepDoor(d, a, classify), classify)
  {
    hide Owns, Open, IsComplete, Frames;
  }

  lemma StepGuards(d: Door, a: Action, classify: Bytes -> Request)
    requires Inv(d, classify)
    ensures Inv(StepDoor(d, a, classify), classify)
  {
    StepOwns(d.w, a, classify);
    match a
    case DoAccept(h) => AcceptGuards(d, h, classify);
    case DoServe(i, event) => ServeGuards(d, i, event, classify);
    case DoListen(event) => ListenGuards(d, event, classify);
    case _ => OtherGuards(d, a, classify);
    hide Guarded, Owns, Step, WellFormed;
  }

  lemma {:induction false} RunGuards(d: Door, actions: seq<Action>, classify: Bytes -> Request)
    requires Inv(d, classify)
    ensures Inv(RunDoor(d, actions, classify), classify)
    decreases |actions|
  {
    hide Guarded, Owns, StepDoor, WellFormed;
    if |actions| > 0 {
      StepGuards(d, actions[0], classify);
      RunGuards(StepDoor(d, actions[0], classify), actions[1..], classify);
    }
  }

  /** Over any run: whoever is the client sent, between its last accept and its promotion, one request
      of at most 64 KiB that holds an empty line and is an upgrade with a key from an allowed origin.
      And nothing complete or oversize is ever left waiting in one of the eight slots. */
  lemma ClientWasAdmitted(listener: Handle, actions: seq<Action>, classify: Bytes -> Request)
    ensures WellFormed(Start(listener))
    ensures var d := RunDoor(Door(Start(listener), map[]), actions, classify);
            && (d.w.client.Some? ==>
                  d.w.client.value in d.requests && Admissible(d.requests[d.w.client.value], classify))
            && |d.w.pending| == 8
            && (forall i | 0 <= i < |d.w.pending| && d.w.pending[i].fd.Some? :: Waiting(d.w.pending[i], d.requests))
  {
    StartOwns(listener);
    hide Owns;
    RunGuards(Door(Start(listener), map[]), actions, classify);
    hide RunDoor, Start, Waiting, Admissible;
  }
}
