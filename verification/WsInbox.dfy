/** What the WebSocket server hears: over any run, the messages it queues are, session by session,
    those completed by the frames in the bytes that session received. */
module WsInbox {
  import opened Basics
  import opened Sockets
  import opened WsFrames
  import opened WsSession
  import opened WsDelivery
  import opened WsStreams
  import opened WsSockets

  // ---------------------------------------------------------------- the frames in a stream

  /** The frames a stream begins with, what follows them, and whether reading is over: at a close
      frame or at one too large. */
  datatype Parsed = Parsed(frames: seq<Frame>, rest: Bytes, over: bool)

  function Parse(bytes: Bytes): Parsed
    decreases |bytes|
  {
    match Next(bytes)
    case NeedMore => Parsed([], bytes, false)
    case TooBig => Parsed([], bytes, true)
    case Complete(f, total) =>
      NextExtends(bytes, []);
      if f.opcode == CLOSE then Parsed([], bytes[total..], true)
      else
        var p := Parse(bytes[total..]);
        p.(frames := [f] + p.frames)
  }

  /** More bytes go on where the frames so far end. */
  lemma {:induction false} ParseMore(a: Bytes, b: Bytes)
    requires !Parse(a).over
    ensures var p, q := Parse(a), Parse(Parse(a).rest + b); Parse(a + b) == q.(frames := p.frames + q.frames)
    decreases |a|
  {
    hide Next;
    NextExtends(a, b);
    NextExtends(a, []);
    match Next(a)
    case NeedMore =>
      assert [] + Parse(a + b).frames == Parse(a + b).frames;
    case Complete(f, total) =>
      var rest := a[total..];
      assert (a + b)[total..] == rest + b;
      ParseMore(rest, b);
      var p, q := Parse(rest), Parse(Parse(rest).rest + b);
      assert [f] + (p.frames + q.frames) == [f] + p.frames + q.frames;
  }

  /** Printed frames, masked or not, are the frames of their bytes. */
  lemma {:induction false} ParseOnWire(frames: seq<Frame>, masks: seq<Option<Bytes>>, rest: Bytes)
    requires Sendable(frames, masks) && forall f | f in frames :: f.opcode != CLOSE
    ensures Parse(OnWire(frames, masks) + rest) == Parse(rest).(frames := frames + Parse(rest).frames)
    decreases |frames|
  {
    hide Next, Print;
    if |frames| == 0 {
      assert OnWire(frames, masks) + rest == rest && frames + Parse(rest).frames == Parse(rest).frames;
    } else {
      var printed, tail := Print(frames[0], masks[0]), OnWire(frames[1..], masks[1..]) + rest;
      Assoc(printed, OnWire(frames[1..], masks[1..]), rest);
      PrintedIsRead(frames[0], masks[0], tail);
      NextExtends(printed + tail, []);
      assert (printed + tail)[|printed|..] == tail;
      ParseOnWire(frames[1..], masks[1..], rest);
      assert [frames[0]] + (frames[1..] + Parse(rest).frames) == frames + Parse(rest).frames;
    }
  }

  // ---------------------------------------------------------------- the parser handles those frames

  /** A session's state but for what is still to be read and what has been written. */
  function Core(s: State): State {
    s.(recvBuf := [], wire := [])
  }

  lemma CoreHandle(s: State, t: State, f: Frame)
    requires Core(s) == Core(t)
    ensures Core(WsSession.Handle(s, f)) == Core(WsSession.Handle(t, f))
  {
    hide Reply;
  }

  lemma {:induction false} CoreHandleAll(s: State, t: State, frames: seq<Frame>)
    requires Core(s) == Core(t)
    ensures Core(HandleAll(s, frames)) == Core(HandleAll(t, frames))
    decreases |frames|
  {
    hide WsSession.Handle;
    if |frames| > 0 {
      CoreHandle(s, t, frames[0]);
      CoreHandleAll(WsSession.Handle(s, frames[0]), WsSession.Handle(t, frames[0]), frames[1..]);
    }
  }

  /** The parse loop handles just the frames its buffer begins with. */
  lemma {:induction false} DrainParses(s: State)
    ensures var (t, closed) := Drain(s);
            var p := Parse(s.recvBuf);
            closed == p.over && t.recvBuf == p.rest && Core(t) == Core(HandleAll(s, p.frames))
    decreases |s.recvBuf|
  {
    hide WsSession.Handle, Next, Reply;
    NextExtends(s.recvBuf, []);
    match Next(s.recvBuf)
    case NeedMore =>
    case TooBig =>
    case Complete(f, total) =>
      var rest := s.(recvBuf := s.recvBuf[total..]);
      if f.opcode != CLOSE {
        DrainParses(WsSession.Handle(rest, f));
        CoreHandle(rest, s, f);
        CoreHandleAll(WsSession.Handle(rest, f), WsSession.Handle(s, f), Parse(rest.recvBuf).frames);
      }
  }

  // ---------------------------------------------------------------- runs and what was received

  /** A run and the bytes received, by session in order of upgrade. */
  datatype Inbox = Inbox(w: World, received: seq<Bytes>)

  function Observe(received: seq<Bytes>, w: World, a: Action, v: World): seq<Bytes> {
    if w.client == None && v.client.Some? then received + [[]]
    else if w.client.Some? && a.DoListen? && a.event.Received? && |received| > 0 then
      received[|received| - 1 := received[|received| - 1] + a.event.data]
    else received
  }

  function StepInbox(p: Inbox, a: Action, classify: Bytes -> Request): (q: Inbox)
    requires WellFormed(p.w)
    ensures WellFormed(q.w)
  {
    StepWellFormed(p.w, a, classify);
    var v := Step(p.w, a, classify);
    Inbox(v, Observe(p.received, p.w, a, v))
  }

  function RunInbox(p: Inbox, actions: seq<Action>, classify: Bytes -> Request): (q: Inbox)
    requires WellFormed(p.w)
    ensures WellFormed(q.w)
    decreases |actions|
  {
    if |actions| == 0 then p else RunInbox(StepInbox(p, actions[0], classify), actions[1..], classify)
  }

  lemma {:induction false} ObservedRun(p: Inbox, actions: seq<Action>, classify: Bytes -> Request)
    requires WellFormed(p.w)
    ensures RunInbox(p, actions, classify).w == Run(p.w, actions, classify)
    decreases |actions|
  {
    hide Step, Observe, WellFormed;
    if |actions| > 0 {
      ObservedRun(StepInbox(p, actions[0], classify), actions[1..], classify);
    }
  }

  /** The messages of one kind the first `n` sessions sent whole. */
  function Heard(received: seq<Bytes>, opcode: nat, n: nat): seq<Bytes>
    requires n <= |received|
  {
    if n == 0 then []
    else
      var frames := Parse(received[n - 1]).frames;
      Heard(received, opcode, n - 1) + Messages(frames, opcode, |frames|)
  }

  lemma {:induction false} HeardSame(a: seq<Bytes>, b: seq<Bytes>, opcode: nat, n: nat)
    requires n <= |a| && n <= |b| && a[..n] == b[..n]
    ensures Heard(a, opcode, n) == Heard(b, opcode, n)
  {
    hide Parse, Messages;
    if n > 0 {
      assert a[..n - 1] == a[..n][..n - 1] && b[..n - 1] == b[..n][..n - 1] && a[n - 1] == a[..n][n - 1];
      HeardSame(a, b, opcode, n - 1);
    }
  }

  /** A session at its start, after `n` others. */
  function Begun(received: seq<Bytes>, n: nat): State
    requires n <= |received|
  {
    FRESH.(recvQueue := Heard(received, TEXT, n), recvBinaryQueue := Heard(received, BINARY, n))
  }

  ghost predicate Listening(s: State, received: seq<Bytes>) {
    && |received| > 0
    && var p := Parse(received[|received| - 1]);
       && !p.over && s.recvBuf == p.rest
       && Core(s) == Core(HandleAll(Begun(received, |received| - 1), p.frames))
  }

  ghost predicate Inv(p: Inbox) {
    && WellFormed(p.w)
    && if p.w.client.Some? then Listening(p.w.session, p.received)
       else Core(p.w.session) == Begun(p.received, |p.received|)
  }

  /** Handling all frames of a session adds its messages. */
  lemma HandledIsHeard(received: seq<Bytes>, n: nat)
    requires n < |received|
    ensures var s := HandleAll(Begun(received, n), Parse(received[n]).frames);
            s.recvQueue == Heard(received, TEXT, n + 1) && s.recvBinaryQueue == Heard(received, BINARY, n + 1)
  {
    var frames := Parse(received[n]).frames;
    ParsedStaysOpen(received[n]);
    assert frames[..|frames|] == frames;
    hide Parse, HandleAll;
    FirstFramesDeliver(Begun(received, n), frames, |frames|);
    hide Messages;
  }

  lemma {:induction false} ParsedStaysOpen(bytes: Bytes)
    ensures forall f | f in Parse(bytes).frames :: f.opcode != CLOSE
    decreases |bytes|
  {
    hide Next;
    NextExtends(bytes, []);
    match Next(bytes)
    case NeedMore =>
    case TooBig =>
    case Complete(f, total) =>
      if f.opcode != CLOSE { ParsedStaysOpen(bytes[total..]); }
  }

  /** A session going on. */
  lemma ListeningMore(s: State, received: seq<Bytes>, data: Bytes)
    requires Listening(s, received)
    ensures var last := received[|received| - 1];
            var received' := received[|received| - 1 := last + data];
            var (t, closed) := Feed(s, data);
            var p := Parse(last + data);
            && closed == p.over && t.recvBuf == p.rest
            && Core(t) == Core(HandleAll(Begun(received', |received| - 1), p.frames))
  {
    hide Heard, Parse, HandleAll, Drain;
    var n := |received| - 1;
    var last := received[n];
    var received' := received[n := last + data];
    assert received'[..n] == received[..n];
    HeardSame(received, received', TEXT, n);
    HeardSame(received, received', BINARY, n);
    var start, fed := Begun(received, n), s.(recvBuf := s.recvBuf + data);
    var more := Parse(fed.recvBuf).frames;
    DrainParses(fed);
    ParseMore(last, data);
    HandleConcat(start, Parse(last).frames, more);
    CoreHandleAll(fed, HandleAll(start, Parse(last).frames), more);
  }

  lemma SessionOver(s: State, received: seq<Bytes>, n: nat)
    requires n + 1 == |received| && Core(s) == Core(HandleAll(Begun(received, n), Parse(received[n]).frames))
    ensures s.recvQueue == Heard(received, TEXT, n + 1) && s.recvBinaryQueue == Heard(received, BINARY, n + 1)
    ensures Core(Reset(s)) == Begun(received, n + 1)
  {
    HandledIsHeard(received, n);
    hide Heard, HandleAll, Parse;
  }

  lemma ListenInbox(p: Inbox, event: Event, classify: Bytes -> Request)
    requires Inv(p)
    ensures Inv(StepInbox(p, DoListen(event), classify))
  {
    hide Heard, Parse, HandleAll, Feed, WellFormed;
    if p.w.client.Some? {
      var n := |p.received| - 1;
      SessionOver(p.w.session, p.received, n);
      if event.Received? {
        ListeningMore(p.w.session, p.received, event.data);
        var received := p.received[n := p.received[n] + event.data];
        SessionOver(Feed(p.w.session, event.data).0, received, n);
      }
      hide Core, Begun, Reset;
    }
  }

  lemma ServeInbox(p: Inbox, i: nat, event: Event, classify: Bytes -> Request)
    requires Inv(p)
    ensures Inv(StepInbox(p, DoServe(i, event), classify))
  {
    hide Heard, WellFormed, HasHead;
    var q := StepInbox(p, DoServe(i, event), classify);
    if p.w.client == None && q.w.client.Some? {
      FirstBytes(p.received);
      hide Parse, HandleAll;
      assert q.w.session == Reset(p.w.session).(wire := []);
    }
  }

  /** A session before its first byte. */
  lemma FirstBytes(received: seq<Bytes>)
    ensures var n := |received|;
            Begun(received + [[]], n) == Begun(received, n)
            && Listening(Begun(received, n), received + [[]])
  {
    assert (received + [[]])[..|received|] == received[..|received|];
    HeardSame(received, received + [[]], TEXT, |received|);
    HeardSame(received, received + [[]], BINARY, |received|);
    hide Heard;
    assert Parse([]) == Parsed([], [], false);
  }

  lemma OtherInbox(p: Inbox, a: Action, classify: Bytes -> Request)
    requires Inv(p) && (a.DoAccept? || a.DoDrain? || a.DoCheck? || a.DoPush?)
    ensures Inv(StepInbox(p, a, classify))
  {
    hide Heard, Parse, HandleAll, Frames, WellFormed, Open;
  }

  lemma StepHears(p: Inbox, a: Action, classify: Bytes -> Request)
    requires Inv(p)
    ensures Inv(StepInbox(p, a, classify))
  {
    hide StepInbox, Inv;
    match a
    case DoListen(event) => ListenInbox(p, event, classify);
    case DoServe(i, event) => ServeInbox(p, i, event, classify);
    case _ => OtherInbox(p, a, classify);
  }

  lemma {:induction false} RunHears(p: Inbox, actions: seq<Action>, classify: Bytes -> Request)
    requires Inv(p)
    ensures WellFormed(p.w) && Inv(RunInbox(p, actions, classify))
    decreases |actions|
  {
    hide Listening, Core, Begun, WellFormed, StepInbox;
    if |actions| > 0 {
      StepHears(p, actions[0], classify);
      RunHears(StepInbox(p, actions[0], classify), actions[1..], classify);
    }
  }

  lemma StartHears(listener: Handle)
    ensures WellFormed(Start(listener)) && Inv(Inbox(Start(listener), []))
  {}

  /** Over any run, with other threads sending and the queue being drained in between: the text and
      binary messages queued are, session by session and in order, just those the bytes received on
      each session complete, whatever these bytes are and however they were cut. And the parser of
      the session connected now is where those bytes leave it. */
  lemma EverySessionIsHeard(listener: Handle, actions: seq<Action>, classify: Bytes -> Request)
    ensures WellFormed(Start(listener))
    ensures var p := RunInbox(Inbox(Start(listener), []), actions, classify);
            && p.w.session.recvQueue == Heard(p.received, TEXT, |p.received|)
            && p.w.session.recvBinaryQueue == Heard(p.received, BINARY, |p.received|)
            && (p.w.client.Some? ==> Listening(p.w.session, p.received))
  {
    StartHears(listener);
    RunHears(Inbox(Start(listener), []), actions, classify);
    var p := RunInbox(Inbox(Start(listener), []), actions, classify);
    hide RunInbox, Start, Heard, Parse, HandleAll;
    if p.w.client.Some? {
      SessionOver(p.w.session, p.received, |p.received| - 1);
    }
  }

  /** So a session that received printed frames, masked with any keys or not, contributes just their
      messages. */
  lemma FramesAreHeard(received: seq<Bytes>, n: nat, frames: seq<Frame>, masks: seq<Option<Bytes>>, opcode: nat)
    requires n < |received| && Sendable(frames, masks) && forall f | f in frames :: f.opcode != CLOSE
    requires received[n] == OnWire(frames, masks)
    ensures Heard(received, opcode, n + 1) == Heard(received, opcode, n) + Messages(frames, opcode, |frames|)
  {
    ParseOnWire(frames, masks, []);
    assert OnWire(frames, masks) + [] == OnWire(frames, masks);
    assert Parse([]) == Parsed([], [], false) && frames + [] == frames;
    hide Parse, Messages, OnWire;
  }
}
