/** What a session delivers does not depend on how the byte stream was cut into chunks, nor a
    message on how it was cut into fragments. */
module WsDelivery {
  import opened Basics
  import opened WsFrames
  import opened WsSession

  function Flatten(chunks: seq<Bytes>): Bytes {
    if |chunks| == 0 then [] else chunks[0] + Flatten(chunks[1..])
  }

  // ---------------------------------------------------------------- chunking

  /** The session over a sequence of chunks; nothing is read after a hang-up. */
  function FeedAll(s: State, chunks: seq<Bytes>): (State, bool)
    decreases |chunks|
  {
    if |chunks| == 0 then (s, false)
    else
      var (t, closed) := Feed(s, chunks[0]);
      if closed then (t, true) else FeedAll(t, chunks[1..])
  }

  function More(s: State, bytes: Bytes): State {
    s.(recvBuf := s.recvBuf + bytes)
  }

  /** No complete frame is waiting in the buffer. */
  predicate Quiescent(s: State) {
    Next(s.recvBuf) == NeedMore
  }

  lemma {:induction false} DrainExtends(s: State, more: Bytes)
    ensures var (t, closed) := Drain(s);
            Drain(More(s, more)) == if closed then (More(t, more), true) else Drain(More(t, more))
    decreases |s.recvBuf|
  {
    NextExtends(s.recvBuf, more);
    hide Handle, Next, Print;
    match Next(s.recvBuf)
    case NeedMore =>
    case TooBig =>
    case Complete(f, total) =>
      var rest := s.(recvBuf := s.recvBuf[total..]);
      assert More(s, more).(recvBuf := More(s, more).recvBuf[total..]) == More(rest, more);
      if f.opcode != CLOSE {
        HandleMore(rest, f, more);
        DrainExtends(Handle(rest, f), more);
      }
  }

  lemma HandleMore(s: State, f: Frame, more: Bytes)
    ensures Handle(More(s, more), f) == More(Handle(s, f), more)
  {}

  lemma {:induction false} DrainSettles(s: State)
    ensures var (t, closed) := Drain(s); !closed ==> Quiescent(t)
    decreases |s.recvBuf|
  {
    NextExtends(s.recvBuf, []);
    hide Handle, Next, Print;
    match Next(s.recvBuf)
    case NeedMore =>
    case TooBig =>
    case Complete(f, total) =>
      if f.opcode != CLOSE {
        DrainSettles(Handle(s.(recvBuf := s.recvBuf[total..]), f));
      }
  }

  /** Feeding chunk by chunk reaches the verdict, queues, replies and parser state of feeding
      the whole stream at once; only bytes behind a hang-up are left unread. */
  lemma {:induction false} ChunkingIsInvisible(s: State, chunks: seq<Bytes>)
    requires Quiescent(s)
    ensures var (t, closed) := FeedAll(s, chunks);
            var (u, closed') := Feed(s, Flatten(chunks));
            && closed == closed'
            && (if closed then t.recvBuf <= u.recvBuf && t.(recvBuf := u.recvBuf) == u else t == u)
    decreases |chunks|
  {
    hide Next;
    if |chunks| == 0 {
      assert More(s, []) == s;
    } else {
      var (t, closed) := Feed(s, chunks[0]);
      var rest := Flatten(chunks[1..]);
      DrainExtends(More(s, chunks[0]), rest);
      assert More(More(s, chunks[0]), rest) == More(s, Flatten(chunks));
      if !closed {
        DrainSettles(More(s, chunks[0]));
        ChunkingIsInvisible(t, chunks[1..]);
      }
    }
  }

  /** Any two ways of cutting one stream are indistinguishable. */
  lemma AnyTwoCuttings(s: State, chunks: seq<Bytes>, chunks': seq<Bytes>)
    requires Quiescent(s) && Flatten(chunks) == Flatten(chunks')
    ensures var (t, closed) := FeedAll(s, chunks);
            var (t', closed') := FeedAll(s, chunks');
            closed == closed' && t'.(recvBuf := t.recvBuf) == t && (!closed ==> t == t')
  {
    ChunkingIsInvisible(s, chunks);
    ChunkingIsInvisible(s, chunks');
    hide FeedAll, Feed;
  }

  // ---------------------------------------------------------------- frames to messages

  function HandleAll(s: State, frames: seq<Frame>): State
    decreases |frames|
  {
    if |frames| == 0 then s else HandleAll(Handle(s, frames[0]), frames[1..])
  }

  lemma {:induction false} HandleConcat(s: State, a: seq<Frame>, b: seq<Frame>)
    ensures HandleAll(s, a + b) == HandleAll(HandleAll(s, a), b)
    decreases |a|
  {
    hide Handle;
    if |a| == 0 {
      assert a + b == b;
    } else {
      assert (a + b)[1..] == a[1..] + b;
      HandleConcat(Handle(s, a[0]), a[1..], b);
    }
  }

  /** Opcodes the standard leaves unassigned; the server passes over them. */
  type Reserved = op: nat | 3 <= op < 8 || 11 <= op < 16 witness 3

  /** Frames that may stand anywhere, even between the fragments of a message. */
  datatype Control = Ping(payload: Bytes) | Pong(payload: Bytes) | Unassigned(op: Reserved, payload: Bytes) {
    function Opcode(): nat {
      match this
      case Ping(_) => PING
      case Pong(_) => PONG
      case Unassigned(op, _) => op
    }
  }

  /** A fragment and the control frames sent just before it. */
  datatype Piece = Piece(before: seq<Control>, data: Bytes)

  /** A data message as its sender cut it up. */
  datatype Message = Message(binary: bool, first: Piece, rest: seq<Piece>) {
    function Opcode(): nat {
      if binary then BINARY else TEXT
    }
  }

  function ControlFrames(controls: seq<Control>): seq<Frame> {
    if |controls| == 0 then []
    else [Frame(true, controls[0].Opcode(), controls[0].payload)] + ControlFrames(controls[1..])
  }

  /** One echoing pong per ping, in order. */
  function Echoes(controls: seq<Control>): Bytes {
    if |controls| == 0 then []
    else (if controls[0].Ping? then Reply(PONG, controls[0].payload) else []) + Echoes(controls[1..])
  }

  function ContinuationFrames(pieces: seq<Piece>): seq<Frame> {
    if |pieces| == 0 then []
    else ControlFrames(pieces[0].before) + [Frame(|pieces| == 1, CONTINUATION, pieces[0].data)]
         + ContinuationFrames(pieces[1..])
  }

  function MessageFrames(m: Message): seq<Frame> {
    ControlFrames(m.first.before) + [Frame(|m.rest| == 0, m.Opcode(), m.first.data)] + ContinuationFrames(m.rest)
  }

  /** The data of all the pieces, in order. */
  function Content(pieces: seq<Piece>): Bytes {
    if |pieces| == 0 then [] else pieces[0].data + Content(pieces[1..])
  }

  function PieceEchoes(pieces: seq<Piece>): Bytes {
    if |pieces| == 0 then [] else Echoes(pieces[0].before) + PieceEchoes(pieces[1..])
  }

  function MessageEchoes(m: Message): Bytes {
    Echoes(m.first.before) + PieceEchoes(m.rest)
  }

  /** What receiving a message ought to do: queue its content once and answer its pings. A message
      in fragments also ends whatever was under way or left over before it. */
  function Deliver(s: State, m: Message): State {
    var content := m.first.data + Content(m.rest);
    s.(recvQueue := if m.binary then s.recvQueue else s.recvQueue + [content],
       recvBinaryQueue := if m.binary then s.recvBinaryQueue + [content] else s.recvBinaryQueue,
       wire := s.wire + MessageEchoes(m),
       fragAcc := if |m.rest| == 0 then s.fragAcc else [],
       fragOpcode := if |m.rest| == 0 then s.fragOpcode else 0)
  }

  lemma {:induction false} ControlsEcho(s: State, controls: seq<Control>)
    ensures HandleAll(s, ControlFrames(controls)) == s.(wire := s.wire + Echoes(controls))
    decreases |controls|
  {
    hide Print;
    if |controls| > 0 {
      var f := ControlFrames(controls)[0];
      assert ControlFrames(controls)[1..] == ControlFrames(controls[1..]);
      var echo := if controls[0].Ping? then Reply(PONG, controls[0].payload) else [];
      ControlsEcho(Handle(s, f), controls[1..]);
      Assoc(s.wire, echo, Echoes(controls[1..]));
    }
  }

  lemma Assoc(a: Bytes, b: Bytes, c: Bytes)
    ensures (a + b) + c == a + (b + c)
  {}

  /** The rest of a message under way: its fragments accumulate, and the last one delivers. */
  lemma {:induction false} ContinuationsDeliver(s: State, pieces: seq<Piece>)
    requires |pieces| > 0 && (s.fragOpcode == TEXT || s.fragOpcode == BINARY)
    ensures var content := s.fragAcc + Content(pieces);
            HandleAll(s, ContinuationFrames(pieces)) == s.(
              recvQueue := if s.fragOpcode == TEXT then s.recvQueue + [content] else s.recvQueue,
              recvBinaryQueue := if s.fragOpcode == BINARY then s.recvBinaryQueue + [content] else s.recvBinaryQueue,
              wire := s.wire + PieceEchoes(pieces),
              fragAcc := [],
              fragOpcode := 0)
    decreases |pieces|
  {
    var controls := ControlFrames(pieces[0].before);
    var data := [Frame(|pieces| == 1, CONTINUATION, pieces[0].data)];
    HandleConcat(s, controls + data, ContinuationFrames(pieces[1..]));
    HandleConcat(s, controls, data);
    ControlsEcho(s, pieces[0].before);
    var t := Handle(s.(wire := s.wire + Echoes(pieces[0].before)), data[0]);
    assert HandleAll(s, controls + data) == t;
    hide Echoes, ControlFrames;
    Assoc(s.fragAcc, pieces[0].data, Content(pieces[1..]));
    Assoc(s.wire, Echoes(pieces[0].before), PieceEchoes(pieces[1..]));
    if |pieces| > 1 {
      ContinuationsDeliver(t, pieces[1..]);
    } else {
      assert Content(pieces) == pieces[0].data && PieceEchoes(pieces) == Echoes(pieces[0].before);
    }
  }

  /** However a message is fragmented, whatever control frames are interleaved, and whatever the
      session had under way, it is delivered exactly once, whole, on its own queue. */
  lemma MessageIsDelivered(s: State, m: Message)
    ensures HandleAll(s, MessageFrames(m)) == Deliver(s, m)
  {
    var controls := ControlFrames(m.first.before);
    var data := [Frame(|m.rest| == 0, m.Opcode(), m.first.data)];
    HandleConcat(s, controls + data, ContinuationFrames(m.rest));
    HandleConcat(s, controls, data);
    ControlsEcho(s, m.first.before);
    var t := Handle(s.(wire := s.wire + Echoes(m.first.before)), data[0]);
    assert HandleAll(s, controls + data) == t;
    hide Echoes, ControlFrames;
    Assoc(s.wire, Echoes(m.first.before), PieceEchoes(m.rest));
    if |m.rest| > 0 {
      ContinuationsDeliver(t, m.rest);
    } else {
      assert m.first.data + [] == m.first.data && MessageEchoes(m) == Echoes(m.first.before);
    }
  }

  /** Continuations no data frame opened deliver nothing and send nothing. */
  lemma {:induction false} StrayContinuations(s: State, frames: seq<Frame>)
    requires s.fragOpcode == 0 && forall f | f in frames :: f.opcode == CONTINUATION
    ensures var t := HandleAll(s, frames);
            t == s.(fragAcc := t.fragAcc)
    decreases |frames|
  {
    if |frames| > 0 {
      StrayContinuations(Handle(s, frames[0]), frames[1..]);
    }
  }

  // ---------------------------------------------------------------- bytes to messages

  /** Frames a peer may send: representable, within the size cap, each with or without a key. */
  predicate Sendable(frames: seq<Frame>, masks: seq<Option<Bytes>>) {
    && |masks| == |frames|
    && (forall f | f in frames :: f.opcode < 16 && |f.payload| <= MAX_FRAME_PAYLOAD)
    && (forall m | m in masks :: m.Some? ==> |m.value| == 4)
  }

  function OnWire(frames: seq<Frame>, masks: seq<Option<Bytes>>): Bytes
    requires Sendable(frames, masks)
    decreases |frames|
  {
    if |frames| == 0 then [] else Print(frames[0], masks[0]) + OnWire(frames[1..], masks[1..])
  }

  /** Printed frames are read back one by one, with no byte left over or taken from what follows. */
  lemma {:induction false} FramesAreRead(s: State, frames: seq<Frame>, masks: seq<Option<Bytes>>, rest: Bytes)
    requires Sendable(frames, masks) && forall f | f in frames :: f.opcode != CLOSE
    ensures Drain(s.(recvBuf := OnWire(frames, masks) + rest)) == Drain(HandleAll(s.(recvBuf := rest), frames))
    decreases |frames|
  {
    hide Next, Print, Handle;
    if |frames| == 0 {
      assert OnWire(frames, masks) + rest == rest;
    } else {
      var f, printed, tail := frames[0], Print(frames[0], masks[0]), OnWire(frames[1..], masks[1..]) + rest;
      Assoc(printed, OnWire(frames[1..], masks[1..]), rest);
      PrintedIsRead(f, masks[0], tail);
      assert (printed + tail)[|printed|..] == tail;
      HandleRest(s, f, tail, rest);
      FramesAreRead(Handle(s.(recvBuf := rest), f), frames[1..], masks[1..], rest);
    }
  }

  lemma HandleRest(s: State, f: Frame, a: Bytes, b: Bytes)
    ensures Handle(s.(recvBuf := a), f) == Handle(s.(recvBuf := b), f).(recvBuf := a)
  {}

  /** A close frame is answered with an empty one and ends the session; bytes behind it stay unread. */
  lemma CloseIsAnswered(s: State, f: Frame, mask: Option<Bytes>, rest: Bytes)
    requires f.opcode == CLOSE && |f.payload| <= MAX_FRAME_PAYLOAD && (mask.Some? ==> |mask.value| == 4)
    ensures Drain(s.(recvBuf := Print(f, mask) + rest))
            == (s.(recvBuf := rest, wire := s.wire + Reply(CLOSE, [])), true)
  {
    PrintedIsRead(f, mask, rest);
    hide Next, Print;
    assert (Print(f, mask) + rest)[|Print(f, mask)|..] == rest;
  }

  /** A frame list read from any cutting of its bytes is handled frame by frame, and nothing is left
      in the buffer. */
  lemma StreamIsHandled(s: State, frames: seq<Frame>, masks: seq<Option<Bytes>>, chunks: seq<Bytes>)
    requires s.recvBuf == [] && Sendable(frames, masks) && Flatten(chunks) == OnWire(frames, masks)
    requires forall f | f in frames :: f.opcode != CLOSE
    ensures FeedAll(s, chunks) == (HandleAll(s, frames), false)
  {
    hide OnWire, Handle, Print, HandleAll, FeedAll, Flatten, Sendable;
    ChunkingIsInvisible(s, chunks);
    FramesAreRead(s, frames, masks, []);
    HandleAllKeeps(s, frames);
    assert s.recvBuf + Flatten(chunks) == OnWire(frames, masks) + [];
    assert s.(recvBuf := []) == s;
  }

  lemma {:induction false} HandleAllKeeps(s: State, frames: seq<Frame>)
    ensures HandleAll(s, frames).recvBuf == s.recvBuf
    decreases |frames|
  {
    hide Handle;
    if |frames| > 0 {
      HandleAllKeeps(Handle(s, frames[0]), frames[1..]);
    }
  }
}
