/** One WebSocket session: frames are cut from the receive buffer and turned into messages
    and replies (sections 5.4 and 5.5 of RFC 6455). */
module WsSession {
  import opened Basics
  import opened ByteOrder
  import opened WsFrames

  const CONTINUATION := 0
  const TEXT := 1
  const BINARY := 2
  const CLOSE := 8
  const PING := 9
  const PONG := 10

  /** Session state as a value. `wire` is everything sent so far. */
  datatype State = State(
    recvBuf: Bytes,
    fragAcc: Bytes,
    fragOpcode: nat,
    recvQueue: seq<Bytes>,
    recvBinaryQueue: seq<Bytes>,
    wire: Bytes
  )

  const FRESH := State([], [], 0, [], [], [])

  function Reply(opcode: nat, payload: Bytes): Bytes
    requires opcode < 16
  {
    Print(Frame(true, opcode, payload), None)
  }

  /** Effect of one frame other than a close. */
  function Handle(s: State, f: Frame): (r: State)
    ensures r.recvBuf == s.recvBuf
  {
    if f.opcode == CONTINUATION then
      var acc := s.fragAcc + f.payload;
      if !f.fin then s.(fragAcc := acc)
      else s.(
        recvQueue := if s.fragOpcode == TEXT then s.recvQueue + [acc] else s.recvQueue,
        recvBinaryQueue := if s.fragOpcode == BINARY then s.recvBinaryQueue + [acc] else s.recvBinaryQueue,
        fragAcc := [],
        fragOpcode := 0)
    else if f.opcode == TEXT then
      if f.fin then s.(recvQueue := s.recvQueue + [f.payload])
      else s.(fragOpcode := TEXT, fragAcc := f.payload)
    else if f.opcode == BINARY then
      if f.fin then s.(recvBinaryQueue := s.recvBinaryQueue + [f.payload])
      else s.(fragOpcode := BINARY, fragAcc := f.payload)
    else if f.opcode == PING then
      s.(wire := s.wire + Reply(PONG, f.payload))
    else s
  }

  /** Everything the buffered bytes allow: the resulting state, and whether to hang up. */
  function Drain(s: State): (State, bool)
    decreases |s.recvBuf|
  {
    match Next(s.recvBuf)
    case NeedMore => (s, false)
    case TooBig => (s, true)
    case Complete(f, total) =>
      NextExtends(s.recvBuf, []);
      var rest := s.(recvBuf := s.recvBuf[total..]);
      if f.opcode == CLOSE then (rest.(wire := rest.wire + Reply(CLOSE, [])), true)
      else Drain(Handle(rest, f))
  }

  /** Arrival of one chunk. */
  function Feed(s: State, chunk: Bytes): (State, bool) {
    Drain(s.(recvBuf := s.recvBuf + chunk))
  }

  // ---------------------------------------------------------------- the parser

  class Session {
    var recvBuf: Bytes
    var fragAcc: Bytes
    var fragOpcode: nat
    var recvQueue: seq<Bytes>
    var recvBinaryQueue: seq<Bytes>
    var wire: Bytes

    function Now(): State
      reads this
    {
      State(recvBuf, fragAcc, fragOpcode, recvQueue, recvBinaryQueue, wire)
    }

    constructor ()
      ensures Now() == FRESH
    {
      recvBuf, fragAcc, fragOpcode := [], [], 0;
      recvQueue, recvBinaryQueue, wire := [], [], [];
    }

    /** A chunk has been received. */
    method Receive(chunk: Bytes) returns (closeConn: bool)
      modifies this
      ensures (Now(), closeConn) == Feed(old(Now()), chunk)
    {
      recvBuf := recvBuf + chunk;
      closeConn := ParseFrames();
    }

    method ParseFrames() returns (closeConn: bool)
      modifies this
      ensures (Now(), closeConn) == Drain(old(Now()))
    {
      hide Handle, Next, Print;
      while true
        invariant Drain(Now()) == Drain(old(Now()))
        decreases |recvBuf|
      {
        var front := ReadFront(recvBuf);
        match front
        case NeedMore =>
          return false;
        case TooBig =>
          return true;
        case Complete(f, total) =>
          NextExtends(recvBuf, []);
          recvBuf := recvBuf[total..];
          if f.opcode == CLOSE {
            var reply := SendFrame(CLOSE, []);
            wire := wire + reply;
            return true;
          }
          Dispatch(f);
      }
    }

    /** Start of a session on a new connection; undelivered messages stay queued. */
    method Reopen()
      modifies this
      ensures Now() == old(Now()).(recvBuf := [], fragAcc := [], fragOpcode := 0, wire := [])
    {
      recvBuf, fragAcc, fragOpcode, wire := [], [], 0, [];
    }

    /** End of a session: parser state is cleared. */
    method Discard()
      modifies this
      ensures Now() == old(Now()).(recvBuf := [], fragAcc := [], fragOpcode := 0)
    {
      recvBuf, fragAcc, fragOpcode := [], [], 0;
    }

    method Send(opcode: nat, data: Bytes)
      requires opcode < 16
      modifies this
      ensures Now() == old(Now()).(wire := old(wire) + Reply(opcode, data))
    {
      var frame := SendFrame(opcode, data);
      wire := wire + frame;
    }

    method Dispatch(f: Frame)
      modifies this
      ensures Now() == Handle(old(Now()), f)
    {
      if f.opcode == CONTINUATION {
        fragAcc := fragAcc + f.payload;
        if f.fin {
          if fragOpcode == TEXT {
            recvQueue := recvQueue + [fragAcc];
          } else if fragOpcode == BINARY {
            recvBinaryQueue := recvBinaryQueue + [fragAcc];
          }
          fragAcc := [];
          fragOpcode := 0;
        }
      } else if f.opcode == TEXT {
        if f.fin {
          recvQueue := recvQueue + [f.payload];
        } else {
          fragOpcode := TEXT;
          fragAcc := f.payload;
        }
      } else if f.opcode == BINARY {
        if f.fin {
          recvBinaryQueue := recvBinaryQueue + [f.payload];
        } else {
          fragOpcode := BINARY;
          fragAcc := f.payload;
        }
      } else if f.opcode == PING {
        var reply := SendFrame(PONG, f.payload);
        wire := wire + reply;
      }
    }
  }

  /** Cut the first frame off a buffer, if it is all there. */
  method ReadFront(buf: Bytes) returns (front: Front)
    ensures front == Next(buf)
  {
    if |buf| < 2 { return NeedMore; }
    var payloadLen := buf[1] % 128;
    var headerLen := 2;
    if payloadLen == 126 {
      if |buf| < 4 { return NeedMore; }
      payloadLen := ReadLength(buf, 2);
      headerLen := 4;
    } else if payloadLen == 127 {
      if |buf| < 10 { return NeedMore; }
      payloadLen := ReadLength(buf, 8);
      headerLen := 10;
    }
    if payloadLen > MAX_FRAME_PAYLOAD { return TooBig; }
    var masked := buf[1] >= 128;
    if masked { headerLen := headerLen + 4; }
    var total := headerLen + payloadLen;
    if |buf| < total { return NeedMore; }
    var payload := buf[headerLen..total];
    if masked {
      payload := Unmask(payload, buf[headerLen - 4..headerLen]);
    }
    return Complete(Frame(buf[0] >= 128, buf[0] % 16, payload), total);
  }

  method ReadLength(buf: Bytes, n: nat) returns (len: nat)
    requires |buf| >= 2 + n
    ensures len == BigEndian(buf[2..2 + n])
  {
    len := 0;
    for i := 0 to n
      invariant len == BigEndian(buf[2..2 + i])
    {
      len := len * 256 + buf[2 + i];
      assert buf[2..2 + (i + 1)][..i] == buf[2..2 + i];
    }
  }

  method Unmask(data: Bytes, mask: Bytes) returns (payload: Bytes)
    requires |mask| == 4
    ensures payload == ApplyMask(data, mask)
  {
    hide XorByte;
    payload := data;
    for i := 0 to |data|
      invariant |payload| == |data|
      invariant forall k | 0 <= k < |data| ::
          payload[k] == if k < i then XorByte(data[k], mask[k % 4]) else data[k]
    {
      payload := payload[i := XorByte(payload[i], mask[i % 4])];
    }
  }
}
