/** WebSocket frames on the wire (sections 5.2 and 5.3 of RFC 6455): the server's incremental
    reader and its printer. */
module WsFrames {
  import opened Basics
  import opened BitWords
  import opened ByteOrder
  import opened Division

  const MAX_FRAME_PAYLOAD := 16 * 1024 * 1024

  datatype Frame = Frame(fin: bool, opcode: nat, payload: Bytes)

  // ---------------------------------------------------------------- bytes

  /** Bitwise exclusive or of the low `n` bits. */
  function XorBits(x: nat, y: nat, n: nat): (r: nat)
    decreases n
  {
    if n == 0 then 0 else (if x % 2 == y % 2 then 0 else 1) + 2 * XorBits(x / 2, y / 2, n - 1)
  }

  lemma {:induction false} XorBitsRange(x: nat, y: nat, n: nat)
    ensures XorBits(x, y, n) < Power(n)
    decreases n
  {
    if n > 0 {
      XorBitsRange(x / 2, y / 2, n - 1);
    }
  }

  lemma {:induction false} XorBitsInvolution(x: nat, y: nat, n: nat)
    requires x < Power(n)
    ensures XorBits(XorBits(x, y, n), y, n) == x
    decreases n
  {
    if n > 0 {
      XorBitsInvolution(x / 2, y / 2, n - 1);
      DivUnique(XorBits(x, y, n), 2, XorBits(x / 2, y / 2, n - 1), if x % 2 == y % 2 then 0 else 1);
    }
  }

  function XorByte(x: Byte, y: Byte): Byte {
    XorBitsRange(x, y, 8);
    assert Power(8) == 256;
    XorBits(x, y, 8)
  }

  /** The masking key is applied cyclically; applying it twice restores the payload. */
  function ApplyMask(payload: Bytes, mask: Bytes): (r: Bytes)
    requires |mask| == 4
    ensures |r| == |payload|
  {
    seq(|payload|, i requires 0 <= i < |payload| => XorByte(payload[i], mask[i % 4]))
  }

  lemma MaskInvolution(payload: Bytes, mask: Bytes)
    requires |mask| == 4
    ensures ApplyMask(ApplyMask(payload, mask), mask) == payload
  {
    forall i | 0 <= i < |payload|
      ensures XorByte(XorByte(payload[i], mask[i % 4]), mask[i % 4]) == payload[i]
    {
      assert Power(8) == 256;
      XorBitsInvolution(payload[i], mask[i % 4], 8);
    }
    hide XorByte;
  }

  // ---------------------------------------------------------------- reading

  /** What the front of the receive buffer amounts to. */
  datatype Front =
    | NeedMore
    | TooBig
    | Complete(frame: Frame, total: nat)

  /** Bytes of extended payload length after the first two. */
  function ExtendedLength(b1: Byte): nat {
    if b1 % 128 == 126 then 2 else if b1 % 128 == 127 then 8 else 0
  }

  function PayloadLength(buf: Bytes): nat
    requires |buf| >= 2 && |buf| >= 2 + ExtendedLength(buf[1])
  {
    if buf[1] % 128 < 126 then buf[1] % 128 else BigEndian(buf[2..2 + ExtendedLength(buf[1])])
  }

  function HeaderLength(buf: Bytes): nat
    requires |buf| >= 2
  {
    2 + ExtendedLength(buf[1]) + if buf[1] >= 128 then 4 else 0
  }

  /** The frame at the front of the buffer, once all of it is there; a frame too long is
      refused as soon as its length is known. */
  function Next(buf: Bytes): Front {
    if |buf| < 2 || |buf| < 2 + ExtendedLength(buf[1]) then NeedMore
    else if PayloadLength(buf) > MAX_FRAME_PAYLOAD then TooBig
    else
      var header := HeaderLength(buf);
      var total := header + PayloadLength(buf);
      if |buf| < total then NeedMore
      else
        Complete(FrameAt(buf, buf[header..total], if buf[1] >= 128 then Some(buf[header - 4..header]) else None), total)
  }

  function FrameAt(buf: Bytes, raw: Bytes, key: Option<Bytes>): Frame
    requires |buf| >= 2 && (key.Some? ==> |key.value| == 4)
  {
    Frame(buf[0] >= 128, buf[0] % 16, if key.Some? then ApplyMask(raw, key.value) else raw)
  }

  /** More bytes never change a verdict already reached. */
  lemma NextExtends(buf: Bytes, more: Bytes)
    ensures Next(buf) != NeedMore ==> Next(buf + more) == Next(buf)
    ensures Next(buf).Complete? ==> 2 <= Next(buf).total <= |buf|
  {
    hide ApplyMask, BigEndian;
    if |buf| >= 2 && |buf| >= 2 + ExtendedLength(buf[1]) {
      assert (buf + more)[..2] == buf[..2];
      assert (buf + more)[2..2 + ExtendedLength(buf[1])] == buf[2..2 + ExtendedLength(buf[1])];
      assert PayloadLength(buf + more) == PayloadLength(buf);
      var header := HeaderLength(buf);
      var total := header + PayloadLength(buf);
      if |buf| >= total {
        assert (buf + more)[header..total] == buf[header..total];
        if buf[1] >= 128 {
          assert (buf + more)[header - 4..header] == buf[header - 4..header];
        }
      }
    }
  }

  // ---------------------------------------------------------------- printing

  /** The shortest of the three length forms; `flag` is the mask bit. */
  function LengthField(flag: nat, n: nat): (r: Bytes)
    requires flag == 0 || flag == 128
  {
    if n < 126 then [flag + n]
    else if n <= 0xFFFF then [flag + 126] + BigEndianBytes(n, 2)
    else [flag + 127] + BigEndianBytes(n, 8)
  }

  /** A frame as section 5.2 lays it out, masked if a key is given. */
  function Print(frame: Frame, mask: Option<Bytes>): Bytes
    requires frame.opcode < 16
    requires mask.Some? ==> |mask.value| == 4
  {
    [(if frame.fin then 128 else 0) + frame.opcode]
    + LengthField(if mask.Some? then 128 else 0, |frame.payload|)
    + match mask
      case None => frame.payload
      case Some(key) => key + ApplyMask(frame.payload, key)
  }

  /** The server's own frames: final and unmasked. */
  method SendFrame(opcode: nat, data: Bytes) returns (frame: Bytes)
    requires opcode < 16
    ensures frame == Print(Frame(true, opcode, data), None)
  {
    frame := [128 + opcode];
    var length := PushLength(|data|);
    frame := frame + length;
    if |data| > 0 {
      frame := frame + data;
    }
    assert [128 + opcode] + length + data == frame;
  }

  method PushLength(n: nat) returns (length: Bytes)
    ensures length == LengthField(0, n)
  {
    hide BigEndianBytes, Shifted;
    if n < 126 {
      length := [n];
    } else if n <= 0xFFFF {
      length := [126];
      length := length + [n / 256 % 256];
      length := length + [n % 256];
      TwoBytes(n);
    } else {
      length := [127];
      NextByte(n, 8);
      var i := 8;
      while i > 0
        invariant 0 <= i <= 8
        invariant length == [127] + BigEndianBytes(Shifted(n, i), 8 - i)
      {
        i := i - 1;
        length := length + [Shifted(n, i) % 256];
        NextByte(n, i);
      }
    }
  }

  lemma TwoBytes(n: nat)
    ensures BigEndianBytes(n, 2) == [n / 256 % 256] + [n % 256]
  {
    assert BigEndianBytes(n / 256, 1) == [n / 256 % 256];
  }

  // ---------------------------------------------------------------- round trip

  lemma Middle(a: Bytes, b: Bytes, c: Bytes)
    ensures (a + b + c)[|a|..|a| + |b|] == b
  {}

  lemma LengthsFit(n: nat)
    ensures n <= 0xFFFF ==> n < Power256(2)
    ensures n <= MAX_FRAME_PAYLOAD ==> n < Power256(8)
  {
    assert Power256(2) == 0x1_0000;
    assert Power256(4) == 0x1_0000_0000;
    assert Power256(8) >= Power256(7) >= Power256(6) >= Power256(5) >= Power256(4);
  }

  lemma LongLengthReadBack(k: nat, n: nat, b0: Byte, b1: Byte, tail: Bytes)
    requires k == ExtendedLength(b1) && k > 0 && n < Power256(k)
    ensures PayloadLength([b0, b1] + BigEndianBytes(n, k) + tail) == n
  {
    BigEndianRoundTrip(n, k);
    Middle([b0, b1], BigEndianBytes(n, k), tail);
    hide BigEndian, BigEndianBytes, Power256;
  }

  lemma LengthReadBack(flag: nat, n: nat, b0: Byte, tail: Bytes)
    requires (flag == 0 || flag == 128) && n <= MAX_FRAME_PAYLOAD
    ensures var buf := [b0] + LengthField(flag, n) + tail;
            && |buf| >= 2 && 2 + ExtendedLength(buf[1]) == 1 + |LengthField(flag, n)|
            && (buf[1] >= 128 <==> flag == 128)
            && PayloadLength(buf) == n
  {
    hide BigEndian, BigEndianBytes, Power256;
    LengthsFit(n);
    if 126 <= n <= 0xFFFF {
      LongLengthReadBack(2, n, b0, flag + 126, tail);
      assert [b0] + ([flag + 126] + BigEndianBytes(n, 2)) + tail == [b0, flag + 126] + BigEndianBytes(n, 2) + tail;
    } else if n > 0xFFFF {
      LongLengthReadBack(8, n, b0, flag + 127, tail);
      assert [b0] + ([flag + 127] + BigEndianBytes(n, 8)) + tail == [b0, flag + 127] + BigEndianBytes(n, 8) + tail;
    }
  }

  /** What the reader makes of a buffer whose parts are known. */
  lemma NextOf(buf: Bytes, header: nat, raw: Bytes, key: Option<Bytes>)
    requires |buf| >= 2 && |buf| >= 2 + ExtendedLength(buf[1]) && PayloadLength(buf) == |raw| <= MAX_FRAME_PAYLOAD
    requires header == HeaderLength(buf) && |buf| >= header + |raw| && buf[header..header + |raw|] == raw
    requires if buf[1] >= 128 then key == Some(buf[header - 4..header]) else key == None
    ensures (key.Some? ==> |key.value| == 4) && Next(buf) == Complete(FrameAt(buf, raw, key), header + |raw|)
  {
    hide FrameAt, PayloadLength;
  }

  function Key(mask: Option<Bytes>): Bytes {
    if mask.Some? then mask.value else []
  }

  function Masked(payload: Bytes, mask: Option<Bytes>): (r: Bytes)
    requires mask.Some? ==> |mask.value| == 4
    ensures |r| == |payload|
  {
    if mask.Some? then ApplyMask(payload, mask.value) else payload
  }

  function FrontBytes(frame: Frame, mask: Option<Bytes>): Bytes
    requires frame.opcode < 16
  {
    [(if frame.fin then 128 else 0) + frame.opcode]
    + LengthField(if mask.Some? then 128 else 0, |frame.payload|)
  }

  lemma FrontReadBack(frame: Frame, mask: Option<Bytes>, tail: Bytes)
    requires frame.opcode < 16 && |frame.payload| <= MAX_FRAME_PAYLOAD && |Key(mask)| <= |tail|
    requires mask.Some? ==> |mask.value| == 4
    ensures var buf := FrontBytes(frame, mask) + tail;
            && |buf| >= 2 && |buf| >= 2 + ExtendedLength(buf[1])
            && HeaderLength(buf) == |FrontBytes(frame, mask)| + |Key(mask)|
            && PayloadLength(buf) == |frame.payload|
            && (buf[1] >= 128 <==> mask.Some?)
            && buf[0] % 16 == frame.opcode && (buf[0] >= 128 <==> frame.fin)
  {
    hide LengthField, PayloadLength, ExtendedLength;
    LengthReadBack(if mask.Some? then 128 else 0, |frame.payload|, (if frame.fin then 128 else 0) + frame.opcode, tail);
  }

  lemma PrintLayout(frame: Frame, mask: Option<Bytes>, rest: Bytes)
    requires frame.opcode < 16
    requires mask.Some? ==> |mask.value| == 4
    ensures Print(frame, mask) == FrontBytes(frame, mask) + Key(mask) + Masked(frame.payload, mask)
  {
    hide LengthField, ApplyMask;
  }

  lemma Regroup(a: Bytes, b: Bytes, c: Bytes, d: Bytes)
    ensures (a + b + c) + d == a + (b + c + d) == a + b + (c + d) == (a + b) + c + d
  {}

  /** The reader recovers every frame the printer lays out, masked or not and in any length
      form, and knows where it ends whatever follows. */
  lemma PrintedIsRead(frame: Frame, mask: Option<Bytes>, rest: Bytes)
    requires frame.opcode < 16 && |frame.payload| <= MAX_FRAME_PAYLOAD
    requires mask.Some? ==> |mask.value| == 4
    ensures Next(Print(frame, mask) + rest) == Complete(frame, |Print(frame, mask)|)
  {
    var front, key, data := FrontBytes(frame, mask), Key(mask), Masked(frame.payload, mask);
    var buf := Print(frame, mask) + rest;
    if mask.Some? { MaskInvolution(frame.payload, mask.value); }
    hide FrontBytes, LengthField, HeaderLength, PayloadLength, ExtendedLength, ApplyMask, Next, Print;
    PrintLayout(frame, mask, rest);
    Regroup(front, key, data, rest);
    FrontReadBack(frame, mask, key + data + rest);
    Middle(front, key, data + rest);
    Middle(front + key, data, rest);
    NextOf(buf, |front + key|, data, mask);
  }
}
