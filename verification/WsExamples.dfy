/** The frames section 5.7 of RFC 6455 gives as examples, byte for byte. */
module WsExamples {
  import opened Basics
  import opened ByteOrder
  import opened WsFrames
  import opened WsSession

  const HELLO: Bytes := [0x48, 0x65, 0x6C, 0x6C, 0x6F]

  const EXAMPLE_KEY: Bytes := [0x37, 0xFA, 0x21, 0x3D]

  const MASKED_HELLO: Bytes := [0x7F, 0x9F, 0x4D, 0x51, 0x58]

  /** A single-frame unmasked text message, and the same in two fragments. */
  lemma UnmaskedText()
    ensures Print(Frame(true, TEXT, HELLO), None) == [0x81, 0x05] + HELLO
    ensures Print(Frame(false, TEXT, HELLO[..3]), None) == [0x01, 0x03, 0x48, 0x65, 0x6C]
    ensures Print(Frame(true, CONTINUATION, HELLO[3..]), None) == [0x80, 0x02, 0x6C, 0x6F]
  {
    assert HELLO[..3] == [0x48, 0x65, 0x6C] && HELLO[3..] == [0x6C, 0x6F];
  }

  lemma HelloIsMasked()
    ensures ApplyMask(HELLO, EXAMPLE_KEY) == MASKED_HELLO
  {
    MaskedH();
    MaskedE();
    MaskedFirstL();
    MaskedSecondL();
    MaskedO();
    hide XorByte;
    var m := ApplyMask(HELLO, EXAMPLE_KEY);
    assert m[0] == XorByte(0x48, 0x37) && m[1] == XorByte(0x65, 0xFA) && m[2] == XorByte(0x6C, 0x21);
    assert m[3] == XorByte(0x6C, 0x3D) && m[4] == XorByte(0x6F, 0x37);
  }

  /** One bit more at the low end. */
  lemma XorMore(x: nat, y: nat, n: nat, v: nat)
    requires n > 0 && v == XorBits(x / 2, y / 2, n - 1)
    ensures XorBits(x, y, n) == (if x % 2 == y % 2 then 0 else 1) + 2 * v
  {}

  lemma XorByteIs(x: Byte, y: Byte)
    ensures XorByte(x, y) == XorBits(x, y, 8)
  {}

  lemma MaskedH()
    ensures XorByte(0x48, 0x37) == 0x7F
  {
    hide XorBits;
    NoBits(0, 0);
    XorMore(0, 0, 1, 0);
    XorMore(1, 0, 2, 0);
    XorMore(2, 1, 3, 1);
    XorMore(4, 3, 4, 3);
    XorMore(9, 6, 5, 7);
    XorMore(18, 13, 6, 15);
    XorMore(36, 27, 7, 31);
    XorMore(72, 55, 8, 63);
    XorByteIs(72, 55);
    hide XorByte;
  }

  lemma MaskedE()
    ensures XorByte(0x65, 0xFA) == 0x9F
  {
    hide XorBits;
    NoBits(0, 0);
    XorMore(0, 1, 1, 0);
    XorMore(1, 3, 2, 1);
    XorMore(3, 7, 3, 2);
    XorMore(6, 15, 4, 4);
    XorMore(12, 31, 5, 9);
    XorMore(25, 62, 6, 19);
    XorMore(50, 125, 7, 39);
    XorMore(101, 250, 8, 79);
    XorByteIs(101, 250);
    hide XorByte;
  }

  lemma MaskedFirstL()
    ensures XorByte(0x6C, 0x21) == 0x4D
  {
    hide XorBits;
    NoBits(0, 0);
    XorMore(0, 0, 1, 0);
    XorMore(1, 0, 2, 0);
    XorMore(3, 1, 3, 1);
    XorMore(6, 2, 4, 2);
    XorMore(13, 4, 5, 4);
    XorMore(27, 8, 6, 9);
    XorMore(54, 16, 7, 19);
    XorMore(108, 33, 8, 38);
    XorByteIs(108, 33);
    hide XorByte;
  }

  lemma MaskedSecondL()
    ensures XorByte(0x6C, 0x3D) == 0x51
  {
    hide XorBits;
    NoBits(0, 0);
    XorMore(0, 0, 1, 0);
    XorMore(1, 0, 2, 0);
    XorMore(3, 1, 3, 1);
    XorMore(6, 3, 4, 2);
    XorMore(13, 7, 5, 5);
    XorMore(27, 15, 6, 10);
    XorMore(54, 30, 7, 20);
    XorMore(108, 61, 8, 40);
    XorByteIs(108, 61);
    hide XorByte;
  }

  lemma MaskedO()
    ensures XorByte(0x6F, 0x37) == 0x58
  {
    hide XorBits;
    NoBits(0, 0);
    XorMore(0, 0, 1, 0);
    XorMore(1, 0, 2, 0);
    XorMore(3, 1, 3, 1);
    XorMore(6, 3, 4, 2);
    XorMore(13, 6, 5, 5);
    XorMore(27, 13, 6, 11);
    XorMore(55, 27, 7, 22);
    XorMore(111, 55, 8, 44);
    XorByteIs(111, 55);
    hide XorByte;
  }

  lemma NoBits(x: nat, y: nat)
    ensures XorBits(x, y, 0) == 0
  {}

  /** A single-frame masked text message, printed and read. */
  lemma MaskedText()
    ensures Print(Frame(true, TEXT, HELLO), Some(EXAMPLE_KEY)) == [0x81, 0x85] + EXAMPLE_KEY + MASKED_HELLO
    ensures Next([0x81, 0x85] + EXAMPLE_KEY + MASKED_HELLO) == Complete(Frame(true, TEXT, HELLO), 11)
  {
    HelloIsMasked();
    PrintedIsRead(Frame(true, TEXT, HELLO), Some(EXAMPLE_KEY), []);
    hide ApplyMask, Next;
    var bytes := [0x81, 0x85] + EXAMPLE_KEY + MASKED_HELLO;
    assert Print(Frame(true, TEXT, HELLO), Some(EXAMPLE_KEY)) == bytes;
    assert bytes + [] == bytes;
  }

  /** An unmasked ping and the masked pong that answers it. */
  lemma PingAndPong()
    ensures Print(Frame(true, PING, HELLO), None) == [0x89, 0x05] + HELLO
    ensures Print(Frame(true, PONG, HELLO), Some(EXAMPLE_KEY)) == [0x8A, 0x85] + EXAMPLE_KEY + MASKED_HELLO
  {
    HelloIsMasked();
    hide ApplyMask;
  }

  /** A close without a body (section 5.5.1). */
  lemma Closing()
    ensures Reply(CLOSE, []) == [0x88, 0x00]
  {}

  /** 256 bytes and 64 KiB of binary data in a single unmasked frame. */
  lemma LongBinary(data: Bytes)
    ensures |data| == 256 ==> Print(Frame(true, BINARY, data), None) == [0x82, 0x7E, 0x01, 0x00] + data
    ensures |data| == 65536 ==>
              Print(Frame(true, BINARY, data), None) == [0x82, 0x7F, 0, 0, 0, 0, 0, 1, 0, 0] + data
  {
    TwoByteLength();
    EightByteLength();
    hide BigEndianBytes;
  }

  lemma TwoByteLength()
    ensures BigEndianBytes(256, 2) == [1, 0]
  {
    assert BigEndianBytes(1, 1) == [1];
  }

  lemma EightByteLength()
    ensures BigEndianBytes(65536, 8) == [0, 0, 0, 0, 0, 1, 0, 0]
  {
    assert BigEndianBytes(0, 1) == [0] && BigEndianBytes(0, 2) == [0, 0] && BigEndianBytes(0, 3) == [0, 0, 0];
    assert BigEndianBytes(0, 4) == [0, 0, 0, 0] && BigEndianBytes(0, 5) == [0, 0, 0, 0, 0];
    assert BigEndianBytes(1, 6) == [0, 0, 0, 0, 0, 1] && BigEndianBytes(256, 7) == [0, 0, 0, 0, 0, 1, 0];
  }

  /** A frame is refused as soon as its length is known to be over 16 MiB, and not before. */
  lemma OversizeIsRefused(buf: Bytes)
    ensures Next(buf) == TooBig <==> |buf| >= 10 && buf[1] % 128 == 127 && BigEndian(buf[2..10]) > 16 * 1024 * 1024
  {
    ShortLengthsFit(buf);
    hide BigEndian, ApplyMask;
  }

  lemma ShortLengthsFit(buf: Bytes)
    ensures |buf| >= 4 ==> BigEndian(buf[2..4]) < 65536
  {
    if |buf| >= 4 {
      assert buf[2..4][..1] == [buf[2]] && [buf[2]][..0] == [];
      assert BigEndian([buf[2]]) == buf[2];
    }
  }
}
