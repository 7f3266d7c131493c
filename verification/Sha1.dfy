/** SHA-1 as FIPS 180-4 defines it, and the byte loops that compute it. */
module Sha1 {
  import opened Basics
  import opened ByteOrder
  import opened Division

  type Word = bv32

  // ---------------------------------------------------------------- section 4.1.1 and 4.2.1

  function Rotl(x: Word, n: nat): Word
    requires 0 < n < 32
  {
    (x << n) | (x >> (32 - n))
  }

  function Ch(x: Word, y: Word, z: Word): Word {
    (x & y) ^ (!x & z)
  }

  function Parity(x: Word, y: Word, z: Word): Word {
    x ^ y ^ z
  }

  function Maj(x: Word, y: Word, z: Word): Word {
    (x & y) ^ (x & z) ^ (y & z)
  }

  function F(t: nat, x: Word, y: Word, z: Word): Word {
    if t < 20 then Ch(x, y, z)
    else if t < 40 then Parity(x, y, z)
    else if t < 60 then Maj(x, y, z)
    else Parity(x, y, z)
  }

  function K(t: nat): Word {
    if t < 20 then 0x5A827999
    else if t < 40 then 0x6ED9EBA1
    else if t < 60 then 0x8F1BBCDC
    else 0xCA62C1D6
  }

  // ---------------------------------------------------------------- section 5.1.1

  function Zeros(n: nat): (z: Bytes)
    ensures |z| == n && forall k | 0 <= k < n :: z[k] == 0
  {
    seq(n, _ => 0)
  }

  /** Zero bytes after the marker: as few as make the whole a number of 64-byte blocks. */
  function Fill(size: nat): (zeros: nat)
    ensures zeros < 64 && (size + 1 + zeros) % 64 == 56
  {
    (119 - size % 64) % 64
  }

  function Padded(msg: Bytes): Bytes {
    msg + [0x80] + Zeros(Fill(|msg|)) + BigEndianBytes(|msg| * 8 % 0x1_0000_0000_0000_0000, 8)
  }

  // ---------------------------------------------------------------- section 6.1.2

  function WordAt(b: Bytes): Word
    requires |b| == 4
  {
    Join(Widen(b[0]), Widen(b[1]), Widen(b[2]), Widen(b[3]))
  }

  function Widen(b: Byte): Word {
    b as Word
  }

  function Join(a: Word, b: Word, c: Word, d: Word): Word {
    (a << 24) | (b << 16) | (c << 8) | d
  }

  /** The message schedule of a 64-byte block. */
  function W(block: Bytes, t: nat): Word
    requires |block| == 64
  {
    if t < 16 then WordAt(block[4 * t..4 * t + 4])
    else Expand(W(block, t - 3), W(block, t - 8), W(block, t - 14), W(block, t - 16))
  }

  function Expand(a: Word, b: Word, c: Word, d: Word): Word {
    Rotl(a ^ b ^ c ^ d, 1)
  }

  datatype State = State(a: Word, b: Word, c: Word, d: Word, e: Word)

  const H0 := State(0x67452301, 0xEFCDAB89, 0x98BADCFE, 0x10325476, 0xC3D2E1F0)

  function Sum(a: Word, b: Word, c: Word, d: Word, e: Word): Word {
    a + b + c + d + e
  }

  function Round(s: State, t: nat, w: Word): State {
    State(Sum(Rotl(s.a, 5), F(t, s.b, s.c, s.d), s.e, K(t), w), s.a, Rotl(s.b, 30), s.c, s.d)
  }

  function Rounds(s: State, block: Bytes, t: nat): State
    requires |block| == 64
  {
    if t == 0 then s else Round(Rounds(s, block, t - 1), t - 1, W(block, t - 1))
  }

  function Add(s: State, u: State): State {
    State(s.a + u.a, s.b + u.b, s.c + u.c, s.d + u.d, s.e + u.e)
  }

  /** The hash value after the first `n` blocks. */
  function Hash(data: Bytes, n: nat): State
    requires 64 * n <= |data|
  {
    if n == 0 then H0
    else
      var h := Hash(data, n - 1);
      Add(h, Rounds(h, data[64 * (n - 1)..64 * n], 80))
  }

  function ByteOf(x: Word, shift: nat): Word
    requires shift <= 24
  {
    (x >> shift) & 0xFF
  }

  function Narrow(w: Word): Byte {
    (w & 0xFF) as int
  }

  function BytesOf(x: Word): (b: Bytes)
    ensures |b| == 4
  {
    [Narrow(ByteOf(x, 24)), Narrow(ByteOf(x, 16)), Narrow(ByteOf(x, 8)), Narrow(ByteOf(x, 0))]
  }

  lemma JoinBytes(x: Word)
    ensures Join(ByteOf(x, 24), ByteOf(x, 16), ByteOf(x, 8), ByteOf(x, 0)) == x
  {}

  lemma WidenAs(b: Byte, w: Word)
    requires b == w as int
    ensures Widen(b) == w
  {}

  lemma NarrowAs(w: Word)
    ensures Narrow(w) == (w & 0xFF) as int
  {}

  lemma WidenNarrow(w: Word)
    ensures Widen(Narrow(w)) == w & 0xFF
  {
    hide *;
    NarrowAs(w);
    WidenAs(Narrow(w), w & 0xFF);
  }

  lemma ByteOfIsByte(x: Word, shift: nat)
    requires shift <= 24
    ensures ByteOf(x, shift) & 0xFF == ByteOf(x, shift)
  {}

  lemma ByteKept(x: Word, shift: nat)
    requires shift <= 24
    ensures Widen(Narrow(ByteOf(x, shift))) == ByteOf(x, shift)
  {
    hide *;
    WidenNarrow(ByteOf(x, shift));
    ByteOfIsByte(x, shift);
  }

  /** The digest's bytes are its words, most significant byte first, as a block's are. */
  lemma BytesAreWord(x: Word)
    ensures WordAt(BytesOf(x)) == x
  {
    hide Join, ByteOf, Narrow, Widen;
    ByteKept(x, 24);
    ByteKept(x, 16);
    ByteKept(x, 8);
    ByteKept(x, 0);
    JoinBytes(x);
  }

  function Output(s: State): (b: Bytes)
    ensures |b| == 20
  {
    BytesOf(s.a) + BytesOf(s.b) + BytesOf(s.c) + BytesOf(s.d) + BytesOf(s.e)
  }

  function Digest(msg: Bytes): (b: Bytes)
    ensures |b| == 20
  {
    PaddedIsBlocks(msg);
    Output(Hash(Padded(msg), |Padded(msg)| / 64))
  }

  lemma PaddedIsBlocks(msg: Bytes)
    ensures |Padded(msg)| % 64 == 0 && |Padded(msg)| >= 64
  {
    hide Fill;
    BlockSize(|msg| + 1 + Fill(|msg|));
  }

  lemma BlockSize(n: nat)
    requires n % 64 == 56
    ensures (n + 8) % 64 == 0 && n + 8 >= 64
  {
  }

  // ---------------------------------------------------------------- padding by pushing bytes

  lemma OneFill(size: nat, k: nat)
    requires k <= Fill(size)
    ensures (size + 1 + k) % 64 == 56 <==> k == Fill(size)
  {
    var f := Fill(size);
    hide Fill;
    if k < f && (size + 1 + k) % 64 == 56 {
      ModDistinct(size + 1 + k, size + 1 + f, 64);
    }
  }

  lemma ZerosMore(base: Bytes, k: nat)
    ensures base + Zeros(k) + [0] == base + Zeros(k + 1)
  {}

  method PushZeros(marked: Bytes, size: nat) returns (data: Bytes)
    requires |marked| == size + 1
    ensures data == marked + Zeros(Fill(size))
  {
    hide Zeros, Fill;
    data := marked;
    ghost var k := 0;
    assert marked + Zeros(0) == marked;
    while |data| % 64 != 56
      invariant data == marked + Zeros(k) && k <= Fill(size)
      decreases Fill(size) - k
    {
      OneFill(size, k);
      ZerosMore(marked, k);
      data := data + [0];
      k := k + 1;
    }
    OneFill(size, k);
  }

  method PushLength(filled: Bytes, bitLen: nat) returns (data: Bytes)
    ensures data == filled + BigEndianBytes(bitLen, 8)
  {
    hide BigEndianBytes, Shifted;
    data := filled;
    NextByte(bitLen, 8);
    var i := 8;
    while i > 0
      invariant 0 <= i <= 8 && data == filled + BigEndianBytes(Shifted(bitLen, i), 8 - i)
    {
      i := i - 1;
      NextByte(bitLen, i);
      data := data + [Shifted(bitLen, i) % 256];
    }
  }

  method Pad(msg: Bytes) returns (data: Bytes)
    ensures data == Padded(msg)
  {
    hide Zeros, Fill, BigEndianBytes;
    var bitLen := |msg| * 8 % 0x1_0000_0000_0000_0000;
    data := msg + [0x80];
    data := PushZeros(data, |msg|);
    data := PushLength(data, bitLen);
  }

  // ---------------------------------------------------------------- one block

  /** Choice and majority as the loop writes them. */
  function Choose(x: Word, y: Word, z: Word): Word {
    (x & y) | (!x & z)
  }

  function Majority(x: Word, y: Word, z: Word): Word {
    (x & y) | (x & z) | (y & z)
  }

  /** The loop's inclusive disjunctions are the standard's exclusive ones. */
  lemma ChooseIsCh(x: Word, y: Word, z: Word)
    ensures Choose(x, y, z) == Ch(x, y, z)
  {
    assert (x & y) | (!x & z) == (x & y) ^ (!x & z);
  }

  lemma MajorityIsMaj(x: Word, y: Word, z: Word)
    ensures Majority(x, y, z) == Maj(x, y, z)
  {
    assert (x & y) | (x & z) | (y & z) == (x & y) ^ (x & z) ^ (y & z);
  }

  lemma ScheduleFirst(block: Bytes, t: nat)
    requires |block| == 64 && t < 16
    ensures W(block, t) == WordAt(block[4 * t..4 * t + 4])
  {
    hide WordAt, Expand;
  }

  lemma ScheduleNext(block: Bytes, t: nat)
    requires |block| == 64 && t >= 16
    ensures W(block, t) == Expand(W(block, t - 3), W(block, t - 8), W(block, t - 14), W(block, t - 16))
  {
    hide WordAt, Expand;
  }

  method Schedule(block: Bytes) returns (w: array<Word>)
    requires |block| == 64
    ensures fresh(w) && w.Length == 80 && forall t | 0 <= t < 80 :: w[t] == W(block, t)
  {
    hide WordAt, Expand, W;
    w := new Word[80];
    for i := 0 to 16
      invariant forall t | 0 <= t < i :: w[t] == W(block, t)
    {
      ScheduleFirst(block, i);
      w[i] := WordAt(block[4 * i..4 * i + 4]);
    }
    for i := 16 to 80
      invariant forall t | 0 <= t < i :: w[t] == W(block, t)
    {
      ScheduleNext(block, i);
      w[i] := Expand(w[i - 3], w[i - 8], w[i - 14], w[i - 16]);
    }
  }

  lemma NextRound(h: State, block: Bytes, t: nat)
    requires |block| == 64
    ensures Rounds(h, block, t + 1) == Round(Rounds(h, block, t), t, W(block, t))
  {
    hide W, Round;
  }

  /** What round `i` adds: its function of `b`, `c`, `d` and its constant. */
  method Terms(i: nat, b: Word, c: Word, d: Word) returns (f: Word, k: Word)
    ensures f == F(i, b, c, d) && k == K(i)
  {
    hide Ch, Parity, Maj, Choose, Majority;
    if i < 20 {
      f, k := Choose(b, c, d), 0x5A827999;
      ChooseIsCh(b, c, d);
    } else if i < 40 {
      f, k := Parity(b, c, d), 0x6ED9EBA1;
    } else if i < 60 {
      f, k := Majority(b, c, d), 0x8F1BBCDC;
      MajorityIsMaj(b, c, d);
    } else {
      f, k := Parity(b, c, d), 0xCA62C1D6;
    }
  }

  method Turn(s: State, i: nat, w: Word) returns (n: State)
    ensures n == Round(s, i, w)
  {
    hide Rotl, F, K, Sum;
    var a, b, c, d, e := s.a, s.b, s.c, s.d, s.e;
    var f, k := Terms(i, b, c, d);
    var temp := Sum(Rotl(a, 5), f, e, k, w);
    e := d;
    d := c;
    c := Rotl(b, 30);
    b := a;
    a := temp;
    n := State(a, b, c, d, e);
  }

  method Mix(h: State, block: Bytes) returns (s: State)
    requires |block| == 64
    ensures s == Rounds(h, block, 80)
  {
    hide W, Round, Rounds;
    var w := Schedule(block);
    s := h;
    NoRounds(h, block);
    for i := 0 to 80
      invariant forall t | 0 <= t < 80 :: w[t] == W(block, t)
      invariant s == Rounds(h, block, i)
    {
      NextRound(h, block, i);
      s := Turn(s, i, w[i]);
    }
  }

  lemma NoRounds(h: State, block: Bytes)
    requires |block| == 64
    ensures Rounds(h, block, 0) == h
  {}

  // ---------------------------------------------------------------- the whole

  method Sha1Digest(msg: Bytes) returns (out: Bytes)
    ensures out == Digest(msg)
  {
    hide Padded, Rounds, BytesOf, Add;
    var data := Pad(msg);
    PaddedIsBlocks(msg);
    var h := H0;
    var chunk := 0;
    ghost var n := 0;
    while chunk < |data|
      invariant chunk == 64 * n <= |data| && h == Hash(data, n)
    {
      var s := Mix(h, data[chunk..chunk + 64]);
      h := Add(h, s);
      chunk := chunk + 64;
      n := n + 1;
    }
    out := Output(h);
  }

  // ---------------------------------------------------------------- padding loses nothing

  lemma PowEight()
    ensures Power256(8) == 0x1_0000_0000_0000_0000
  {
    assert Power256(2) == 0x1_0000;
    assert Power256(4) == 0x1_0000_0000;
    assert Power256(6) == 0x1_0000_0000_0000;
  }

  lemma PaddedEnds(m: Bytes)
    ensures Padded(m)[|Padded(m)| - 8..] == BigEndianBytes(|m| * 8 % 0x1_0000_0000_0000_0000, 8)
    ensures Padded(m)[..|m|] == m
  {
    hide BigEndianBytes, Fill;
  }

  /** Messages shorter than the standard's limit are told apart by their padded form. */
  lemma PaddingIsInjective(m: Bytes, m': Bytes)
    requires |m| < 0x2000_0000_0000_0000 && |m'| < 0x2000_0000_0000_0000
    requires Padded(m) == Padded(m')
    ensures m == m'
  {
    hide BigEndian, BigEndianBytes, Padded, Power256;
    PaddedEnds(m);
    PaddedEnds(m');
    PowEight();
    BigEndianRoundTrip(|m| * 8, 8);
    BigEndianRoundTrip(|m'| * 8, 8);
  }
}
