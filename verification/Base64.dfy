/** Base 64: the encoder, and the decoder of RFC 4648 section 4 that undoes it. */
module Base64 {
  import opened Basics

  const UPPER := "ABCDEFGHIJKLMNOPQRSTUVWXYZ"
  const LOWER := "abcdefghijklmnopqrstuvwxyz"
  const DIGITS := "0123456789"
  const TABLE := UPPER + LOWER + DIGITS + "+/"

  // ---------------------------------------------------------------- decoding

  /** The value of a character by the ranges of the alphabet; the pad has none. */
  function Value(c: char): (v: Option<nat>)
    ensures v.Some? ==> v.value < 64
  {
    if 'A' <= c <= 'Z' then Some(c as int - 'A' as int)
    else if 'a' <= c <= 'z' then Some(c as int - 'a' as int + 26)
    else if '0' <= c <= '9' then Some(c as int - '0' as int + 52)
    else if c == '+' then Some(62)
    else if c == '/' then Some(63)
    else None
  }

  /** The bytes of one group of four characters; `last` says whether it may be padded. Bits that
      carry no data must be zero. */
  function DecodeGroup(q: string, last: bool): (b: Option<Bytes>)
    requires |q| == 4
    ensures b.Some? ==> 1 <= |b.value| <= 3 && (|b.value| < 3 ==> last)
  {
    match (Value(q[0]), Value(q[1]), Value(q[2]), Value(q[3]))
    case (Some(a), Some(b), Some(c), Some(d)) =>
      Some([a * 4 + b / 16, b % 16 * 16 + c / 4, c % 4 * 64 + d])
    case (Some(a), Some(b), Some(c), None) =>
      if last && q[3] == '=' && c % 4 == 0 then Some([a * 4 + b / 16, b % 16 * 16 + c / 4]) else None
    case (Some(a), Some(b), None, None) =>
      if last && q[2] == '=' && q[3] == '=' && b % 16 == 0 then Some([a * 4 + b / 16]) else None
    case _ => None
  }

  function Decode(t: string): Option<Bytes> {
    if |t| == 0 then Some([])
    else if |t| < 4 then None
    else
      match (DecodeGroup(t[..4], |t| == 4), Decode(t[4..]))
      case (Some(b), Some(rest)) => Some(b + rest)
      case _ => None
  }

  /** No two texts decode to the same bytes. */
  lemma {:induction false} DecodeIsInjective(s: string, t: string)
    requires Decode(s).Some? && Decode(s) == Decode(t)
    ensures s == t
    decreases |s|
  {
    hide DecodeGroup;
    if |s| > 0 && |t| > 0 {
      var x, y := DecodeGroup(s[..4], |s| == 4).value, DecodeGroup(t[..4], |t| == 4).value;
      ShortIsLast(s);
      ShortIsLast(t);
      assert Decode(s).value[..|x|] == x && Decode(t).value[..|y|] == y;
      assert Decode(s).value[|x|..] == Decode(s[4..]).value && Decode(t).value[|y|..] == Decode(t[4..]).value;
      GroupIsInjective(s[..4], t[..4], |s| == 4, |t| == 4);
      DecodeIsInjective(s[4..], t[4..]);
      assert s == s[..4] + s[4..] && t == t[..4] + t[4..];
    }
  }

  /** A group of fewer than three bytes is followed by nothing. */
  lemma ShortIsLast(t: string)
    requires |t| > 0 && Decode(t).Some?
    ensures |t| >= 4 && var b := DecodeGroup(t[..4], |t| == 4).value; |b| < 3 ==> Decode(t).value == b
  {
    hide DecodeGroup;
  }

  lemma ValueIsInjective(c: char, d: char)
    requires Value(c).Some? && Value(c) == Value(d)
    ensures c == d
  {}

  /** The four numbers a group stands for follow from its bytes. */
  lemma GroupIsInjective(q: string, r: string, last: bool, last': bool)
    requires |q| == |r| == 4
    requires DecodeGroup(q, last).Some? && DecodeGroup(q, last) == DecodeGroup(r, last')
    ensures q == r
  {
    GroupSize(q, last);
    GroupSize(r, last');
    var b := DecodeGroup(q, last).value;
    GroupValues(q, last);
    GroupValues(r, last');
    ValueIsInjective(q[0], r[0]);
    assert b == DecodeGroup(r, last').value;
    hide DecodeGroup;
    ValueIsInjective(q[1], r[1]);
    if |b| >= 2 {
      ValueIsInjective(q[2], r[2]);
    }
    if |b| == 3 {
      ValueIsInjective(q[3], r[3]);
    }
  }

  lemma GroupSize(q: string, last: bool)
    requires |q| == 4 && DecodeGroup(q, last).Some?
    ensures var b := DecodeGroup(q, last).value;
            && (|b| < 3 <==> q[3] == '=') && (|b| < 2 <==> q[2] == '=')
  {}

  lemma GroupValues(q: string, last: bool)
    requires |q| == 4 && DecodeGroup(q, last).Some?
    ensures var b := DecodeGroup(q, last).value;
            && Value(q[0]) == Some(b[0] / 4)
            && Value(q[1]) == Some(b[0] % 4 * 16 + if |b| >= 2 then b[1] / 16 else 0)
            && (|b| >= 2 ==> Value(q[2]) == Some(b[1] % 16 * 4 + if |b| == 3 then b[2] / 64 else 0))
            && (|b| == 3 ==> Value(q[3]) == Some(b[2] % 64))
  {
    hide Value;
  }

  // ---------------------------------------------------------------- encoding

  function Symbol(v: nat): (c: char)
    requires v < 64
  {
    TABLE[v]
  }

  lemma SymbolUpper(v: nat)
    requires v < 26
    ensures Symbol(v) == ('A' as int + v) as char
  {
    assert TABLE[v] == UPPER[v];
  }

  lemma SymbolLower(v: nat)
    requires 26 <= v < 52
    ensures Symbol(v) == ('a' as int + (v - 26)) as char
  {
    assert TABLE[v] == LOWER[v - 26];
  }

  lemma SymbolRest(v: nat)
    requires 52 <= v < 64
    ensures Symbol(v) == if v < 62 then ('0' as int + (v - 52)) as char else if v == 62 then '+' else '/'
  {
    if v < 62 {
      assert TABLE[v] == DIGITS[v - 52];
    } else {
      assert TABLE[v] == "+/"[v - 62];
    }
  }

  lemma SymbolHasValue(v: nat)
    requires v < 64
    ensures Value(Symbol(v)) == Some(v)
  {
    hide Symbol;
    if v < 26 {
      SymbolUpper(v);
    } else if v < 52 {
      SymbolLower(v);
    } else {
      SymbolRest(v);
    }
  }

  lemma Places(w: nat, x: nat, y: nat, z: nat)
    requires w < 64 && x < 64 && y < 64 && z < 64
    ensures var n := w * 0x40000 + x * 0x1000 + y * 0x40 + z;
            n / 0x40000 % 64 == w && n / 0x1000 % 64 == x && n / 0x40 % 64 == y && n % 64 == z
  {
    var n := w * 0x40000 + x * 0x1000 + y * 0x40 + z;
    assert n / 0x40 == w * 0x1000 + x * 0x40 + y;
    assert n / 0x1000 == w * 0x40 + x;
    assert n / 0x40000 == w;
  }

  /** The three bytes, packed into 24 bits. */
  function Pack(a: Byte, b: Byte, c: Byte): nat {
    a as int * 0x10000 + b as int * 0x100 + c as int
  }

  /** The four sextets of 24 bits. */
  lemma Sextets(a: Byte, b: Byte, c: Byte)
    ensures var n := Pack(a, b, c);
            && n / 0x40000 % 64 == a / 4
            && n / 0x1000 % 64 == a % 4 * 16 + b / 16
            && n / 0x40 % 64 == b % 16 * 4 + c / 64
            && n % 64 == c % 64
  {
    Places(a / 4, a % 4 * 16 + b / 16, b % 16 * 4 + c / 64, c % 64);
  }

  lemma SextetsBack(a: Byte, b: Byte, c: Byte)
    ensures a / 4 * 4 + (a % 4 * 16 + b / 16) / 16 == a
    ensures (a % 4 * 16 + b / 16) % 16 * 16 + (b % 16 * 4 + c / 64) / 4 == b
    ensures (b % 16 * 4 + c / 64) % 4 * 64 + c % 64 == c
  {
    assert (a % 4 * 16 + b / 16) / 16 == a % 4 && (a % 4 * 16 + b / 16) % 16 == b / 16;
    assert (b % 16 * 4 + c / 64) / 4 == b % 16 && (b % 16 * 4 + c / 64) % 4 == c / 64;
  }

  lemma GroupOfValues(a: Byte, b: Byte, c: Byte, q: string, last: bool)
    requires |q| == 4 && Value(q[0]) == Some(a / 4) && Value(q[1]) == Some(a % 4 * 16 + b / 16)
    ensures Value(q[2]) == Some(b % 16 * 4 + c / 64) && Value(q[3]) == Some(c % 64)
            ==> DecodeGroup(q, last) == Some([a, b, c])
    ensures Value(q[2]) == Some(b % 16 * 4 + c / 64) && q[3] == '=' && c == 0 && last
            ==> DecodeGroup(q, last) == Some([a, b])
    ensures q[2] == '=' && q[3] == '=' && b == 0 && last ==> DecodeGroup(q, last) == Some([a])
  {
    SextetsBack(a, b, c);
    assert Value('=') == None;
    hide Value;
  }

  lemma GroupIsRead(a: Byte, b: Byte, c: Byte, q: string, last: bool)
    requires |q| == 4
    requires q[0] == Symbol(Pack(a, b, c) / 0x40000 % 64) && q[1] == Symbol(Pack(a, b, c) / 0x1000 % 64)
    ensures q[2] == Symbol(Pack(a, b, c) / 0x40 % 64) && q[3] == Symbol(Pack(a, b, c) % 64)
            ==> DecodeGroup(q, last) == Some([a, b, c])
    ensures q[2] == Symbol(Pack(a, b, c) / 0x40 % 64) && q[3] == '=' && c == 0 && last
            ==> DecodeGroup(q, last) == Some([a, b])
    ensures q[2] == '=' && q[3] == '=' && b == 0 && last ==> DecodeGroup(q, last) == Some([a])
  {
    hide *;
    Sextets(a, b, c);
    SymbolHasValue(a / 4);
    SymbolHasValue(a % 4 * 16 + b / 16);
    SymbolHasValue(b % 16 * 4 + c / 64);
    SymbolHasValue(c % 64);
    GroupOfValues(a, b, c, q, last);
  }

  /** Groups of three bytes each, one after the other. */
  lemma {:induction false} DecodeAppend(t: string, x: Bytes, q: string, b: Bytes)
    requires Decode(t) == Some(x) && |t| * 3 == |x| * 4
    requires |q| == 4 && DecodeGroup(q, true) == Some(b)
    ensures Decode(t + q) == Some(x + b)
    decreases |t|
  {
    hide DecodeGroup;
    if |t| == 0 {
      assert t + q == q && x + b == b;
      DecodeOne(q, b);
    } else {
      var first, rest := DecodeGroup(t[..4], |t| == 4).value, Decode(t[4..]).value;
      SizeAtMost(t[4..]);
      WholeGroup(t[..4], |t| == 4);
      DecodeAppend(t[4..], rest, q, b);
      assert (t + q)[..4] == t[..4] && (t + q)[4..] == t[4..] + q;
      assert first + (rest + b) == x + b;
    }
  }

  lemma DecodeOne(q: string, b: Bytes)
    requires |q| == 4 && DecodeGroup(q, true) == Some(b)
    ensures Decode(q) == Some(b)
  {
    hide DecodeGroup;
    assert q[..4] == q && q[4..] == [] && b + [] == b;
  }

  lemma WholeGroup(q: string, last: bool)
    requires |q| == 4 && DecodeGroup(q, last).Some? && |DecodeGroup(q, last).value| == 3
    ensures DecodeGroup(q, false) == DecodeGroup(q, last)
  {}

  lemma {:induction false} SizeAtMost(t: string)
    requires Decode(t).Some?
    ensures |Decode(t).value| * 4 <= |t| * 3
    decreases |t|
  {
    hide DecodeGroup;
    if |t| > 0 {
      SizeAtMost(t[4..]);
    }
  }

  /** Four characters to every three bytes, the last group padded; decoding gives the bytes back.
      As no two texts decode alike, this fixes the result. */
  method Encode(data: Bytes) returns (out: string)
    ensures Decode(out) == Some(data)
    ensures |out| == (|data| + 2) / 3 * 4
  {
    hide Decode, DecodeGroup, Symbol, Pack;
    out := "";
    assert Decode("") == Some([]) by { DecodeNothing(); }
    var i := 0;
    while i + 3 <= |data|
      invariant 0 <= i <= |data| && i % 3 == 0 && |out| * 3 == i * 4
      invariant Decode(out) == Some(data[..i])
    {
      var n := Pack(data[i], data[i + 1], data[i + 2]);
      var q := [Symbol(n / 0x40000 % 64), Symbol(n / 0x1000 % 64), Symbol(n / 0x40 % 64), Symbol(n % 64)];
      GroupIsRead(data[i], data[i + 1], data[i + 2], q, true);
      DecodeAppend(out, data[..i], q, [data[i], data[i + 1], data[i + 2]]);
      out := out + q;
      i := i + 3;
      assert data[..i] == data[..i - 3] + [data[i - 3], data[i - 2], data[i - 1]];
    }
    var rem := |data| - i;
    if rem == 1 {
      var n := Pack(data[i], 0, 0);
      var q := [Symbol(n / 0x40000 % 64), Symbol(n / 0x1000 % 64), '=', '='];
      GroupIsRead(data[i], 0, 0, q, true);
      DecodeAppend(out, data[..i], q, [data[i]]);
      out := out + q;
      assert data == data[..i] + [data[i]];
    } else if rem == 2 {
      var n := Pack(data[i], data[i + 1], 0);
      var q := [Symbol(n / 0x40000 % 64), Symbol(n / 0x1000 % 64), Symbol(n / 0x40 % 64), '='];
      GroupIsRead(data[i], data[i + 1], 0, q, true);
      DecodeAppend(out, data[..i], q, [data[i], data[i + 1]]);
      out := out + q;
      assert data == data[..i] + [data[i], data[i + 1]];
    } else {
      assert data[..i] == data;
    }
  }

  lemma DecodeNothing()
    ensures Decode("") == Some([])
  {}
}
