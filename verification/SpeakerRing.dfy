/** The speaker's jitter buffer: 8 kHz samples pushed by messages, stretched to the device's rate
    when the audio thread asks for a block. */
module SpeakerRing {
  import opened Basics
  import opened RealArithmetic

  const CAP := 8192

  // ---------------------------------------------------------------- the ring as a window

  function Slot(i: nat): (slot: nat)
    ensures slot < CAP
  {
    i % CAP
  }

  /** The `avail` samples buffered from `read` on, oldest first. */
  function Window(ring: seq<real>, read: nat, avail: nat): (w: seq<real>)
    requires |ring| == CAP
    ensures |w| == avail && forall k | 0 <= k < avail :: w[k] == ring[Slot(read + k)]
  {
    seq(avail, k requires 0 <= k => ring[Slot(read + k)])
  }

  lemma PushIntoRoom(ring: seq<real>, read: nat, avail: nat, x: real)
    requires |ring| == CAP && read < CAP && avail < CAP
    ensures Window(ring[Slot(read + avail) := x], read, avail + 1) == Window(ring, read, avail) + [x]
  {
    var w := Window(ring, read, avail);
    var after := Window(ring[Slot(read + avail) := x], read, avail + 1);
    forall k | 0 <= k < avail
      ensures after[k] == w[k]
    {
      assert Slot(read + k) != Slot(read + avail);
    }
  }

  lemma PushOverOldest(ring: seq<real>, read: nat, x: real)
    requires |ring| == CAP && read < CAP
    ensures Window(ring[read := x], Slot(read + 1), CAP) == Window(ring, read, CAP)[1..] + [x]
  {
    var after := ring[read := x];
    forall k | 0 <= k < CAP
      ensures Window(after, Slot(read + 1), CAP)[k] == (Window(ring, read, CAP)[1..] + [x])[k]
    {
      assert Slot(Slot(read + 1) + k) == Slot(read + 1 + k);
      if k < CAP - 1 {
        assert Slot(read + 1 + k) != read;
        assert Window(ring, read, CAP)[k + 1] == ring[Slot(read + (k + 1))];
      }
    }
  }

  lemma DropFromWindow(ring: seq<real>, read: nat, avail: nat, n: nat)
    requires |ring| == CAP && read < CAP && n <= avail <= CAP
    ensures Window(ring, Slot(read + n), avail - n) == Window(ring, read, avail)[n..]
  {
    var w, after := Window(ring, read, avail), Window(ring, Slot(read + n), avail - n);
    forall k | 0 <= k < avail - n
      ensures after[k] == w[n..][k]
    {
      assert Slot(Slot(read + n) + k) == Slot(read + (n + k));
    }
  }

  /** At most 8192 of the samples, the newest ones. */
  function Newest(s: seq<real>): seq<real> {
    if |s| <= 8192 then s else s[|s| - 8192..]
  }

  // ---------------------------------------------------------------- stretching to the device rate

  function Ceil(x: real): int {
    -((-x).Floor)
  }

  /** Remainder of a non-negative real position, as the language's `%` has it. */
  function Wrap(x: real): (r: real)
    requires x >= 0.0
  {
    x - ((x / (CAP as real)).Floor * CAP) as real
  }

  function Fill(avail: nat, n: nat, ratio: real): (fill: nat)
    requires ratio > 0.0
    ensures fill <= n && fill as real <= avail as real * ratio
  {
    NonNegative(avail as real, ratio);
    var most := (avail as real * ratio).Floor;
    if n < most then n else most
  }

  /** A block is filled as far as the buffered samples last: output `k` and all before it just if the
      `k` samples' time at the device rate is no more than is buffered. */
  lemma FillIs(avail: nat, n: nat, ratio: real, k: nat)
    requires ratio > 0.0
    ensures k <= Fill(avail, n, ratio) <==> k <= n && k as real <= avail as real * ratio
  {
    NonNegative(avail as real, ratio);
  }

  function Consumed(fill: nat, ratio: real): int
    requires ratio > 0.0
  {
    Ceil(fill as real / ratio)
  }

  /** A block never uses up more than is buffered, and uses something if it plays anything. */
  lemma ConsumedIsBuffered(avail: nat, n: nat, ratio: real)
    requires ratio > 0.0
    ensures 0 <= Consumed(Fill(avail, n, ratio), ratio) <= avail
    ensures Fill(avail, n, ratio) > 0 ==> Consumed(Fill(avail, n, ratio), ratio) > 0
  {
    var fill := Fill(avail, n, ratio);
    hide Fill;
    DivideMonotone(fill as real, avail as real, ratio);
    NonNegative(fill as real, ratio);
  }

  /** Samples a block of `n` uses up. */
  function Used(avail: nat, n: nat, ratio: real): (used: nat)
    requires ratio > 0.0
    ensures used <= avail
  {
    ConsumedIsBuffered(avail, n, ratio);
    Consumed(Fill(avail, n, ratio), ratio)
  }

  /** Every played sample interpolates around a position that is still buffered. */
  lemma BaseIsLive(avail: nat, n: nat, ratio: real, i: nat)
    requires ratio > 0.0 && i < Fill(avail, n, ratio)
    ensures 0 <= (i as real / ratio).Floor < avail
  {
    var fill := Fill(avail, n, ratio);
    hide Fill;
    DivideMonotone(i as real, avail as real, ratio);
    NonNegative(i as real, ratio);
  }

  /** The positions of one block end less than a sample before the next block's first. */
  lemma NextBlockFollows(fill: nat, ratio: real)
    requires ratio > 0.0
    ensures fill as real / ratio <= Consumed(fill, ratio) as real < fill as real / ratio + 1.0
  {}

  // ---------------------------------------------------------------- interpolation

  /** Catmull-Rom through four neighbouring samples, `t` of the way from the second to the third. */
  function Cubic(p0: real, p1: real, p2: real, p3: real, t: real): real {
    var a0 := -0.5 * p0 + 1.5 * p1 - 1.5 * p2 + 0.5 * p3;
    var a1 := p0 - 2.5 * p1 + 2.0 * p2 - 0.5 * p3;
    var a2 := -0.5 * p0 + 0.5 * p2;
    ((a0 * t + a1) * t + a2) * t + p1
  }

  /** The curve runs through the samples on either side, and a straight line stays one. */
  lemma CubicFits(p0: real, p1: real, p2: real, p3: real, d: real, t: real)
    ensures Cubic(p0, p1, p2, p3, 0.0) == p1 && Cubic(p0, p1, p2, p3, 1.0) == p2
    ensures Cubic(p0, p0 + d, p0 + 2.0 * d, p0 + 3.0 * d, t) == p0 + d + d * t
  {
    assert -0.5 * p0 + 1.5 * (p0 + d) - 1.5 * (p0 + 2.0 * d) + 0.5 * (p0 + 3.0 * d) == 0.0;
    assert p0 - 2.5 * (p0 + d) + 2.0 * (p0 + 2.0 * d) - 0.5 * (p0 + 3.0 * d) == 0.0;
  }

  /** It is the cubic through both samples whose slope at each is half the difference of that sample's
      neighbours. */
  lemma CubicIsHermite(p0: real, p1: real, p2: real, p3: real) returns (a: real, b: real, c: real)
    ensures forall t :: Cubic(p0, p1, p2, p3, t) == ((a * t + b) * t + c) * t + p1
    ensures a + b + c + p1 == p2
    ensures c == (p2 - p0) / 2.0 && 3.0 * a + 2.0 * b + c == (p3 - p1) / 2.0
  {
    a := -0.5 * p0 + 1.5 * p1 - 1.5 * p2 + 0.5 * p3;
    b := p0 - 2.5 * p1 + 2.0 * p2 - 0.5 * p3;
    c := -0.5 * p0 + 0.5 * p2;
  }

  function CubicAt(ring: seq<real>, pos: real): real
    requires |ring| == CAP && pos >= 0.0
  {
    var i1 := pos.Floor;
    Cubic(ring[(i1 - 1 + CAP) % CAP], ring[i1 % CAP], ring[(i1 + 1) % CAP], ring[(i1 + 2) % CAP], pos - i1 as real)
  }

  function Clamp(v: real): real {
    if v > 1.0 then 1.0 else if v < -1.0 then -1.0 else v
  }

  /** Overshoot is cut off at full scale, and nothing else is changed. */
  lemma ClampIs(v: real)
    ensures -1.0 <= Clamp(v) <= 1.0
    ensures -1.0 <= v <= 1.0 ==> Clamp(v) == v
    ensures v > 1.0 ==> Clamp(v) == 1.0
    ensures v < -1.0 ==> Clamp(v) == -1.0
  {}

  /** The block played: interpolated samples, then silence. */
  function Played(ring: seq<real>, read: nat, avail: nat, n: nat, ratio: real): (out: seq<real>)
    requires |ring| == CAP && ratio > 0.0
    ensures |out| == n
  {
    var fill := Fill(avail, n, ratio);
    seq(n, i requires 0 <= i < n =>
      if i < fill then
        NonNegative(i as real, ratio);
        Clamp(CubicAt(ring, read as real + i as real / ratio))
      else 0.0)
  }

  lemma PlayedAt(ring: seq<real>, read: nat, avail: nat, n: nat, ratio: real, i: nat)
    requires |ring| == CAP && ratio > 0.0 && i < Fill(avail, n, ratio)
    ensures i as real / ratio >= 0.0
    ensures Played(ring, read, avail, n, ratio)[i] == Clamp(CubicAt(ring, read as real + i as real / ratio))
  {
    hide Fill, CubicAt, Clamp;
    NonNegative(i as real, ratio);
  }

  /** Where the position falls on a sample, that sample is played. */
  lemma SampleIsPlayed(ring: seq<real>, read: nat, avail: nat, n: nat, ratio: real, i: nat, k: nat)
    requires |ring| == CAP && ratio > 0.0 && i < Fill(avail, n, ratio) && i as real == k as real * ratio
    ensures k < avail && Played(ring, read, avail, n, ratio)[i] == Clamp(Window(ring, read, avail)[k])
  {
    hide *;
    Multiplied(k as real, ratio);
    BaseIsLive(avail, n, ratio, i);
    PlayedAt(ring, read, avail, n, ratio, i);
    OnSample(ring, read + k);
  }

  lemma OnSample(ring: seq<real>, p: nat)
    requires |ring| == CAP
    ensures CubicAt(ring, p as real) == ring[Slot(p)]
  {
    assert (p as real).Floor == p;
  }

  // ---------------------------------------------------------------- the processor

  ghost predicate IsSuffix(w: seq<real>, s: seq<real>) {
    |w| <= |s| && w == s[|s| - |w|..]
  }

  lemma NewestIsSuffix(w: seq<real>, s: seq<real>, x: real)
    requires IsSuffix(w, s)
    ensures IsSuffix(Newest(w + [x]), s + [x])
  {}

  lemma DropIsSuffix(w: seq<real>, s: seq<real>, n: nat)
    requires IsSuffix(w, s) && n <= |w|
    ensures IsSuffix(w[n..], s)
  {}

  lemma PushIsNewest(ring: seq<real>, read: nat, avail: nat, x: real)
    requires |ring| == CAP && read < CAP && avail <= CAP
    ensures avail < CAP ==>
              Window(ring[Slot(read + avail) := x], read, avail + 1) == Newest(Window(ring, read, avail) + [x])
    ensures avail == CAP ==>
              Window(ring[Slot(read + avail) := x], Slot(read + 1), CAP) == Newest(Window(ring, read, avail) + [x])
  {
    var w := Window(ring, read, avail);
    if avail < CAP {
      PushIntoRoom(ring, read, avail, x);
    } else {
      PushOverOldest(ring, read, x);
      assert Slot(read + CAP) == read;
      assert (w + [x])[1..] == w[1..] + [x];
    }
    hide Window;
  }

  lemma NewestIsAll(s: seq<real>)
    requires |s| <= CAP
    ensures Newest(s) == s
  {}

  /** `Newest` need not wait: trimming after every sample is trimming once. */
  lemma NewestTwice(s: seq<real>, x: real)
    ensures Newest(Newest(s) + [x]) == Newest(s + [x])
  {}

  function Scaled(i16: seq<Sample>): (s: seq<real>)
    ensures |s| == |i16| && forall k | 0 <= k < |s| :: s[k] == i16[k] as real / 32768.0
  {
    seq(|i16|, k requires 0 <= k < |i16| => i16[k] as real / 32768.0)
  }

  lemma WrapAhead(read: nat, n: nat)
    requires read < CAP && n <= CAP
    ensures Wrap((read + n) as real) == Slot(read + n) as real
  {
    var x := (read + n) as real / CAP as real;
    assert x < 2.0 && (read + n < CAP ==> x < 1.0) && (read + n >= CAP ==> x >= 1.0);
    assert x.Floor == (read + n) / CAP;
  }

  lemma WriteNext(read: nat, avail: nat)
    ensures Slot(Slot(read + avail) + 1) == Slot(read + (avail + 1))
    ensures avail == CAP ==> Slot(Slot(read + avail) + 1) == Slot(Slot(read + 1) + avail)
  {}

  lemma WriteStays(read: nat, avail: nat, n: nat)
    requires n <= avail
    ensures Slot(Slot(read + n) + (avail - n)) == Slot(read + avail)
  {}

  class SpeakerProcessor {
    const ring: array<real>
    var write: nat
    var avail: nat
    var read: real
    var muted: bool
    ghost var pushed: seq<real>

    /** The read position is a whole number, the write index follows from it, and the buffer is
        the newest part of everything ever pushed. */
    ghost predicate Valid()
      reads this, ring
    {
      && ring.Length == CAP
      && write < CAP && avail <= CAP
      && 0.0 <= read < CAP as real && read == read.Floor as real
      && write == Slot(read.Floor + avail)
      && IsSuffix(Buffered(), pushed)
    }

    ghost function Buffered(): (w: seq<real>)
      requires ring.Length == CAP && read >= 0.0
      reads this, ring
      ensures |w| == avail
    {
      Window(ring[..], read.Floor, avail)
    }

    constructor ()
      ensures Valid() && Buffered() == [] && pushed == [] && !muted && fresh(ring)
    {
      ring := new real[CAP](_ => 0.0);
      write, avail, read, muted := 0, 0, 0.0, false;
      pushed := [];
    }

    method Mute(on: bool)
      modifies this`muted
      ensures muted == on
    {
      muted := on;
    }

    method PushOne(x: real)
      requires Valid()
      modifies this`write, this`avail, this`read, this`pushed, ring
      ensures Valid() && pushed == old(pushed) + [x]
      ensures Buffered() == Newest(old(Buffered()) + [x])
    {
      hide Window, Newest, IsSuffix, Wrap, Slot;
      ghost var before, start := ring[..], read.Floor;
      PushIsNewest(before, start, avail, x);
      NewestIsSuffix(Buffered(), pushed, x);
      WrapAhead(start, 1);
      WriteNext(start, avail);
      ring[write] := x;
      assert ring[..] == before[write := x];
      write := Slot(write + 1);
      if avail < CAP {
        avail := avail + 1;
      } else {
        read := Wrap(read + 1.0);
      }
      pushed := pushed + [x];
    }

    method OnSamples(i16: seq<Sample>)
      requires Valid()
      modifies this`write, this`avail, this`read, this`pushed, ring
      ensures Valid() && pushed == old(pushed) + Scaled(i16)
      ensures Buffered() == Newest(old(Buffered()) + Scaled(i16))
    {
      hide Window, IsSuffix, Scaled, Buffered, Newest;
      ghost var all, start := Scaled(i16), Buffered();
      NewestIsAll(start);
      assert start + all[..0] == start && pushed + all[..0] == pushed;
      var k := 0;
      while k < |i16|
        invariant 0 <= k <= |i16| && Valid()
        invariant pushed == old(pushed) + all[..k]
        invariant Buffered() == Newest(start + all[..k])
      {
        PushOne(i16[k] as real / 32768.0);
        NewestTwice(start + all[..k], all[k]);
        TakeOneMore(start, all, k);
        TakeOneMore(old(pushed), all, k);
        k := k + 1;
      }
      assert all[..k] == all;
    }

    /** The played part of a block, then silence. */
    method Play(out: array<real>, ratio: real)
      requires Valid() && ratio > 0.0 && out != ring
      modifies out
      ensures out[..] == Played(ring[..], read.Floor, avail, out.Length, ratio)
    {
      hide Window, IsSuffix, CubicAt, Fill, Clamp;
      var nFill := Fill(avail, out.Length, ratio);
      ghost var block := Played(ring[..], read.Floor, avail, out.Length, ratio);
      for i := 0 to nFill
        invariant out[..i] == block[..i]
      {
        PlayedAt(ring[..], read.Floor, avail, out.Length, ratio, i);
        out[i] := Clamp(CubicAt(ring[..], read + i as real / ratio));
      }
      for i := nFill to out.Length
        invariant out[..i] == block[..i]
      {
        out[i] := 0.0;
      }
    }

    method Silence(out: array<real>)
      modifies out
      ensures forall i | 0 <= i < out.Length :: out[i] == 0.0
    {
      for i := 0 to out.Length
        invariant forall j | 0 <= j < i :: out[j] == 0.0
      {
        out[i] := 0.0;
      }
    }

    /** Move the read position on. */
    method Advance(consumed: nat)
      requires Valid() && consumed <= avail
      modifies this`read, this`avail
      ensures Valid() && Buffered() == old(Buffered())[consumed..]
    {
      hide Window, IsSuffix, Wrap, Slot;
      DropFromWindow(ring[..], read.Floor, avail, consumed);
      DropIsSuffix(Buffered(), pushed, consumed);
      WrapAhead(read.Floor, consumed);
      WriteStays(read.Floor, avail, consumed);
      read := Wrap(read + consumed as real);
      var left := avail - consumed;
      avail := if left > 0 then left else 0;
    }

    method Process(out: array<real>, ratio: real)
      requires Valid() && ratio > 0.0 && out != ring
      modifies this`read, this`avail, out
      ensures Valid()
      ensures muted || old(avail) == 0 ==> forall i | 0 <= i < out.Length :: out[i] == 0.0
      ensures !muted && old(avail) > 0 ==> out[..] == old(Played(ring[..], read.Floor, avail, out.Length, ratio))
      ensures Buffered() == old(Buffered())[if muted then 0 else Used(old(avail), out.Length, ratio)..]
    {
      hide Window, IsSuffix, Played, Fill, Consumed;
      if muted || avail == 0 {
        Silence(out);
        return;
      }
      Play(out, ratio);
      var consumed := Consumed(Fill(avail, out.Length, ratio), ratio);
      ConsumedIsBuffered(avail, out.Length, ratio);
      Advance(consumed);
    }
  }

  lemma TakeOneMore(start: seq<real>, all: seq<real>, k: nat)
    requires k < |all|
    ensures start + all[..k + 1] == start + all[..k] + [all[k]]
  {}
}
