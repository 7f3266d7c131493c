/** The microphone's capture side: device-rate blocks are collected into chunks, each averaged
    down to 8 kHz in two passes and framed for the wire. */
module MicChunks {
  import opened Basics
  import opened RealArithmetic

  const BIN_TAG_VOICE: Byte := 1

  // ---------------------------------------------------------------- box averages

  /** First input of output `i`. */
  function RunStart(i: nat, ratio: real): (start: nat)
    requires ratio > 0.0
  {
    NonNegative(i as real, ratio);
    (i as real * ratio).Floor
  }

  function Outputs(n: nat, ratio: real): (count: nat)
    requires ratio > 0.0
  {
    NonNegative(n as real, ratio);
    (n as real / ratio).Floor
  }

  lemma RunsOrdered(i: nat, j: nat, ratio: real)
    requires ratio > 0.0 && i <= j
    ensures RunStart(i, ratio) <= RunStart(j, ratio)
  {
    Scale(i as real, j as real, ratio);
  }

  /** The runs tile the input from its start: they never overlap, leave nothing out between them,
      and the last one ends within the input. */
  lemma RunsTile(n: nat, ratio: real, i: nat)
    requires ratio > 0.0 && i < Outputs(n, ratio)
    ensures RunStart(0, ratio) == 0
    ensures RunStart(i, ratio) <= RunStart(i + 1, ratio) <= RunStart(Outputs(n, ratio), ratio) <= n
  {
    RunsOrdered(i, i + 1, ratio);
    RunsOrdered(i + 1, Outputs(n, ratio), ratio);
    RunsFit(n, ratio);
    hide Outputs;
  }

  lemma RunsFit(n: nat, ratio: real)
    requires ratio > 0.0
    ensures RunStart(Outputs(n, ratio), ratio) <= n
  {
    var x := n as real / ratio;
    NonNegative(n as real, ratio);
    Divided(n as real, ratio);
    Scale(x.Floor as real, x, ratio);
  }

  /** Less than one run of input is left over at the end. */
  lemma LeftOver(n: nat, ratio: real)
    requires ratio > 0.0
    ensures (n - RunStart(Outputs(n, ratio), ratio)) as real < ratio + 1.0
  {
    var k := Outputs(n, ratio);
    var x, y := n as real / ratio, k as real * ratio;
    assert x <= k as real + 1.0;
    hide Outputs;
    Divided(n as real, ratio);
    Scale(x, k as real + 1.0, ratio);
    OneMore(k as real, ratio);
    assert n as real <= y + ratio && RunStart(k, ratio) == y.Floor;
  }

  /** No output averages an empty run exactly when the ratio does not go below one. */
  lemma RunsAreFilled(n: nat, ratio: real)
    requires ratio > 0.0 && Outputs(n, ratio) > 0
    ensures (forall i | 0 <= i < Outputs(n, ratio) :: RunStart(i, ratio) < RunStart(i + 1, ratio)) <==> ratio >= 1.0
  {
    if ratio >= 1.0 {
      forall i | 0 <= i < Outputs(n, ratio)
        ensures RunStart(i, ratio) < RunStart(i + 1, ratio)
      {
        OneMore(i as real, ratio);
      }
    } else {
      assert RunStart(0, ratio) == RunStart(0 + 1, ratio);
    }
  }

  function Sum(s: seq<real>): real {
    if |s| == 0 then 0.0 else Sum(s[..|s| - 1]) + s[|s| - 1]
  }

  function Mean(s: seq<real>): real {
    Sum(s) / (if |s| > 1 then |s| else 1) as real
  }

  lemma {:induction false} SumWithin(s: seq<real>, low: real, high: real)
    requires forall k | 0 <= k < |s| :: low <= s[k] <= high
    ensures low * |s| as real <= Sum(s) <= high * |s| as real
  {
    if |s| > 0 {
      SumWithin(s[..|s| - 1], low, high);
      Step(low, |s| - 1);
      Step(high, |s| - 1);
    }
  }

  lemma Step(x: real, n: nat)
    ensures x * (n + 1) as real == x * n as real + x
  {}

  /** An average lies within the bounds of what it averages; silence stays silence. */
  lemma MeanWithin(s: seq<real>, low: real, high: real)
    requires forall k | 0 <= k < |s| :: low <= s[k] <= high
    requires |s| > 0 || low <= 0.0 <= high
    ensures low <= Mean(s) <= high
  {
    SumWithin(s, low, high);
    if |s| > 0 {
      DivideMonotone(Sum(s), low, |s| as real);
      DivideMonotone(Sum(s), high, |s| as real);
    }
  }

  lemma {:induction false} SumConcat(a: seq<real>, b: seq<real>)
    ensures Sum(a + b) == Sum(a) + Sum(b)
    decreases |b|
  {
    if |b| == 0 {
      assert a + b == a;
    } else {
      assert (a + b)[..|a + b| - 1] == a + b[..|b| - 1];
      SumConcat(a, b[..|b| - 1]);
    }
  }

  /** An average and how many it stands for. */
  function Total(s: seq<real>): real {
    Mean(s) * |s| as real
  }

  /** An average of one is that one, and averages of parts combine in proportion to their sizes: which
      makes it the arithmetic mean. */
  lemma MeanIs(x: real, a: seq<real>, b: seq<real>)
    ensures Mean([x]) == x
    ensures Total(a + b) == Total(a) + Total(b)
  {
    hide Total, Sum, Mean;
    MeanOfOne(x);
    SumConcat(a, b);
    TotalIs(a);
    TotalIs(b);
    TotalIs(a + b);
  }

  lemma MeanOfOne(x: real)
    ensures Mean([x]) == x
  {
    assert [x][..0] == [] && Sum([]) == 0.0;
    assert Sum([x]) == x;
  }

  lemma TotalIs(s: seq<real>)
    ensures Total(s) == Sum(s)
  {
    if |s| > 0 {
      Divided(Sum(s), |s| as real);
    }
  }

  function Averages(input: seq<real>, ratio: real): (out: seq<real>)
    requires ratio > 0.0
    ensures |out| == Outputs(|input|, ratio)
  {
    seq(Outputs(|input|, ratio), i requires 0 <= i < Outputs(|input|, ratio) =>
      RunsTile(|input|, ratio, i);
      Mean(input[RunStart(i, ratio)..RunStart(i + 1, ratio)]))
  }

  method BoxDecimate(input: seq<real>, ratio: real) returns (out: array<real>)
    requires ratio > 0.0
    ensures fresh(out) && out[..] == Averages(input, ratio)
  {
    hide Outputs, RunStart, Mean;
    var nOut := Outputs(|input|, ratio);
    out := new real[nOut];
    for i := 0 to nOut
      invariant out[..i] == Averages(input, ratio)[..i]
    {
      RunsTile(|input|, ratio, i);
      out[i] := Average(input, RunStart(i, ratio), RunStart(i + 1, ratio));
    }
  }

  method Average(input: seq<real>, start: nat, end: nat) returns (mean: real)
    requires start <= end <= |input|
    ensures mean == Mean(input[start..end])
  {
    var sum := 0.0;
    for j := start to end
      invariant sum == Sum(input[start..j])
    {
      assert input[start..j + 1][..j - start] == input[start..j];
      sum := sum + input[j];
    }
    mean := sum / (if end - start > 1 then end - start else 1) as real;
  }

  // ---------------------------------------------------------------- framing

  function Pcm(x: real): Sample {
    var v := (x * 32767.0 + 0.5).Floor;
    if v > 32767 then 32767 else if v < -32768 then -32768 else v
  }

  /** The nearest 16-bit sample to 32767 times the value, the upper one of two equally near. */
  lemma PcmIsNearest(x: real)
    ensures var v := x * 32767.0;
            && (-32768.0 <= v <= 32767.0 ==> -0.5 < Pcm(x) as real - v <= 0.5)
            && (v > 32767.0 ==> Pcm(x) == 32767) && (v < -32768.0 ==> Pcm(x) == -32768)
  {}

  function LittleEndian(v: Sample): Bytes {
    var u := if v < 0 then v + 0x1_0000 else v;
    [u % 256, u / 256]
  }

  function Pcm16(b: Bytes): Sample
    requires |b| == 2
  {
    var low: int, high: int := b[0], b[1];
    var u := low + high * 256;
    if u >= 0x8000 then u - 0x1_0000 else u
  }

  lemma LittleEndianRoundTrip(v: Sample)
    ensures Pcm16(LittleEndian(v)) == v
  {}

  function Body(samples: seq<real>): (b: Bytes)
    ensures |b| == 2 * |samples|
  {
    if |samples| == 0 then [] else LittleEndian(Pcm(samples[0])) + Body(samples[1..])
  }

  function Frame(samples: seq<real>): Bytes {
    [BIN_TAG_VOICE] + Body(samples)
  }

  /** Each sample of the frame can be read back in its place. */
  lemma {:induction false} FrameHolds(samples: seq<real>, k: nat)
    requires k < |samples|
    ensures Frame(samples)[0] == 1 && |Frame(samples)| == 1 + 2 * |samples|
    ensures Pcm16(Frame(samples)[1 + 2 * k..3 + 2 * k]) == Pcm(samples[k])
  {
    hide LittleEndian, Pcm16, Pcm;
    LittleEndianRoundTrip(Pcm(samples[k]));
    if k == 0 {
      assert Frame(samples)[1..3] == LittleEndian(Pcm(samples[0]));
    } else {
      FrameHolds(samples[1..], k - 1);
      assert Frame(samples)[1 + 2 * k..3 + 2 * k] == Frame(samples[1..])[1 + 2 * (k - 1)..3 + 2 * (k - 1)];
    }
  }

  // ---------------------------------------------------------------- the processor

  function Encoded(chunk: seq<real>, ratio: real): Bytes
    requires ratio > 0.0
  {
    Frame(Averages(Averages(chunk, 2.0), ratio / 2.0))
  }

  ghost predicate Within(s: seq<real>, start: nat, end: nat, low: real, high: real) {
    end <= |s| ==> forall k | start <= k < end :: low <= s[k] <= high
  }

  /** A sample of the wire lies within the bounds of the device samples of its own stretch of time: the
      pairs that the second pass averages for it. */
  lemma SampleFromStretch(chunk: seq<real>, ratio: real, i: nat, low: real, high: real)
    requires ratio >= 2.0 && i < Outputs(Outputs(|chunk|, 2.0), ratio / 2.0)
    requires Within(chunk, 2 * RunStart(i, ratio / 2.0), 2 * RunStart(i + 1, ratio / 2.0), low, high)
    ensures 2 * RunStart(i + 1, ratio / 2.0) <= |chunk|
    ensures low <= Averages(Averages(chunk, 2.0), ratio / 2.0)[i] <= high
    ensures |Encoded(chunk, ratio)| == 1 + 2 * Outputs(Outputs(|chunk|, 2.0), ratio / 2.0)
  {
    var half, r := Averages(chunk, 2.0), ratio / 2.0;
    hide Outputs, Averages;
    BodySize(Averages(half, r));
    RunsTile(|half|, r, i);
    RunsAreFilled(|half|, r);
    hide RunStart;
    PairsWithin(chunk, RunStart(i, r), RunStart(i + 1, r), low, high);
    AverageWithin(half, r, i, low, high);
  }

  lemma AverageWithin(s: seq<real>, r: real, i: nat, low: real, high: real)
    requires r >= 1.0 && i < Outputs(|s|, r) && Within(s, RunStart(i, r), RunStart(i + 1, r), low, high)
    ensures low <= Averages(s, r)[i] <= high
  {
    RunsTile(|s|, r, i);
    RunsAreFilled(|s|, r);
    hide RunStart, Outputs, Mean;
    MeanWithin(s[RunStart(i, r)..RunStart(i + 1, r)], low, high);
  }

  lemma PairsWithin(chunk: seq<real>, a: nat, b: nat, low: real, high: real)
    requires b <= Outputs(|chunk|, 2.0) && Within(chunk, 2 * a, 2 * b, low, high)
    ensures 2 * b <= |chunk| && Within(Averages(chunk, 2.0), a, b, low, high)
  {
    if b > 0 { PairWithin(chunk, b - 1, low, high); }
    hide Averages, Outputs;
    forall k | a <= k < b
      ensures low <= Averages(chunk, 2.0)[k] <= high
    {
      PairWithin(chunk, k, low, high);
    }
  }

  lemma BodySize(samples: seq<real>)
    ensures |Frame(samples)| == 1 + 2 * |samples|
  {
    hide Body;
  }

  /** The first pass averages pairs. */
  lemma PairWithin(chunk: seq<real>, k: nat, low: real, high: real)
    requires k < Outputs(|chunk|, 2.0)
    ensures 2 * k + 2 <= |chunk|
    ensures low <= chunk[2 * k] <= high && low <= chunk[2 * k + 1] <= high ==>
              low <= Averages(chunk, 2.0)[k] <= high
  {
    RunsTile(|chunk|, 2.0, k);
    assert RunStart(k, 2.0) == 2 * k && RunStart(k + 1, 2.0) == 2 * k + 2;
    RunsFit(|chunk|, 2.0);
    RunsOrdered(k + 1, Outputs(|chunk|, 2.0), 2.0);
    var pair := chunk[2 * k..2 * k + 2];
    if low <= chunk[2 * k] <= high && low <= chunk[2 * k + 1] <= high {
      assert pair[0] == chunk[2 * k] && pair[1] == chunk[2 * k + 1];
      MeanWithin(pair, low, high);
    }
    hide Mean;
  }

  /** And there are as many as the whole ratio makes of the chunk, but for a device sample left over by
      the first pass. */
  lemma WireRate(n: nat, ratio: real)
    requires ratio > 0.0
    ensures var k := Outputs(Outputs(n, 2.0), ratio / 2.0);
            k as real * ratio <= n as real < k as real * ratio + ratio + 1.0
  {
    var half := Outputs(n, 2.0);
    assert 2 * half <= n <= 2 * half + 1;
    CountIs(half, ratio / 2.0);
    hide Outputs;
    TwiceAsMany(Outputs(half, ratio / 2.0) as real, ratio / 2.0, ratio, half as real, n as real);
  }

  lemma CountIs(n: nat, ratio: real)
    requires ratio > 0.0
    ensures var k := Outputs(n, ratio); k as real * ratio <= n as real < k as real * ratio + ratio
  {
    var x, k := n as real / ratio, Outputs(n, ratio);
    Divided(n as real, ratio);
    assert k as real <= x < k as real + 1.0;
    hide Outputs;
    CountBetween(n as real, x, k as real, ratio);
  }

  lemma CountBetween(n: real, x: real, k: real, ratio: real)
    requires ratio > 0.0 && x * ratio == n && k <= x < k + 1.0
    ensures k * ratio <= n < k * ratio + ratio
  {
    var m := k + 1.0;
    Scale(k, x, ratio);
    Below(n, x, m, ratio);
    NextMultiple(k, m, ratio);
  }

  lemma Below(n: real, x: real, m: real, ratio: real)
    requires ratio > 0.0 && x * ratio == n && x < m
    ensures n < m * ratio
  {
    ScaleStrict(x, m, ratio);
  }

  lemma NextMultiple(k: real, m: real, ratio: real)
    requires m == k + 1.0
    ensures m * ratio == k * ratio + ratio
  {}

  lemma TwiceAsMany(k: real, r: real, q: real, half: real, n: real)
    requires q == r * 2.0 && k * r <= half < k * r + r && 2.0 * half <= n <= 2.0 * half + 1.0
    ensures k * q <= n < k * q + q + 1.0
  {
    Doubled(k, r, q);
  }

  lemma Doubled(a: real, r: real, q: real)
    requires q == r * 2.0
    ensures a * q == 2.0 * (a * r)
  {}

  function Join(chunks: seq<seq<real>>): seq<real> {
    if |chunks| == 0 then [] else Join(chunks[..|chunks| - 1]) + chunks[|chunks| - 1]
  }

  ghost predicate AllPosted(posted: seq<Bytes>, chunks: seq<seq<real>>, ratio: real)
    requires ratio > 0.0
  {
    |posted| == |chunks| && forall k | 0 <= k < |chunks| :: posted[k] == Encoded(chunks[k], ratio)
  }

  class MicProcessor {
    const target: nat      // samples to a chunk
    const ratio: real      // device rate over wire rate
    var buf: seq<real>
    var posted: seq<Bytes> // messages to the main thread
    ghost var heard: seq<real>
    ghost var chunks: seq<seq<real>>

    /** Nothing heard is lost, repeated or reordered: it went out in whole chunks, or waits. */
    ghost predicate Valid()
      reads this
    {
      && ratio > 0.0
      && heard == Join(chunks) + buf
      && (forall k | 0 <= k < |chunks| :: |chunks[k]| == target)
      && AllPosted(posted, chunks, ratio)
    }

    constructor (target: nat, ratio: real)
      requires ratio > 0.0
      ensures Valid() && this.target == target && this.ratio == ratio && heard == [] && posted == []
    {
      this.target, this.ratio := target, ratio;
      buf, posted, heard, chunks := [], [], [], [];
    }

    method Process(inp: seq<real>)
      requires Valid()
      modifies this
      ensures Valid() && heard == old(heard) + inp
      ensures |buf| == AfterBlock(|old(buf)|, |inp|, target)
      ensures if |inp| == 0 || |old(buf)| + |inp| < target
              then posted == old(posted) && buf == old(buf) + inp
              else |posted| == |old(posted)| + 1 && posted[..|old(posted)|] == old(posted)
    {
      hide Encoded, Join;
      if |inp| == 0 {
        assert heard + inp == heard && buf + inp == buf;
        return;
      }
      heard := heard + inp;
      buf := buf + inp;
      JoinMore(chunks, old(buf), inp);
      if |buf| < target {
        return;
      }
      var chunk := buf[..target];
      buf := buf[target..];
      JoinOne(chunks, chunk, buf);
      assert chunk + buf == old(buf) + inp;
      chunks := chunks + [chunk];
      var message := Encode(chunk);
      posted := posted + [message];
    }

    method Encode(chunk: seq<real>) returns (framed: Bytes)
      requires ratio > 0.0
      ensures framed == Encoded(chunk, ratio)
    {
      hide LittleEndian, Pcm, Mean, Outputs, RunStart;
      var stage1 := BoxDecimate(chunk, 2.0);
      var stage2 := BoxDecimate(stage1[..], ratio / 2.0);
      ghost var samples := stage2[..];
      framed := [BIN_TAG_VOICE];
      for i := 0 to stage2.Length
        invariant framed + Body(samples[i..]) == Frame(samples)
      {
        assert samples[i..][1..] == samples[i + 1..] && samples[i] == stage2[i];
        framed := framed + LittleEndian(Pcm(stage2[i]));
      }
    }
  }

  lemma JoinMore(chunks: seq<seq<real>>, buf: seq<real>, inp: seq<real>)
    ensures Join(chunks) + buf + inp == Join(chunks) + (buf + inp)
  {}

  lemma JoinOne(chunks: seq<seq<real>>, chunk: seq<real>, buf: seq<real>)
    ensures Join(chunks + [chunk]) + buf == Join(chunks) + (chunk + buf)
  {
    assert (chunks + [chunk])[..|chunks|] == chunks;
  }

  /** With blocks no longer than a chunk, the buffer stays below one chunk for ever. */
  lemma {:induction false} BufferStaysShort(buffered: nat, blocks: seq<nat>, target: nat)
    requires buffered < target && forall k | 0 <= k < |blocks| :: blocks[k] <= target
    ensures Backlog(buffered, blocks, target) < target
    decreases |blocks|
  {
    if |blocks| > 0 {
      BufferStaysShort(AfterBlock(buffered, blocks[0], target), blocks[1..], target);
    }
  }

  function AfterBlock(buffered: nat, block: nat, target: nat): nat {
    if block == 0 || buffered + block < target then buffered + block else buffered + block - target
  }

  function Backlog(buffered: nat, blocks: seq<nat>, target: nat): nat
    decreases |blocks|
  {
    if |blocks| == 0 then buffered else Backlog(AfterBlock(buffered, blocks[0], target), blocks[1..], target)
  }
}
