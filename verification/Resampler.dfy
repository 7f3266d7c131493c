/** Streaming rational resampler: polyphase coefficients, a ring of recent input samples and
    two running counts, carried across calls. */
module Resampler {
  import opened Basics
  import opened Division
  import opened ResamplerSpec

  // ---------------------------------------------------------------- reducing the ratio

  /** Euclid's algorithm: the result's divisors are exactly the common divisors. */
  method Gcd(a0: nat, b0: nat) returns (g: nat)
    ensures g > 0
    ensures a0 > 0 || b0 > 0 ==> forall d: nat | d > 0 :: g % d == 0 <==> a0 % d == 0 && b0 % d == 0
  {
    var a: nat, b: nat := a0, b0;
    while b != 0
      invariant forall d: nat | d > 0 :: a % d == 0 && b % d == 0 <==> a0 % d == 0 && b0 % d == 0
      invariant a0 > 0 || b0 > 0 ==> a > 0 || b > 0
      decreases b
    {
      var t: nat := a % b;
      forall d: nat | d > 0 && b % d == 0
        ensures t % d == 0 <==> a % d == 0
      {
        RemainderDivides(a, b, d);
      }
      a, b := b, t;
    }
    g := if a != 0 then a else 1;
  }

  lemma RemainderDivides(a: nat, b: nat, d: nat)
    requires b > 0 && d > 0 && b % d == 0
    ensures a % b % d == 0 <==> a % d == 0
  {
    var q, r, k := a / b, a % b, b / d;
    var s, e := r / d, r % d;
    SameFactor(q, b, k * d);
    Associate(q, k, d);
    Distribute2(q * k, s, d);
    assert a == (q * k + s) * d + e;
    DivUnique(a, d, q * k + s, e);
  }

  ghost predicate Coprime(a: nat, b: nat) {
    forall d: nat | d > 1 :: a % d != 0 || b % d != 0
  }

  /** Dividing two numbers by their greatest common divisor leaves them coprime. */
  lemma ReducedIsCoprime(a: nat, b: nat, g: nat)
    requires a > 0 && b > 0 && g > 0
    requires forall d: nat | d > 0 :: g % d == 0 <==> a % d == 0 && b % d == 0
    ensures a == a / g * g && b == b / g * g && a / g > 0 && b / g > 0
    ensures Coprime(a / g, b / g)
  {
    Self(g);
    Nonzero(a, g);
    Nonzero(b, g);
    forall d: nat | d > 1
      ensures a / g % d != 0 || b / g % d != 0
    {
      MulMonotone(2, d, g);
      DivUnique(g, d * g, 0, g);
      if a / g % d == 0 && b / g % d == 0 {
        MultipleOfProduct(a, g, d);
        MultipleOfProduct(b, g, d);
        assert false;
      }
    }
  }

  lemma Self(g: nat)
    requires g > 0
    ensures g % g == 0
  {}

  lemma Nonzero(a: nat, g: nat)
    requires a > 0 && g > 0 && a % g == 0
    ensures a == a / g * g && a / g > 0
  {}

  lemma MultipleOfProduct(a: nat, g: nat, d: nat)
    requires g > 0 && d > 0 && a % g == 0 && a / g % d == 0
    ensures d * g > 0 && a % (d * g) == 0
  {
    var k := a / g / d;
    SameFactor(g, a / g, k * d);
    Associate(k, d, g);
    MulMonotone(1, d, g);
    assert a == k * (d * g);
    DivUnique(a, d * g, k, 0);
  }

  // ---------------------------------------------------------------- prototype

  const TAPS_PER_PHASE := 16
  const MAX_TAPS := 8192

  /** Length of the prototype: 16 taps per phase at the higher rate, capped, and cut to a whole
      number of phases of at least one tap each. */
  function TapCount(L: nat, M: nat): (n: nat)
    requires L > 0
    ensures n > 0 && n % L == 0
  {
    var wanted := TAPS_PER_PHASE * (if L > M then L else M);
    var capped := if wanted > MAX_TAPS then MAX_TAPS else wanted;
    var whole := capped - capped % L;
    WholePhases(capped, L);
    if whole < L then L else whole
  }

  /** It is the most taps there can be: no larger whole number of phases stays within 16 taps each at
      the higher rate and 8192 in all; and it goes beyond these only where one tap each does. */
  lemma TapCountIsLargest(L: nat, M: nat, n: nat)
    requires L > 0 && n % L == 0 && n <= 8192 && (n <= 16 * L || n <= 16 * M)
    ensures n <= TapCount(L, M)
    ensures TapCount(L, M) > L ==> TapCount(L, M) <= 8192 && (TapCount(L, M) <= 16 * L || TapCount(L, M) <= 16 * M)
  {
    var wanted := if L > M then 16 * L else 16 * M;
    var capped := if wanted > 8192 then 8192 else wanted;
    NoneBetween(capped, L, n);
  }

  lemma NoneBetween(n: nat, L: nat, k: nat)
    requires L > 0 && k % L == 0 && k <= n
    ensures k <= n - n % L
  {
    DivBelow(n, L, n / L + 1);
    DivBelow(k, L, n / L + 1);
    MulMonotone(k / L, n / L, L);
    Quotient(n, L);
    Quotient(k, L);
  }

  lemma Quotient(a: nat, d: nat)
    requires d > 0
    ensures a == a / d * d + a % d
  {}

  lemma WholePhases(n: nat, L: nat)
    requires L > 0
    ensures n % L <= n && (n - n % L) % L == 0 && L % L == 0
  {
    DivUnique(n - n % L, L, n / L, 0);
    DivUnique(L, L, 1, 0);
  }

  lemma RatioKept(L: nat, M: nat, g: nat, inRate: nat, outRate: nat)
    requires inRate == M * g && outRate == L * g && g > 0
    ensures L * inRate == M * outRate
    ensures L == 1 && M == 1 ==> inRate == outRate
    ensures inRate == outRate ==> L == M
  {
    Associate(L, M, g);
    Associate(M, L, g);
    if L < M {
      MulMonotone(L + 1, M, g);
      Distribute(L, g);
    } else if M < L {
      MulMonotone(M + 1, L, g);
      Distribute(M, g);
    }
  }

  lemma EqualCoprimes(L: nat)
    requires L > 0 && Coprime(L, L)
    ensures L == 1
  {
    Self(L);
  }

  /** The rate ratio in lowest terms; a rate of zero makes its factor zero. */
  method Reduce(inRate: nat, outRate: nat) returns (L: nat, M: nat)
    ensures L * inRate == M * outRate
    ensures (L == 0 <==> outRate == 0) && (M == 0 <==> inRate == 0)
    ensures L > 0 && M > 0 ==> Coprime(L, M)
    ensures L == 1 && M == 1 <==> inRate == outRate && inRate > 0
  {
    var g := Gcd(inRate, outRate);
    Self(g);
    L, M := outRate / g, inRate / g;
    if inRate > 0 && outRate > 0 {
      ReducedIsCoprime(inRate, outRate, g);
      RatioKept(L, M, g, inRate, outRate);
      if L == M { EqualCoprimes(L); }
    } else if inRate > 0 {
      Nonzero(inRate, g);
    } else if outRate > 0 {
      Nonzero(outRate, g);
    }
  }

  lemma NoneDue(r: Ratio)
    requires r.Valid()
    ensures r.Due(0) == 0
  {
    DivUnique(r.M - 1, r.M, 0, r.M - 1);
  }

  /** Phase-major coefficients: the cell of each tap of each phase holds its prototype tap. */
  ghost predicate Split(phase: seq<real>, r: Ratio) {
    && |phase| == r.L * r.K
    && forall p: nat, j: nat | p < r.L && j < r.K ::
         r.Cell(p, j) < |phase| && phase[r.Cell(p, j)] == r.h(r.TapIndex(p, j))
  }

  method SplitPrototype(r: Ratio) returns (phase: array<real>)
    requires r.L > 0
    ensures fresh(phase) && Split(phase[..], r)
  {
    phase := new real[r.L * r.K](_ => 0.0);
    for p := 0 to r.L
      invariant forall p', j' | 0 <= p' < p && 0 <= j' < r.K ::
          r.Cell(p', j') < phase.Length && phase[r.Cell(p', j')] == r.h(r.TapIndex(p', j'))
    {
      for j := 0 to r.K
        invariant forall p', j' | 0 <= p' < p && 0 <= j' < r.K ::
            r.Cell(p', j') < phase.Length && phase[r.Cell(p', j')] == r.h(r.TapIndex(p', j'))
        invariant forall j' | 0 <= j' < j ::
            r.Cell(p, j') < phase.Length && phase[r.Cell(p, j')] == r.h(r.TapIndex(p, j'))
      {
        var idx := r.TapIndex(p, j);
        r.TapsArePartitioned(idx, p, j);
        if idx < r.K * r.L {
          SetCell(phase, r, p, j, r.h(idx));
        }
      }
    }
  }

  method SetCell(phase: array<real>, r: Ratio, p: nat, j: nat, v: real)
    requires p < r.L && j < r.K && r.Cell(p, j) < phase.Length
    modifies phase
    ensures phase[r.Cell(p, j)] == v
    ensures forall p': nat, j': nat | j' < r.K && (p', j') != (p, j) && r.Cell(p', j') < phase.Length ::
              phase[r.Cell(p', j')] == old(phase[r.Cell(p', j')])
  {
    phase[r.Cell(p, j)] := v;
    forall p': nat, j': nat | j' < r.K && (p', j') != (p, j) && r.Cell(p', j') < phase.Length
      ensures r.Cell(p', j') != r.Cell(p, j)
    {
      if r.Cell(p', j') == r.Cell(p, j) {
        r.CellsAreDistinct(p, j, p', j');
      }
    }
  }

  // ---------------------------------------------------------------- the ring

  /** A ring holds the newest samples of a stream, each at its count modulo the ring's size. */
  ghost predicate RingHolds(ring: seq<real>, x: seq<Sample>) {
    && |ring| > 0
    && forall a | 0 <= a < |x| && |x| - |ring| <= a :: ring[a % |ring|] == x[a] as real
  }

  lemma RingPush(ring: seq<real>, x: seq<Sample>, s: Sample)
    requires RingHolds(ring, x)
    ensures RingHolds(ring[|x| % |ring| := s as real], x + [s])
  {
    forall a | 0 <= a < |x| && |x| + 1 - |ring| <= a
      ensures a % |ring| != |x| % |ring|
    {
      ModDistinct(a, |x|, |ring|);
    }
  }

  /** Stored coefficient times ring entry is the term the sum calls for. */
  lemma TermFromRing(r: Ratio, phase: seq<real>, ring: seq<real>, x: seq<Sample>, m: nat, j: nat)
    requires r.Valid() && Split(phase, r) && RingHolds(ring, x)
    requires |ring| >= r.K && r.Base(m) == |x| - 1 && j < r.K && j <= r.Base(m)
    ensures r.Cell(r.Phase(m), j) < |phase|
    ensures phase[r.Cell(r.Phase(m), j)] * ring[(r.Base(m) - j) % |ring|] == r.Term(x, m, j)
    ensures r.Polyphase(x, m, j + 1) == r.Polyphase(x, m, j) + r.Term(x, m, j)
  {
    var p, a := r.Phase(m), r.Base(m) - j;
    assert ring[a % |ring|] == x[a] as real;
    assert phase[r.Cell(p, j)] == r.h(r.TapIndex(p, j));
  }

  // ---------------------------------------------------------------- the converter

  class Resampler {
    const ratio: Ratio
    var phase: array<real>
    var hist: array<real>
    var inCount: nat
    var outCount: nat
    /** All input ever processed. */
    ghost var input: seq<Sample>

    predicate IsPassthrough() {
      ratio.L == 1 && ratio.M == 1
    }

    /** The parts that never change after construction. */
    ghost predicate ValidSetup()
      reads this, phase
    {
      && ratio.L > 0
      && (!IsPassthrough() ==>
            ratio.K > 0 && hist != phase && Split(phase[..], ratio) && hist.Length == ratio.K + ratio.M + 8)
    }

    /** Between blocks every output that is due has been emitted. Without an input rate there is no
        such state: the first sample would make all outputs due. */
    ghost predicate Valid()
      reads this, phase, hist
    {
      && ValidSetup() && ratio.M > 0
      && (!IsPassthrough() ==>
            RingHolds(hist[..], input) && inCount == |input| && outCount == ratio.Due(inCount))
    }

    /** `prototype` gives the values of the windowed-sinc filter. An output rate of zero would
        divide by zero phases. */
    constructor (inRate: nat, outRate: nat, prototype: nat -> real)
      requires outRate > 0
      ensures ValidSetup() && input == [] && (inRate > 0 ==> Valid())
      ensures fresh(phase) && fresh(hist)
      ensures ratio.L * inRate == ratio.M * outRate && (ratio.M == 0 <==> inRate == 0)
      ensures inRate > 0 ==> Coprime(ratio.L, ratio.M)
      ensures IsPassthrough() <==> inRate == outRate
      ensures !IsPassthrough() ==> ratio.K * ratio.L == TapCount(ratio.L, ratio.M) && ratio.h == prototype
    {
      hide Coprime, Split, TapCount;
      var L, M := Reduce(inRate, outRate);
      var n := TapCount(L, M);
      var r := Ratio(L, M, if L == 1 && M == 1 then 0 else n / L, prototype);
      ratio := r;
      inCount, outCount, input := 0, 0, [];
      if L == 1 && M == 1 {
        phase := new real[0];
        hist := new real[0];
      } else {
        Nonzero(n, L);
        var p := SplitPrototype(r);
        phase := p;
        hist := new real[r.K + r.M + 8](_ => 0.0);
      }
      new;
      if !(L == 1 && M == 1) && M > 0 {
        NoneDue(r);
      }
    }

    /** One output sample: the inner product of one phase with the ring. */
    method Filter(m: nat) returns (v: Sample)
      requires ValidSetup() && ratio.M > 0 && !IsPassthrough() && RingHolds(hist[..], input) && inCount == |input|
      requires ratio.Base(m) == inCount - 1
      ensures v == ratio.Output(input, m)
    {
      hide Split, RingHolds, Coprime, ratio.Term, ratio.Cell, ratio.Scaled, ratio.Base;
      var base, p := ratio.Base(m), ratio.Phase(m);
      var acc := 0.0;
      var j := 0;
      while j < ratio.K && j <= base
        invariant j <= ratio.K && j <= base + 1
        invariant acc == ratio.Polyphase(input, m, j)
      {
        var idx := base - j;
        TermFromRing(ratio, phase[..], hist[..], input, m, j);
        acc := acc + phase[ratio.Cell(p, j)] * hist[idx % hist.Length];
        j := j + 1;
      }
      if j < ratio.K {
        ratio.PolyphaseTail(input, m, j, ratio.K);
      }
      v := ratio.Scaled(acc);
    }

    /** Resample one block; the result is what the block adds to the output stream. */
    method Process(block: seq<Sample>) returns (out: seq<Sample>)
      requires Valid()
      modifies this, hist
      ensures Valid() && hist == old(hist) && phase == old(phase)
      ensures input == old(input) + block
      ensures ratio.Stream(old(input)) + out == ratio.Stream(input)
      ensures IsPassthrough() ==> out == block
    {
      if IsPassthrough() {
        input := input + block;
        return block;
      }
      out := [];
      for i := 0 to |block|
        invariant Valid() && hist == old(hist) && phase == old(phase)
        invariant input == old(input) + block[..i]
        invariant ratio.Stream(old(input)) + out == ratio.Stream(input)
      {
        var more := Push(block[i]);
        out := out + more;
        assert block[..i + 1] == block[..i] + [block[i]];
      }
      assert block[..|block|] == block;
    }

    /** Take in one sample and emit every output it makes due. */
    method Push(s: Sample) returns (out: seq<Sample>)
      requires Valid() && !IsPassthrough()
      modifies this, hist
      ensures Valid() && hist == old(hist) && phase == old(phase)
      ensures input == old(input) + [s]
      ensures ratio.Stream(old(input)) + out == ratio.Stream(input)
    {
      hide Split, Coprime, RingHolds;
      ghost var before, ring := input, hist[..];
      RingPush(ring, input, s);
      assert hist.Length > 0;
      hist[inCount % hist.Length] := s as real;
      assert hist[..] == ring[inCount % hist.Length := s as real];
      inCount := inCount + 1;
      input := input + [s];
      out := [];
      ratio.DueMonotone(inCount - 1, inCount);
      ratio.OutputsOfPrefix(before, [s], outCount);
      while true
        invariant ValidSetup() && hist == old(hist) && phase == old(phase)
        invariant input == before + [s] && inCount == |input|
        invariant RingHolds(hist[..], input)
        invariant ratio.Due(inCount - 1) <= outCount <= ratio.Due(inCount)
        invariant ratio.Stream(before) + out == ratio.Outputs(input, outCount)
        decreases ratio.Due(inCount) - outCount
      {
        ratio.DueWhenArrived(inCount - 1, outCount);
        ratio.DueWhenArrived(inCount, outCount);
        hide ratio.Due, ratio.Base, ratio.Output;
        if ratio.Base(outCount) > inCount - 1 { break; }
        var v := Filter(outCount);
        ratio.OutputsNext(input, outCount);
        out := out + [v];
        outCount := outCount + 1;
      }
    }
  }
}
