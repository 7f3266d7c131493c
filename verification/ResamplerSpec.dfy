/** What a rational resampler computes: its polyphase sum, the direct form it stands for,
    and how many samples are out after how many are in. */
module ResamplerSpec {
  import opened Basics
  import opened Division

  /** Nearest integer, halves away from zero, saturated to 16 bits. */
  function Quantize(acc: real): Sample {
    var v := if acc >= 0.0 then (acc + 0.5).Floor else -((-acc + 0.5).Floor);
    if v > 32767 then 32767 else if v < -32768 then -32768 else v
  }

  /** Rounding: the nearest sample, of two equally near the one away from zero, and beyond 16 bits
      the limit on that side. */
  ghost predicate Nearest(v: real, y: Sample) {
    && (v > 32767.0 ==> y == 32767)
    && (v < -32768.0 ==> y == -32768)
    && (-32768.0 <= v <= 32767.0 ==>
          && -0.5 <= y as real - v <= 0.5
          && (y as real - v == 0.5 ==> v >= 0.0) && (y as real - v == -0.5 ==> v <= 0.0))
  }

  lemma QuantizeIsNearest(v: real)
    ensures Nearest(v, Quantize(v))
  {}

  lemma Distributes(a: real, b: real, c: real)
    ensures (a + b) * c == a * c + b * c
  {}

  lemma GainOne(gain: real, sum: real, c: real, acc: real, v: real)
    requires sum * gain == 1.0 && acc == sum * c && v == acc * gain
    ensures v == c
  {}

  /** Interpolation by `L`, decimation by `M`, `K` taps per phase; `h` is the prototype filter. */
  datatype Ratio = Ratio(L: nat, M: nat, K: nat, h: nat -> real) {
    predicate Valid() {
      L > 0 && M > 0
    }

    /** Newest input sample output `m` depends on, and the phase it uses. */
    function Base(m: nat): nat
      requires L > 0
    {
      m * M / L
    }

    function Phase(m: nat): nat
      requires L > 0
    {
      m * M % L
    }

    // ------------------------------------------------------------ polyphase form

    /** Prototype tap behind tap `j` of phase `p`, and where that coefficient is stored. */
    function TapIndex(p: nat, j: nat): nat {
      p + j * L
    }

    function Cell(p: nat, j: nat): nat {
      p * K + j
    }

    /** Every one of the `K * L` prototype taps belongs to exactly one tap of one phase. */
    lemma TapsArePartitioned(k: nat, p: nat, j: nat)
      requires L > 0 && p < L
      ensures j < K ==> TapIndex(p, j) < K * L && Cell(p, j) < L * K
      ensures TapIndex(p, j) == k <==> p == k % L && j == k / L
      ensures k < K * L ==> k / L < K
    {
      if j < K {
        MulMonotone(j + 1, K, L);
        Distribute(j, L);
        MulMonotone(p + 1, L, K);
        Distribute(p, K);
      }
      DivUnique(TapIndex(p, j), L, j, p);
      DivBelow(k, L, K);
    }

    lemma CellsAreDistinct(p: nat, j: nat, p': nat, j': nat)
      requires j < K && j' < K && Cell(p, j) == Cell(p', j')
      ensures p == p' && j == j'
    {
      DivUnique(Cell(p, j), K, p, j);
      DivUnique(Cell(p, j), K, p', j');
    }

    /** Tap `j` of output `m`; inputs before the start of the stream count as silence. */
    function Term(x: seq<Sample>, m: nat, j: nat): real
      requires L > 0 && Base(m) < |x|
    {
      if j <= Base(m) then h(TapIndex(Phase(m), j)) * x[Base(m) - j] as real else 0.0
    }

    function Polyphase(x: seq<Sample>, m: nat, n: nat): real
      requires L > 0 && Base(m) < |x|
    {
      if n == 0 then 0.0 else Polyphase(x, m, n - 1) + Term(x, m, n - 1)
    }

    function Output(x: seq<Sample>, m: nat): Sample
      requires L > 0 && Base(m) < |x|
    {
      Scaled(Polyphase(x, m, K))
    }

    /** Zero stuffing costs a factor `L` of gain, restored here. */
    function Scaled(acc: real): Sample {
      Quantize(acc * L as real)
    }

    /** Number of outputs due after `n` inputs: n*L/M rounded up. */
    function Due(n: nat): nat
      requires M > 0
    {
      (n * L + M - 1) / M
    }

    /** Output `m` is due exactly when its newest input has arrived. */
    lemma DueWhenArrived(n: nat, m: nat)
      requires Valid()
      ensures m < Due(n) <==> Base(m) < n
    {
      DivBelow(m * M, L, n);
      DivAbove(n * L + M - 1, M, m + 1);
      assert (m + 1) * M == m * M + M;
    }

    /** Some output lies beyond any inputs, so that the loop over outputs ends, exactly when `M` is
        positive: with an input rate of zero every output depends on the first sample alone. */
    lemma LoopEnds(n: nat)
      requires L > 0 && n > 0
      ensures (exists m: nat :: Base(m) > n - 1) <==> M > 0
    {
      if M > 0 {
        Associate(n, L, M);
        Associate(n, M, L);
        DivUnique(n * L * M, L, n * M, 0);
        MulMonotone(1, M, n);
        assert Base(n * L) >= n;
      } else {
        forall m: nat
          ensures Base(m) == 0
        {
          DivUnique(m * M, L, 0, 0);
        }
      }
    }

    /** The first `n` outputs. */
    ghost function Outputs(x: seq<Sample>, n: nat): (r: seq<Sample>)
      requires Valid() && n <= Due(|x|)
      ensures |r| == n
    {
      seq(n, m requires 0 <= m < n => DueWhenArrived(|x|, m); Output(x, m))
    }

    /** The whole output stream for the input stream `x`. */
    ghost function Stream(x: seq<Sample>): (r: seq<Sample>)
      requires Valid()
    {
      if L == 1 && M == 1 then x else Outputs(x, Due(|x|))
    }

    // ------------------------------------------------------------ direct form

    /** The input with `L - 1` zeros after every sample, and silence before it. */
    function Stuffed(x: seq<Sample>, t: int): real
      requires L > 0
    {
      if 0 <= t && t % L == 0 && t / L < |x| then x[t / L] as real else 0.0
    }

    /** The first `n` terms of the convolution of the stuffed input with the prototype. */
    function Convolved(x: seq<Sample>, t: int, n: nat): real
      requires L > 0
    {
      if n == 0 then 0.0 else Convolved(x, t, n - 1) + Tap(x, t, n - 1)
    }

    /** Upsample by `L`, filter with all `K * L` taps, keep every `M`-th sample, restore the gain. */
    function Direct(x: seq<Sample>, m: nat): Sample
      requires L > 0
    {
      Scaled(Convolved(x, m * M, K * L))
    }

    /** Of each run of `L` taps only the one on output `m`'s phase meets a nonzero sample. */
    lemma {:induction false} OneTapPerRun(x: seq<Sample>, m: nat, j: nat, p: nat)
      requires L > 0 && Base(m) < |x| && p <= L
      ensures Convolved(x, m * M, j * L + p)
              == Convolved(x, m * M, j * L)
                 + if p > Phase(m) then Term(x, m, j) else 0.0
    {
      if p > 0 {
        OneTapPerRun(x, m, j, p - 1);
        TapMeets(x, m, j, p - 1);
        hide Base, Phase, Tap, Term;
      }
    }

    function Tap(x: seq<Sample>, t: int, k: nat): real
      requires L > 0
    {
      h(k) * Stuffed(x, t - k)
    }

    lemma TapMeets(x: seq<Sample>, m: nat, j: nat, p: nat)
      requires L > 0 && Base(m) < |x| && p < L
      ensures Tap(x, m * M, j * L + p) == if p == Phase(m) then Term(x, m, j) else 0.0
    {
      StuffedAt(x, m, j, p);
    }

    lemma StuffedAt(x: seq<Sample>, m: nat, j: nat, p: nat)
      requires L > 0 && Base(m) < |x| && p < L
      ensures Stuffed(x, m * M - (j * L + p))
              == if p == Phase(m) && j <= Base(m) then x[Base(m) - j] as real else 0.0
    {
      var t := m * M - (j * L + p);
      var q := Base(m) - j;
      assert t == q * L + (Phase(m) - p);
      MultipleOf(t, L, q, Phase(m) - p);
    }

    lemma {:induction false} PolyphaseIsConvolution(x: seq<Sample>, m: nat, n: nat)
      requires L > 0 && Base(m) < |x|
      ensures Polyphase(x, m, n) == Convolved(x, m * M, n * L)
    {
      if n > 0 {
        PolyphaseIsConvolution(x, m, n - 1);
        OneTapPerRun(x, m, n - 1, L);
        Distribute(n - 1, L);
        hide Convolved, Term;
      }
    }

    /** The polyphase filter computes upsample, filter, decimate. */
    lemma PolyphaseIsDirect(x: seq<Sample>, m: nat)
      requires L > 0 && Base(m) < |x|
      ensures Output(x, m) == Direct(x, m)
    {
      hide Scaled;
      PolyphaseIsConvolution(x, m, K);
    }

    // ------------------------------------------------------------ gain

    /** The exact value of output `m`: `L` times the convolution. */
    function Exact(x: seq<Sample>, m: nat): real
      requires L > 0
    {
      Convolved(x, m * M, K * L) * L as real
    }

    /** An output is the sample nearest to it. */
    lemma OutputIsNearest(x: seq<Sample>, m: nat)
      requires L > 0 && Base(m) < |x|
      ensures Nearest(Exact(x, m), Output(x, m))
    {
      PolyphaseIsDirect(x, m);
      ExactIsScaled(x, m);
      hide Exact, Direct, Output, Nearest;
    }

    lemma ExactIsScaled(x: seq<Sample>, m: nat)
      requires L > 0
      ensures Nearest(Exact(x, m), Direct(x, m))
    {
      hide Convolved, Nearest, Scaled;
      ScaledIsNearest(Convolved(x, m * M, K * L), Exact(x, m));
    }

    lemma ScaledIsNearest(acc: real, v: real)
      requires v == acc * L as real
      ensures Nearest(v, Scaled(acc))
    {
      assert Scaled(acc) == Quantize(v);
      QuantizeIsNearest(v);
    }

    /** The first `n` taps of a phase added up. */
    function PhaseSum(p: nat, n: nat): real {
      if n == 0 then 0.0 else PhaseSum(p, n - 1) + h(TapIndex(p, n - 1))
    }

    /** The newest `n` inputs of output `m` are all `c`. */
    predicate Steady(x: seq<Sample>, m: nat, n: nat, c: Sample)
      requires L > 0 && Base(m) < |x|
    {
      n <= Base(m) + 1 && forall i | Base(m) + 1 - n <= i <= Base(m) :: x[i] == c
    }

    lemma {:induction false} ConstantSum(x: seq<Sample>, m: nat, c: Sample, n: nat)
      requires L > 0 && Base(m) < |x| && Steady(x, m, n, c)
      ensures Polyphase(x, m, n) == PhaseSum(Phase(m), n) * c as real
    {
      hide Base, Phase, TapIndex;
      if n > 0 {
        ConstantSum(x, m, c, n - 1);
        Distributes(PhaseSum(Phase(m), n - 1), h(TapIndex(Phase(m), n - 1)), c as real);
      }
    }

    /** Unity gain: where the taps of a phase add up to 1/L, an output whose `K` inputs are all `c` is
        `c`. */
    lemma ConstantPasses(x: seq<Sample>, m: nat, c: Sample)
      requires L > 0 && Base(m) < |x| && Steady(x, m, K, c)
      requires PhaseSum(Phase(m), K) * L as real == 1.0
      ensures Output(x, m) == c
    {
      hide Polyphase, PhaseSum, Convolved, Scaled, Base, Phase, Steady;
      ConstantSum(x, m, c, K);
      PolyphaseIsConvolution(x, m, K);
      GainOne(L as real, PhaseSum(Phase(m), K), c as real, Polyphase(x, m, K), Polyphase(x, m, K) * L as real);
      ScaledIsNearest(Polyphase(x, m, K), c as real);
    }

    // ------------------------------------------------------------ causality

    /** Taps that would reach before the start of the stream add nothing. */
    lemma {:induction false} PolyphaseTail(x: seq<Sample>, m: nat, j: nat, n: nat)
      requires L > 0 && Base(m) < |x| && Base(m) < j <= n
      ensures Polyphase(x, m, n) == Polyphase(x, m, j)
    {
      if j < n {
        PolyphaseTail(x, m, j, n - 1);
      }
    }

    lemma {:induction false} PolyphaseOfPrefix(x: seq<Sample>, y: seq<Sample>, m: nat, n: nat)
      requires L > 0 && Base(m) < |x|
      ensures Polyphase(x + y, m, n) == Polyphase(x, m, n)
    {
      if n > 0 {
        PolyphaseOfPrefix(x, y, m, n - 1);
      }
    }

    lemma OutputOfPrefix(x: seq<Sample>, y: seq<Sample>, m: nat)
      requires L > 0 && Base(m) < |x|
      ensures Output(x, m) == Output(x + y, m)
    {
      PolyphaseOfPrefix(x, y, m, K);
    }

    lemma OutputsNext(x: seq<Sample>, n: nat)
      requires Valid() && n < Due(|x|)
      ensures Base(n) < |x| && Outputs(x, n + 1) == Outputs(x, n) + [Output(x, n)]
    {
      DueWhenArrived(|x|, n);
      hide Output, Due, Base;
    }

    lemma OutputsOfPrefix(x: seq<Sample>, y: seq<Sample>, n: nat)
      requires Valid() && n <= Due(|x|)
      ensures n <= Due(|x + y|) && Outputs(x, n) == Outputs(x + y, n)
    {
      hide Output, Due, Base;
      DueMonotone(|x|, |x + y|);
      forall m | 0 <= m < n
        ensures Base(m) < |x| && Output(x, m) == Output(x + y, m)
      {
        DueWhenArrived(|x|, m);
        OutputOfPrefix(x, y, m);
      }
    }

    /** Later input never changes output already due. */
    lemma StreamExtends(x: seq<Sample>, y: seq<Sample>)
      requires Valid()
      ensures Stream(x) <= Stream(x + y)
    {
      if !(L == 1 && M == 1) {
        hide Output, Due, Base, Valid;
        DueMonotone(|x|, |x + y|);
        OutputsOfPrefix(x, y, Due(|x|));
        assert Outputs(x + y, Due(|x|)) <= Outputs(x + y, Due(|x + y|));
      }
    }

    lemma DueMonotone(a: nat, b: nat)
      requires Valid() && a <= b
      ensures Due(a) <= Due(b)
    {
      if Due(a) > 0 {
        DueWhenArrived(a, Due(a) - 1);
        DueWhenArrived(b, Due(a) - 1);
      }
    }
  }
}
