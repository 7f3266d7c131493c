/** Fixed-width machine words as bit sequences: element `i` is bit `i`, counted from the
    least significant end, so shifts and masks of the program become indices and slices. */
module BitWords {

  type Bits = seq<bool>

  function Zeros(n: nat): (r: Bits) {
    seq(n, _ => false)
  }

  function Xor(a: Bits, b: Bits): (r: Bits)
    requires |a| == |b|
  {
    seq(|a|, i requires 0 <= i < |a| => a[i] != b[i])
  }

  function One(b: bool): nat {
    if b then 1 else 0
  }

  /** Number of set bits among the lowest `n`. */
  function Count(a: Bits, n: nat): nat
    requires n <= |a|
  {
    if n == 0 then 0 else Count(a, n - 1) + One(a[n - 1])
  }

  function Weight(a: Bits): nat {
    Count(a, |a|)
  }

  /** Hamming distance. */
  function Distance(a: Bits, b: Bits): nat
    requires |a| == |b|
  {
    Weight(Xor(a, b))
  }

  /** The number a word denotes. */
  function Value(a: Bits): nat {
    if |a| == 0 then 0 else One(a[0]) + 2 * Value(a[1..])
  }

  lemma XorZero(a: Bits, b: Bits)
    requires |a| == |b|
    ensures Xor(a, b) == Zeros(|a|) <==> a == b
  {
    if Xor(a, b) == Zeros(|a|) {
      forall i | 0 <= i < |a|
        ensures a[i] == b[i]
      {
        assert !Xor(a, b)[i];
      }
    }
  }

  lemma XorTwice(a: Bits, b: Bits)
    requires |a| == |b|
    ensures Xor(a, Xor(a, b)) == b
  {}

  lemma XorAcross(a: Bits, b: Bits, c: Bits)
    requires |a| == |b| == |c|
    ensures Xor(Xor(b, c), Xor(a, b)) == Xor(a, c)
  {}

  lemma {:induction false} CountXor(a: Bits, b: Bits, n: nat)
    requires |a| == |b| && n <= |a|
    ensures Count(Xor(a, b), n) <= Count(a, n) + Count(b, n)
  {
    if n > 0 {
      CountXor(a, b, n - 1);
    }
  }

  lemma SelfDistance(a: Bits)
    ensures Distance(a, a) == 0
  {
    XorZero(a, a);
    WeightZero(Xor(a, a));
  }

  lemma DistanceSymmetric(a: Bits, b: Bits)
    requires |a| == |b|
    ensures Distance(a, b) == Distance(b, a)
  {
    assert Xor(a, b) == Xor(b, a);
  }

  /** Distances obey the triangle inequality. */
  lemma Triangle(a: Bits, b: Bits, c: Bits)
    requires |a| == |b| == |c|
    ensures Distance(a, c) <= Distance(a, b) + Distance(b, c)
  {
    assert Xor(a, c) == Xor(Xor(a, b), Xor(b, c));
    CountXor(Xor(a, b), Xor(b, c), |a|);
  }

  lemma {:induction false} CountZero(a: Bits, n: nat)
    requires n <= |a|
    ensures Count(a, n) == 0 <==> forall i | 0 <= i < n :: !a[i]
  {
    if n > 0 {
      CountZero(a, n - 1);
    }
  }

  lemma {:induction false} CountAtMost(a: Bits, n: nat)
    requires n <= |a|
    ensures Count(a, n) <= n
  {
    if n > 0 {
      CountAtMost(a, n - 1);
    }
  }

  /** Inverting the lowest bits trades their weight for its complement. */
  lemma {:induction false} CountInverted(a: Bits, b: Bits, n: nat)
    requires n <= |a| == |b| && forall i | 0 <= i < n :: a[i] == !b[i]
    ensures Count(a, n) + Count(b, n) == n
  {
    if n > 0 {
      CountInverted(a, b, n - 1);
    }
  }

  lemma WeightZero(a: Bits)
    ensures Weight(a) == 0 <==> a == Zeros(|a|)
  {
    CountZero(a, |a|);
  }

  lemma {:induction false} CountSplit(a: Bits, b: Bits, n: nat)
    requires n <= |b|
    ensures Count(a + b, |a| + n) == Weight(a) + Count(b, n)
  {
    if n > 0 {
      CountSplit(a, b, n - 1);
    } else {
      CountSame(a + b, a, |a|);
    }
  }

  lemma {:induction false} CountSame(a: Bits, b: Bits, n: nat)
    requires n <= |a| && n <= |b|
    requires forall i | 0 <= i < n :: a[i] == b[i]
    ensures Count(a, n) == Count(b, n)
  {
    if n > 0 {
      CountSame(a, b, n - 1);
    }
  }

  /** Setting a clear bit adds one. */
  lemma {:induction false} CountSet(a: Bits, i: nat, n: nat)
    requires i < n <= |a| && !a[i]
    ensures Count(a[i := true], n) == Count(a, n) + 1
  {
    if i == n - 1 {
      CountSame(a, a[i := true], n - 1);
    } else {
      CountSet(a, i, n - 1);
    }
  }

  /** A word has at most as many set bits as any set holding their positions. */
  lemma {:induction false} CountWithin(a: Bits, n: nat, positions: set<int>)
    requires n <= |a|
    requires forall i | 0 <= i < n && a[i] :: i in positions
    ensures Count(a, n) <= |positions|
  {
    if n > 0 {
      if a[n - 1] {
        CountWithin(a, n - 1, positions - {n - 1});
      } else {
        CountWithin(a, n - 1, positions);
      }
    }
  }

  /** And as many clear ones. */
  lemma {:induction false} CountOutside(a: Bits, n: nat, positions: set<int>)
    requires n <= |a|
    requires forall i | 0 <= i < n && !a[i] :: i in positions
    ensures Count(a, n) + |positions| >= n
  {
    if n > 0 {
      if !a[n - 1] {
        CountOutside(a, n - 1, positions - {n - 1});
      } else {
        CountOutside(a, n - 1, positions);
      }
    }
  }

  lemma {:induction false} CountRun(a: Bits, lo: nat, n: nat)
    requires lo <= n <= |a| && forall i | lo <= i < n :: a[i]
    ensures Count(a, n) >= n - lo
  {
    if lo < n {
      CountRun(a, lo, n - 1);
    }
  }

  /** Runs of set bits among the lowest `n`. */
  function Runs(a: Bits, n: nat): nat
    requires n <= |a|
  {
    if n == 0 then 0 else Runs(a, n - 1) + if a[n - 1] && !(n > 1 && a[n - 2]) then 1 else 0
  }

  /** The price of a pattern: one for each set bit and one for each run. */
  function Price(a: Bits, n: nat): nat
    requires n <= |a|
  {
    Count(a, n) + Runs(a, n)
  }

  lemma {:induction false} PriceOfSome(a: Bits, n: nat)
    requires n <= |a|
    ensures Count(a, n) > 0 ==> Price(a, n) > Count(a, n)
  {
    if n > 0 {
      PriceOfSome(a, n - 1);
      if a[n - 1] && n > 1 && a[n - 2] { CountRun(a, n - 2, n - 1); }
    }
  }

  /** Each bit flipped changes the price by at most two. */
  lemma {:induction false} PriceXor(a: Bits, b: Bits, n: nat)
    requires |a| == |b| && n <= |a|
    ensures Price(Xor(a, b), n) + 2 * Count(b, n) >= Price(a, n) + if n > 0 && b[n - 1] && !a[n - 1] then 1 else 0
  {
    if n > 0 {
      PriceXor(a, b, n - 1);
    }
  }

  lemma {:induction false} ValueRange(a: Bits)
    ensures Value(a) < Power(|a|)
  {
    if |a| > 0 {
      ValueRange(a[1..]);
    }
  }

  function Power(n: nat): nat {
    if n == 0 then 1 else 2 * Power(n - 1)
  }

  /** Equal-width words with equal values are equal, so a table may be indexed by value. */
  lemma {:induction false} ValueInjective(a: Bits, b: Bits)
    requires |a| == |b| && Value(a) == Value(b)
    ensures a == b
  {
    if |a| > 0 {
      assert a == [a[0]] + a[1..] && b == [b[0]] + b[1..];
      ValueInjective(a[1..], b[1..]);
    }
  }

  lemma {:induction false} ValueZero(n: nat)
    ensures Value(Zeros(n)) == 0
  {
    if n > 0 {
      assert Zeros(n)[1..] == Zeros(n - 1);
      ValueZero(n - 1);
    }
  }
}
