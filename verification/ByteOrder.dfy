/** Numbers as bytes, most significant first. */
module ByteOrder {
  import opened Basics

  /** Big-endian value of a byte string. */
  function BigEndian(s: Bytes): nat {
    if |s| == 0 then 0 else BigEndian(s[..|s| - 1]) * 256 + s[|s| - 1]
  }

  /** The low `k` bytes of `n`, most significant first. */
  function BigEndianBytes(n: nat, k: nat): (r: Bytes)
    ensures |r| == k
    decreases k
  {
    if k == 0 then [] else BigEndianBytes(n / 256, k - 1) + [n % 256]
  }

  function Power256(k: nat): (r: nat)
    ensures r > 0
  {
    if k == 0 then 1 else 256 * Power256(k - 1)
  }

  lemma {:induction false} BigEndianRoundTrip(n: nat, k: nat)
    requires n < Power256(k)
    ensures BigEndian(BigEndianBytes(n, k)) == n
    decreases k
  {
    if k > 0 {
      BigEndianRoundTrip(n / 256, k - 1);
      assert BigEndianBytes(n, k)[..k - 1] == BigEndianBytes(n / 256, k - 1);
    }
  }

  /** `n` shifted right by `i` bytes. */
  function Shifted(n: nat, i: nat): nat {
    if i == 0 then n else Shifted(n, i - 1) / 256
  }

  /** One more byte of a big-endian number, and the two ends of the loop that prints it. */
  lemma NextByte(n: nat, i: nat)
    ensures BigEndianBytes(Shifted(n, 8), 0) == [] && Shifted(n, 0) == n
    ensures i < 8 ==> BigEndianBytes(Shifted(n, i), 8 - i)
                      == BigEndianBytes(Shifted(n, i + 1), 7 - i) + [Shifted(n, i) % 256]
  {}
}
