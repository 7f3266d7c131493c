/** Linear maps over GF(2) given by their twelve lines: the part of coding theory the Golay
    code needs, for any choice of lines. */
module LinearMap {
  import opened BitWords

  predicate Square(lines: seq<Bits>) {
    |lines| == 12 && forall i | 0 <= i < 12 :: |lines[i]| == 12
  }

  function Selected(b: bool, line: Bits): (r: Bits)
    ensures |r| == |line|
  {
    if b then line else Zeros(|line|)
  }

  /** The sum of the lines selected by the lowest `n` bits of `u`. */
  function Combine(lines: seq<Bits>, u: Bits, n: nat): (r: Bits)
    requires Square(lines) && |u| == 12 && n <= 12
    ensures |r| == 12
    decreases n
  {
    if n == 0 then Zeros(12) else Xor(Combine(lines, u, n - 1), Selected(u[n - 1], lines[n - 1]))
  }

  function Image(lines: seq<Bits>, u: Bits): (r: Bits)
    requires Square(lines) && |u| == 12
    ensures |r| == 12
  {
    Combine(lines, u, |u|)
  }

  function Two(lines: seq<Bits>, i: nat, j: nat): (r: Bits)
    requires Square(lines) && i < 12 && j < 12
    ensures |r| == 12
  {
    Xor(lines[i], lines[j])
  }

  function Three(lines: seq<Bits>, i: nat, j: nat, k: nat): (r: Bits)
    requires Square(lines) && i < 12 && j < 12 && k < 12
    ensures |r| == 12
  {
    Xor(Two(lines, i, j), lines[k])
  }

  /** Any one, two or three distinct lines add up to at least 7, 6 or 5 set bits. */
  ghost predicate Light(lines: seq<Bits>)
    requires Square(lines)
  {
    && (forall i | 0 <= i < 12 :: Weight(lines[i]) >= 7)
    && (forall i, j | 0 <= i < j < 12 :: Weight(Two(lines, i, j)) >= 6)
    && (forall i, j, k | 0 <= i < j < k < 12 :: Weight(Three(lines, i, j, k)) >= 5)
  }

  /** Any one, two or three distinct lines leave at least 3, 2 or 1 bits clear. */
  ghost predicate Loose(lines: seq<Bits>)
    requires Square(lines)
  {
    && (forall i | 0 <= i < 12 :: Weight(lines[i]) <= 9)
    && (forall i, j | 0 <= i < j < 12 :: Weight(Two(lines, i, j)) <= 10)
    && (forall i, j, k | 0 <= i < j < k < 12 :: Weight(Three(lines, i, j, k)) <= 11)
  }

  function Unit(i: nat): (r: Bits)
    requires i < 12
    ensures |r| == 12
  {
    Zeros(12)[i := true]
  }

  lemma {:induction false} CombineXor(lines: seq<Bits>, a: Bits, b: Bits, n: nat)
    requires Square(lines) && |a| == |b| == 12 && n <= 12
    ensures Combine(lines, Xor(a, b), n) == Xor(Combine(lines, a, n), Combine(lines, b, n))
  {
    if n > 0 {
      CombineXor(lines, a, b, n - 1);
    }
  }

  lemma {:induction false} CombineZero(lines: seq<Bits>, n: nat)
    requires Square(lines) && n <= 12
    ensures Combine(lines, Zeros(12), n) == Zeros(12)
  {
    if n > 0 {
      CombineZero(lines, n - 1);
    }
  }

  /** A word with one, two or three set bits selects that many lines. */
  lemma {:induction false} Sparse(lines: seq<Bits>, u: Bits, n: nat) returns (i: nat, j: nat, k: nat)
    requires Square(lines) && |u| == 12 && n <= 12
    ensures Count(u, n) == 0 ==> Combine(lines, u, n) == Zeros(12)
    ensures Count(u, n) == 1 ==> i < n && Combine(lines, u, n) == lines[i]
    ensures Count(u, n) == 2 ==> i < j < n && Combine(lines, u, n) == Two(lines, i, j)
    ensures Count(u, n) == 3 ==>
              i < j < k < n && Combine(lines, u, n) == Three(lines, i, j, k)
  {
    i, j, k := 0, 0, 0;
    if n > 0 {
      i, j, k := Sparse(lines, u, n - 1);
      if u[n - 1] {
        match Count(u, n)
        case 1 => i := n - 1;
        case 2 => j := n - 1;
        case _ => k := n - 1;
      }
    }
  }

  lemma SparseIsHeavy(lines: seq<Bits>, u: Bits)
    requires Square(lines) && Light(lines) && |u| == 12 && 1 <= Weight(u) <= 3
    ensures Weight(Image(lines, u)) + Weight(u) >= 8
  {
    var i, j, k := Sparse(lines, u, |u|);
  }

  /** So every word is at least 4 bits, image and word taken together, away from an image of all bits
      set and a word of none. */
  lemma ImageLeavesBits(lines: seq<Bits>, u: Bits)
    requires Square(lines) && Loose(lines) && |u| == 12
    ensures Weight(u) + 12 - Weight(Image(lines, u)) >= 4
  {
    CountAtMost(Image(lines, u), 12);
    WeightZero(Zeros(12));
    var i, j, k := Sparse(lines, u, |u|);
  }

  lemma ImageXor(lines: seq<Bits>, a: Bits, b: Bits)
    requires Square(lines) && |a| == |b| == 12
    ensures Image(lines, Xor(a, b)) == Xor(Image(lines, a), Image(lines, b))
  {
    CombineXor(lines, a, b, |a|);
  }

  lemma ImageZero(lines: seq<Bits>)
    requires Square(lines)
    ensures Image(lines, Zeros(12)) == Zeros(12)
  {
    CombineZero(lines, |Zeros(12)|);
  }

  function And(a: Bits, b: Bits): (r: Bits)
    requires |a| == |b|
    ensures |r| == |a|
  {
    seq(|a|, i requires 0 <= i < |a| => a[i] && b[i])
  }

  /** Bit `t` of every line. */
  function Across(lines: seq<Bits>, t: nat): (r: Bits)
    requires Square(lines) && t < 12
    ensures |r| == 12
  {
    seq(12, j requires 0 <= j < 12 => lines[j][t])
  }

  /** Each bit of a combination is the parity of an overlap. */
  lemma {:induction false} CombineBit(lines: seq<Bits>, u: Bits, t: nat, n: nat)
    requires Square(lines) && |u| == 12 && t < 12 && n <= 12
    ensures Combine(lines, u, n)[t] <==> Count(And(u, Across(lines, t)), n) % 2 == 1
  {
    if n > 0 {
      CombineBit(lines, u, t, n - 1);
      assert Selected(u[n - 1], lines[n - 1])[t] == And(u, Across(lines, t))[n - 1];
    }
  }

  /** The lowest `n` bits of a word, the others cleared. */
  function Low(u: Bits, n: nat): (r: Bits)
    requires |u| == 12 && n <= 12
    ensures |r| == 12
  {
    u[..n] + Zeros(12 - n)
  }

  lemma LowStep(u: Bits, n: nat)
    requires |u| == 12 && n <= 12
    ensures n == 0 ==> Low(u, n) == Zeros(12)
    ensures n > 0 ==> Low(u, n) == Xor(Low(u, n - 1), Selected(u[n - 1], Unit(n - 1)))
  {
    forall i | 0 <= i < 12
      ensures Low(u, n)[i] == (i < n && u[i])
      ensures n > 0 ==> Low(u, n - 1)[i] == (i < n - 1 && u[i])
      ensures n > 0 ==> Selected(u[n - 1], Unit(n - 1))[i] == (i == n - 1 && u[i])
    {}
    hide Low, Selected;
  }

  /** If `back` sends every line of `lines` to its unit vector, it undoes `lines`. */
  lemma {:induction false} Inverse(lines: seq<Bits>, back: seq<Bits>, u: Bits, n: nat)
    requires Square(lines) && Square(back) && |u| == 12 && n <= 12
    requires forall i | 0 <= i < 12 :: Image(back, lines[i]) == Unit(i)
    ensures Image(back, Combine(lines, u, n)) == Low(u, n)
  {
    ImageZero(back);
    LowStep(u, n);
    if n > 0 {
      Inverse(lines, back, u, n - 1);
      ImageXor(back, Combine(lines, u, n - 1), Selected(u[n - 1], lines[n - 1]));
      hide Image;
      hide Low;
      hide Xor;
      hide Zeros;
    }
  }

  lemma Undone(lines: seq<Bits>, back: seq<Bits>, u: Bits)
    requires Square(lines) && Square(back) && |u| == 12
    requires forall i | 0 <= i < 12 :: Image(back, lines[i]) == Unit(i)
    ensures Image(back, Image(lines, u)) == u
  {
    hide Combine;
    Inverse(lines, back, u, |u|);
    assert Low(u, |u|) == u;
  }

  /** A map and its inverse, both of whose lines are heavy, make a code of distance 8. */
  lemma Heavy(lines: seq<Bits>, back: seq<Bits>, u: Bits)
    requires Square(lines) && Square(back) && Light(lines) && Light(back)
    requires forall i | 0 <= i < 12 :: Image(back, lines[i]) == Unit(i)
    requires |u| == 12 && u != Zeros(12)
    ensures Weight(u) + Weight(Image(lines, u)) >= 8
  {
    Undone(lines, back, u);
    ImageZero(back);
    WeightZero(u);
    WeightZero(Image(lines, u));
    hide *;
    if Weight(u) <= 3 {
      SparseIsHeavy(lines, u);
    } else if Weight(Image(lines, u)) <= 3 {
      SparseIsHeavy(back, Image(lines, u));
    }
  }
}
