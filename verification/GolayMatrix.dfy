/** The parity matrix of the extended Golay (24,12) code as the encoder's constants give it,
    and the finite facts about those constants the code's distance rests on. */
module GolayMatrix {
  import opened BitWords
  import opened LinearMap

  /** Parity of the information word with only bit `i` set. */
  function Row(i: nat): bv12 {
    if i == 0 then 0x5C7 else if i == 1 then 0xB8D else if i == 2 then 0x2DE
    else if i == 3 then 0x5BC else if i == 4 then 0xB78 else if i == 5 then 0x337
    else if i == 6 then 0x66D else if i == 7 then 0xCD9 else if i == 8 then 0xC76
    else if i == 9 then 0xD2B else if i == 10 then 0xF92 else 0xAE3
  }

  /** The generator polynomial x^11+x^9+x^7+x^6+x^5+x+1. */
  const GENERATOR_POLYNOMIAL: bv12 := 0xAE3

  /** Multiplication by x modulo the generator, on remainders of degree under 11. */
  function TimesX(remainder: bv12): bv12 {
    if remainder & 0x400 != 0 then (remainder << 1) ^ GENERATOR_POLYNOMIAL else remainder << 1
  }

  /** The same matrix read down its columns: bit `i` of `Column(j)` is bit `j` of `Row(i)`. */
  function Column(j: nat): bv12 {
    if j == 0 then 0xAE3 else if j == 1 then 0xF25 else if j == 2 then 0x16F
    else if j == 3 then 0x2DE else if j == 4 then 0x5BC else if j == 5 then 0xB78
    else if j == 6 then 0x9D5 else if j == 7 then 0xC8F else if j == 8 then 0x63B
    else if j == 9 then 0xC76 else if j == 10 then 0x7C9 else 0xF92
  }

  function Mask(i: nat): (m: bv12)
    ensures m & (m - 1) == 0
  {
    if i == 0 then 1 else if i == 1 then 2 else if i == 2 then 4 else if i == 3 then 8
    else if i == 4 then 16 else if i == 5 then 32 else if i == 6 then 64 else if i == 7 then 128
    else if i == 8 then 256 else if i == 9 then 512 else if i == 10 then 1024 else 2048
  }

  predicate Meet(x: bv12, m: bv12) {
    x & m != 0
  }

  predicate On(x: bv12, i: nat) {
    Meet(x, Mask(i))
  }

  function Unpack(x: bv12): (r: Bits)
    ensures |r| == 12
  {
    seq(12, i requires 0 <= i < 12 => On(x, i))
  }

  function Pop(x: bv12): nat {
    One(On(x, 0)) + One(On(x, 1)) + One(On(x, 2)) + One(On(x, 3)) + One(On(x, 4)) + One(On(x, 5))
    + One(On(x, 6)) + One(On(x, 7)) + One(On(x, 8)) + One(On(x, 9)) + One(On(x, 10)) + One(On(x, 11))
  }

  lemma MeetXor(x: bv12, y: bv12, m: bv12)
    requires m & (m - 1) == 0
    ensures Meet(x ^ y, m) == (Meet(x, m) != Meet(y, m))
  {}

  lemma MeetAnd(x: bv12, y: bv12, m: bv12)
    requires m & (m - 1) == 0
    ensures Meet(x & y, m) == (Meet(x, m) && Meet(y, m))
  {}

  lemma OnXor(x: bv12, y: bv12, i: nat)
    ensures On(x ^ y, i) == (On(x, i) != On(y, i))
  {
    hide Mask, Meet;
    MeetXor(x, y, Mask(i));
  }

  lemma UnpackXor(x: bv12, y: bv12)
    ensures Unpack(x ^ y) == Xor(Unpack(x), Unpack(y))
  {
    hide On;
    forall i | 0 <= i < 12 { OnXor(x, y, i); }
  }

  function CountOn(x: bv12, n: nat): nat
    decreases n
  {
    if n == 0 then 0 else CountOn(x, n - 1) + One(On(x, n - 1))
  }

  lemma {:induction false} UnpackCount(x: bv12, n: nat)
    requires n <= 12
    ensures Count(Unpack(x), n) == CountOn(x, n)
  {
    if n > 0 {
      UnpackCount(x, n - 1);
    }
  }

  lemma PopIsCount(x: bv12)
    ensures CountOn(x, 12) == Pop(x)
  {
    assert CountOn(x, 2) == One(On(x, 0)) + One(On(x, 1));
    assert CountOn(x, 4) == CountOn(x, 2) + One(On(x, 2)) + One(On(x, 3));
    assert CountOn(x, 6) == CountOn(x, 4) + One(On(x, 4)) + One(On(x, 5));
    assert CountOn(x, 8) == CountOn(x, 6) + One(On(x, 6)) + One(On(x, 7));
    assert CountOn(x, 10) == CountOn(x, 8) + One(On(x, 8)) + One(On(x, 9));
  }

  /** The rows are the systematic cyclic code of the generator, x^(11+i) reduced modulo it,
      each extended by a parity bit; the last row is the generator's own bit pattern. */
  lemma RowsFromGenerator()
    ensures Row(0) >> 1 == GENERATOR_POLYNOMIAL ^ 0x800
    ensures forall i | 0 <= i < 11 :: Row(i + 1) >> 1 == TimesX(Row(i) >> 1)
    ensures forall i | 0 <= i < 12 :: Pop(Row(i)) % 2 == 1
    ensures Row(11) == GENERATOR_POLYNOMIAL
  {
    forall i | 0 <= i < 11
      ensures Row(i + 1) >> 1 == TimesX(Row(i) >> 1)
    {
      NextRow(i);
    }
  }

  lemma NextRow(i: nat)
    requires i < 11
    ensures Row(i + 1) >> 1 == TimesX(Row(i) >> 1)
  {}

  lemma LightRows()
    ensures forall i | 0 <= i < 12 :: Pop(Row(i)) >= 7
  {}

  lemma LightColumns()
    ensures forall i | 0 <= i < 12 :: Pop(Column(i)) >= 7
  {}

  lemma LightRowPairs()
    ensures forall i, j | 0 <= i < j < 12 :: Pop(Row(i) ^ Row(j)) >= 6
  {}

  lemma LightColumnPairs()
    ensures forall i, j | 0 <= i < j < 12 :: Pop(Column(i) ^ Column(j)) >= 6
  {}

  lemma LightRowTriples()
    ensures forall i, j, k | 0 <= i < j < k < 12 :: Pop(Row(i) ^ Row(j) ^ Row(k)) >= 5
  {}

  lemma LightColumnTriples()
    ensures forall i, j, k | 0 <= i < j < k < 12 :: Pop(Column(i) ^ Column(j) ^ Column(k)) >= 5
  {}

  lemma RowsLeaveBits()
    ensures forall i | 0 <= i < 12 :: Pop(Row(i)) <= 9
  {}

  lemma RowPairsLeaveBits()
    ensures forall i, j | 0 <= i < j < 12 :: Pop(Row(i) ^ Row(j)) <= 10
  {}

  lemma RowTriplesLeaveBits()
    ensures forall i, j, k | 0 <= i < j < k < 12 :: Pop(Row(i) ^ Row(j) ^ Row(k)) <= 11
  {}

  function Matrix(): (r: seq<Bits>)
    ensures Square(r)
  {
    seq(12, i requires 0 <= i < 12 => Unpack(Row(i)))
  }

  function Transpose(): (r: seq<Bits>)
    ensures Square(r)
  {
    seq(12, i requires 0 <= i < 12 => Unpack(Column(i)))
  }

  lemma UnpackWeight(x: bv12)
    ensures Weight(Unpack(x)) == Pop(x)
  {
    UnpackCount(x, 12);
    PopIsCount(x);
  }

  lemma SumOfTwo(x: bv12, y: bv12)
    ensures Weight(Xor(Unpack(x), Unpack(y))) == Pop(x ^ y)
  {
    UnpackXor(x, y);
    UnpackWeight(x ^ y);
  }

  lemma SumOfThree(x: bv12, y: bv12, z: bv12)
    ensures Weight(Xor(Xor(Unpack(x), Unpack(y)), Unpack(z))) == Pop(x ^ y ^ z)
  {
    UnpackXor(x, y);
    SumOfTwo(x ^ y, z);
  }

  lemma MatrixIsLight()
    ensures Light(Matrix())
  {
    LightRows();
    LightRowPairs();
    LightRowTriples();
    hide Row, Pop, Unpack, Weight, Xor;
    forall i | 0 <= i < 12 { UnpackWeight(Row(i)); }
    forall i, j | 0 <= i < j < 12 { SumOfTwo(Row(i), Row(j)); }
    forall i, j, k | 0 <= i < j < k < 12 { SumOfThree(Row(i), Row(j), Row(k)); }
  }

  lemma MatrixIsLoose()
    ensures Loose(Matrix())
  {
    RowsLeaveBits();
    RowPairsLeaveBits();
    RowTriplesLeaveBits();
    hide Row, Pop, Unpack, Weight, Xor;
    forall i | 0 <= i < 12 { UnpackWeight(Row(i)); }
    forall i, j | 0 <= i < j < 12 { SumOfTwo(Row(i), Row(j)); }
    forall i, j, k | 0 <= i < j < k < 12 { SumOfThree(Row(i), Row(j), Row(k)); }
  }

  lemma TransposeIsLight()
    ensures Light(Transpose())
  {
    LightColumns();
    LightColumnPairs();
    LightColumnTriples();
    hide Column, Pop, Unpack, Weight, Xor;
    forall i | 0 <= i < 12 { UnpackWeight(Column(i)); }
    forall i, j | 0 <= i < j < 12 { SumOfTwo(Column(i), Column(j)); }
    forall i, j, k | 0 <= i < j < k < 12 { SumOfThree(Column(i), Column(j), Column(k)); }
  }

  lemma ColumnsAreTransposed()
    ensures forall i, j | 0 <= i < 12 && 0 <= j < 12 :: On(Column(j), i) == On(Row(i), j)
  {}

  /** Rows overlap in an even number of places, except that each has odd weight. */
  lemma RowsAreOrthogonal()
    ensures forall i, j | 0 <= i < 12 && 0 <= j < 12 :: Pop(Row(i) & Row(j)) % 2 == 1 <==> i == j
  {}

  lemma OnAnd(x: bv12, y: bv12, i: nat)
    ensures On(x & y, i) == (On(x, i) && On(y, i))
  {
    hide Mask, Meet;
    MeetAnd(x, y, Mask(i));
  }

  lemma UnpackAnd(x: bv12, y: bv12)
    ensures Unpack(x & y) == And(Unpack(x), Unpack(y))
  {
    hide On;
    forall i | 0 <= i < 12 { OnAnd(x, y, i); }
  }

  lemma TransposeAcross(t: nat)
    requires t < 12
    ensures Across(Transpose(), t) == Unpack(Row(t))
  {
    ColumnsAreTransposed();
    hide On, Row, Column;
  }

  /** The transposed matrix is the inverse. */
  lemma TransposeInverts()
    ensures forall i | 0 <= i < 12 :: Image(Transpose(), Matrix()[i]) == Unit(i)
  {
    forall i, t | 0 <= i < 12 && 0 <= t < 12
      ensures Image(Transpose(), Matrix()[i])[t] == Unit(i)[t]
    {
      TransposeBit(i, t);
    }
  }

  lemma RowOverlap(i: nat, j: nat)
    requires i < 12 && j < 12
    ensures Weight(And(Unpack(Row(i)), Unpack(Row(j)))) % 2 == 1 <==> i == j
  {
    RowsAreOrthogonal();
    hide *;
    UnpackAnd(Row(i), Row(j));
    UnpackWeight(Row(i) & Row(j));
  }

  lemma TransposeBit(i: nat, t: nat)
    requires i < 12 && t < 12
    ensures Image(Transpose(), Unpack(Row(i)))[t] <==> i == t
  {
    RowOverlap(i, t);
    TransposeAcross(t);
    hide Row, Unpack, Transpose, Combine, Count, Across, And;
    var u := Unpack(Row(i));
    CombineBit(Transpose(), u, t, |u|);
  }
}
