/** How the set bits of Golay codewords are scattered: every codeword but zero has at least four
    separate runs, because all but the lowest bit of the code may be rotated. */
module GolayRuns {
  import opened BitWords
  import opened LinearMap
  import opened GolayMatrix
  import opened Golay

  // ---------------------------------------------------------------- rotation

  /** All bits but the lowest move up by one, the highest coming in below. */
  function Rotate(c: Bits): (r: Bits)
    requires |c| == 24
    ensures |r| == 24
  {
    seq(24, i requires 0 <= i < 24 => if i == 0 then c[0] else if i == 1 then c[23] else c[i - 1])
  }

  ghost predicate IsCodeword(c: Bits)
    requires |c| == 24
  {
    c == Encode(ExtractInfo(c))
  }

  lemma InfoOfCodeword(info: Bits)
    requires |info| == 12
    ensures IsCodeword(Encode(info)) && ExtractInfo(Encode(info)) == info
  {
    hide Parity;
  }

  lemma CodewordXor(a: Bits, b: Bits)
    requires |a| == |b| == 24 && IsCodeword(a) && IsCodeword(b)
    ensures IsCodeword(Xor(a, b))
  {
    EncodeXor(ExtractInfo(a), ExtractInfo(b));
    hide Encode;
    assert ExtractInfo(Xor(a, b)) == Xor(ExtractInfo(a), ExtractInfo(b));
  }

  lemma RotateXor(a: Bits, b: Bits)
    requires |a| == |b| == 24
    ensures Rotate(Xor(a, b)) == Xor(Rotate(a), Rotate(b))
  {}

  lemma {:induction false} CombineUnit(lines: seq<Bits>, i: nat, n: nat)
    requires Square(lines) && i < 12 && n <= 12
    ensures Combine(lines, Unit(i), n) == if i < n then lines[i] else Zeros(12)
  {
    if n > 0 {
      CombineUnit(lines, i, n - 1);
    }
  }

  lemma ParityUnit(i: nat)
    requires i < 12
    ensures Parity(Unit(i)) == Unpack(Row(i))
  {
    CombineUnit(Matrix(), i, |Unit(i)|);
    hide Combine, Row, Unpack;
  }

  /** The parity bits after a rotation that brings `top` in. */
  function Rotated(x: bv12, top: bool): bv12 {
    (x & 1) | (if top then 2 else 0) | ((x & 0x7FE) << 1)
  }

  function Sum(b: bool, x: bv12, c: bool, y: bv12): bv12 {
    if b then if c then x ^ y else x else if c then y else 0
  }

  /** Rotation takes each row to the next one, plus the first row if a bit leaves at the top:
      multiplication by x modulo the generator once more. */
  lemma RowRotates(i: nat)
    requires i < 12
    ensures Rotated(Row(i), i == 11) == Sum(On(Row(i), 11), Row(0), i < 11, Row(i + 1))
  {}

  lemma RotatedOn(x: bv12, top: bool, t: nat)
    requires t < 12
    ensures On(Rotated(x, top), t) == if t == 0 then On(x, 0) else if t == 1 then top else On(x, t - 1)
  {}

  /** The information word a rotated basis word has. */
  function NextInfo(i: nat): (r: Bits)
    requires i < 12
    ensures |r| == 12
  {
    Xor(Selected(On(Row(i), 11), Unit(0)), if i < 11 then Unit(i + 1) else Zeros(12))
  }

  lemma ParityNext(i: nat)
    requires i < 12
    ensures Parity(NextInfo(i))
            == Xor(Selected(On(Row(i), 11), Unpack(Row(0))), if i < 11 then Unpack(Row(i + 1)) else Zeros(12))
  {
    ImageZero(Matrix());
    hide Row, Unpack, Combine, Matrix, On;
    ImageXor(Matrix(), Selected(On(Row(i), 11), Unit(0)), if i < 11 then Unit(i + 1) else Zeros(12));
    ParityUnit(0);
    if i < 11 { ParityUnit(i + 1); }
  }

  lemma UnpackZero()
    ensures Unpack(0) == Zeros(12)
  {}

  lemma UnpackSum(b: bool, x: bv12, c: bool, y: bv12)
    ensures Unpack(Sum(b, x, c, y)) == Xor(Selected(b, Unpack(x)), if c then Unpack(y) else Zeros(12))
  {
    UnpackZero();
    UnpackXor(x, y);
    hide Unpack;
  }

  lemma ParityRotated(i: nat)
    requires i < 12
    ensures Parity(NextInfo(i)) == Unpack(Rotated(Row(i), i == 11))
  {
    hide *;
    RowRotates(i);
    ParityNext(i);
    UnpackSum(On(Row(i), 11), Row(0), i < 11, Row(i + 1));
  }

  lemma UnitRotates(i: nat)
    requires i < 12
    ensures IsCodeword(Rotate(Encode(Unit(i))))
  {
    hide Row, On, Parity, Rotated;
    ParityUnit(i);
    ParityRotated(i);
    var r := Rotate(Encode(Unit(i)));
    assert ExtractInfo(r) == NextInfo(i);
    forall t | 0 <= t < 12
      ensures r[t] == Unpack(Rotated(Row(i), i == 11))[t]
    {
      RotatedOn(Row(i), i == 11, t);
    }
    hide Unpack, Rotate, NextInfo;
    assert r == r[..12] + r[12..];
    assert r[..12] == Unpack(Rotated(Row(i), i == 11));
  }

  lemma {:induction false} LowRotates(u: Bits, n: nat)
    requires |u| == 12 && n <= 12
    ensures IsCodeword(Rotate(Encode(Low(u, n))))
    decreases n
  {
    hide Encode, Rotate, IsCodeword, Low, Xor;
    LowStep(u, n);
    if n == 0 {
      ZeroRotates();
    } else {
      LowRotates(u, n - 1);
      var last := Selected(u[n - 1], Unit(n - 1));
      if u[n - 1] { UnitRotates(n - 1); } else { ZeroRotates(); }
      EncodeXor(Low(u, n - 1), last);
      RotateXor(Encode(Low(u, n - 1)), Encode(last));
      CodewordXor(Rotate(Encode(Low(u, n - 1))), Rotate(Encode(last)));
    }
  }

  lemma ZeroRotates()
    ensures IsCodeword(Rotate(Encode(Zeros(12))))
  {
    EncodeZero();
    hide Encode;
    assert Rotate(Zeros(24)) == Zeros(24) && ExtractInfo(Zeros(24)) == Zeros(12);
  }

  /** The code is cyclic but for its lowest bit: a rotated codeword is a codeword. */
  lemma RotatedIsCodeword(info: Bits)
    requires |info| == 12
    ensures IsCodeword(Rotate(Encode(info)))
  {
    LowRotates(info, |info|);
    assert Low(info, |info|) == info;
  }

  // ---------------------------------------------------------------- runs of codewords

  /** The bits at which a word differs from its rotation are ends of runs. */
  lemma {:induction false} EndsOfRuns(c: Bits, n: nat)
    requires |c| == 24 && 2 <= n <= 24
    ensures Count(Xor(c, Rotate(c)), n) + One(c[n - 1]) <= 2 * Runs(c, n) + One(c[23])
  {
    var d := Xor(c, Rotate(c));
    if n == 2 {
      assert !d[0];
      assert Count(d, 1) == 0;
      assert Runs(c, 1) == One(c[0]);
    } else {
      EndsOfRuns(c, n - 1);
      assert d[n - 1] == (c[n - 1] != c[n - 2]);
    }
  }

  lemma RotationTurns(c: Bits, k: nat)
    requires |c| == 24 && c == Rotate(c) && 1 <= k < 24
    ensures c[k] == c[1]
  {
    if k > 1 {
      RotationTurns(c, k - 1);
      assert Rotate(c)[k] == c[k - 1];
    }
  }

  /** A word that is its own rotation is all set or all clear above its lowest bit. */
  lemma SelfRotated(c: Bits)
    requires |c| == 24 && c == Rotate(c) && Weight(c) >= 8
    ensures Weight(c) >= 23
  {
    forall k | 1 <= k < 24
      ensures c[k] == c[1]
    {
      RotationTurns(c, k);
    }
    if c[1] {
      CountRun(c, 1, 24);
    } else {
      CountWithin(c, 24, {0});
    }
  }

  /** Every codeword but zero has price 12 or more: it has at least 8 set bits in 4 runs, or 12. */
  lemma CodewordPrice(info: Bits)
    requires |info| == 12 && info != Zeros(12)
    ensures Price(Encode(info), 24) >= 12
  {
    var c := Encode(info);
    var r := Rotate(c);
    hide Encode, Rotate, Runs;
    MinimumWeight(info);
    RotatedIsCodeword(info);
    InfoOfCodeword(info);
    if ExtractInfo(r) == info {
      SelfRotated(c);
    } else {
      MinimumDistance(info, ExtractInfo(r));
      EndsOfRuns(c, 24);
    }
  }

  /** Whatever is near one codeword is off another at a price. */
  lemma FarFromOthers(received: Bits, output: Bits, info: Bits)
    requires |received| == 24 && |output| == |info| == 12 && output != info
    ensures Price(Xor(received, Encode(info)), 24) + 2 * Distance(received, Encode(output)) >= 12
  {
    var apart, rest := Xor(Encode(output), Encode(info)), Xor(received, Encode(output));
    assert |Xor(output, info)| == 12 && |apart| == |rest| == 24;
    hide Encode, Price, Xor;
    XorZero(output, info);
    EncodeXor(output, info);
    CodewordPrice(Xor(output, info));
    PriceXor(apart, rest, 24);
    XorAcross(received, Encode(output), Encode(info));
  }

  /** A mode that corrects `n` errors takes a pattern for another word's only at price `12 - 2n` or
      more. */
  lemma NeverFooled(table: Table, received: Bits, mode: Mode, info: Bits)
    requires Correct(table) && |received| == 24 && |info| == 12
    requires Price(Xor(received, Encode(info)), 24) <= 11 - 2 * mode.Power()
    ensures var (result, output) := Decode(table, received, mode);
            result.flag != Detected ==> output == info
  {
    hide Decode, Price, Encode, Distance, Xor, Correct;
    var (result, output) := Decode(table, received, mode);
    ReportedDistance(table, received, mode);
    if output != info {
      FarFromOthers(received, output, info);
    }
  }
}
