/** Extended Golay (24,12) encoder and syndrome decoder. A codeword keeps its information
    word in bits 12..23 and its parity in bits 0..11. */
module Golay {
  import opened Basics
  import opened BitWords
  import opened LinearMap
  import opened GolayMatrix

  function Parity(info: Bits): (r: Bits)
    requires |info| == 12
    ensures |r| == 12
  {
    Image(Matrix(), info)
  }

  function Encode(info: Bits): (r: Bits)
    requires |info| == 12
    ensures |r| == 24
  {
    Parity(info) + info
  }

  function ExtractInfo(codeword: Bits): (r: Bits)
    requires |codeword| == 24
    ensures |r| == 12
  {
    codeword[12..]
  }

  function ExtractParity(codeword: Bits): (r: Bits)
    requires |codeword| == 24
    ensures |r| == 12
  {
    codeword[..12]
  }

  function Syndrome(codeword: Bits): (r: Bits)
    requires |codeword| == 24
    ensures |r| == 12
  {
    Xor(ExtractParity(codeword), Parity(ExtractInfo(codeword)))
  }

  // ---------------------------------------------------------------- distance

  lemma MinimumWeight(info: Bits)
    requires |info| == 12 && info != Zeros(12)
    ensures Weight(Encode(info)) >= 8
  {
    MatrixIsLight();
    TransposeIsLight();
    TransposeInverts();
    hide Matrix, Transpose, Image, Light;
    Heavy(Matrix(), Transpose(), info);
    CountSplit(Parity(info), info, |info|);
  }

  lemma EncodeXor(a: Bits, b: Bits)
    requires |a| == |b| == 12
    ensures Encode(Xor(a, b)) == Xor(Encode(a), Encode(b))
  {
    ImageXor(Matrix(), a, b);
    hide Matrix, Image;
  }

  /** Distinct information words are sent as codewords at least 8 bits apart. */
  lemma MinimumDistance(a: Bits, b: Bits)
    requires |a| == |b| == 12 && a != b
    ensures Distance(Encode(a), Encode(b)) >= 8
  {
    var d := Xor(a, b);
    XorZero(a, b);
    EncodeXor(a, b);
    MinimumWeight(d);
  }

  lemma SyndromeXor(a: Bits, b: Bits)
    requires |a| == |b| == 24
    ensures Syndrome(Xor(a, b)) == Xor(Syndrome(a), Syndrome(b))
  {
    assert ExtractInfo(Xor(a, b)) == Xor(ExtractInfo(a), ExtractInfo(b));
    ImageXor(Matrix(), ExtractInfo(a), ExtractInfo(b));
    hide Matrix, Image;
  }

  lemma ZeroSyndrome(c: Bits)
    requires |c| == 24
    ensures Syndrome(c) == Zeros(12) <==> c == Encode(ExtractInfo(c))
  {
    hide Parity;
    XorZero(ExtractParity(c), Parity(ExtractInfo(c)));
    assert c == ExtractParity(c) + ExtractInfo(c);
  }

  /** A received word and an error pattern have the same syndrome exactly when removing
      the pattern leaves a codeword. */
  lemma SameSyndrome(received: Bits, error: Bits)
    requires |received| == |error| == 24
    ensures Syndrome(received) == Syndrome(error)
            <==> Xor(received, error) == Encode(ExtractInfo(Xor(received, error)))
  {
    SyndromeXor(received, error);
    ZeroSyndrome(Xor(received, error));
    XorZero(Syndrome(received), Syndrome(error));
  }

  lemma EncodeZero()
    ensures Encode(Zeros(12)) == Zeros(24)
  {
    ImageZero(Matrix());
    hide Matrix, Image;
  }

  /** No pattern of fewer than 8 errors turns one codeword into another. */
  lemma LightSyndrome(error: Bits)
    requires |error| == 24 && Weight(error) < 8 && Syndrome(error) == Zeros(12)
    ensures error == Zeros(24)
  {
    ZeroSyndrome(error);
    EncodeZero();
    hide Encode, Syndrome;
    if ExtractInfo(error) != Zeros(12) {
      MinimumWeight(ExtractInfo(error));
    }
  }

  /** No two error patterns of joint weight under 8 share a syndrome. */
  lemma SyndromeSeparates(a: Bits, b: Bits)
    requires |a| == |b| == 24 && Syndrome(a) == Syndrome(b) && Weight(a) + Weight(b) < 8
    ensures a == b
  {
    SyndromeXor(a, b);
    XorZero(Syndrome(a), Syndrome(b));
    CountXor(a, b, 24);
    XorZero(a, b);
    hide Syndrome;
    LightSyndrome(Xor(a, b));
  }

  // ---------------------------------------------------------------- decoding

  /** Correction power of a mode: up to that many errors are corrected, and up to
      `7 - Power()` are detected. */
  datatype Mode = Mode0_7 | Mode1_6 | Mode2_5 | Mode3_4 {
    function Power(): nat {
      match this
      case Mode0_7 => 0
      case Mode1_6 => 1
      case Mode2_5 => 2
      case Mode3_4 => 3
    }
  }

  datatype Flag = Ok | Corrected | Detected

  datatype DecodeResult = DecodeResult(flag: Flag, errorsCorrected: nat)

  /** Syndrome table: `None` stands for the sentinel of an uncorrectable syndrome. */
  type Table = seq<Option<Bits>>

  /** Every entry is the one pattern of at most three errors with that syndrome, or `None`
      when there is no such pattern. */
  ghost predicate Correct(table: Table) {
    && |table| == Power(12)
    && (forall k | 0 <= k < |table| && table[k].Some? ::
          |table[k].value| == 24 && Weight(table[k].value) <= 3 && Slot(table[k].value) == k)
    && (forall e: Bits | |e| == 24 && Weight(e) <= 3 ::
          Slot(e) < |table| && table[Slot(e)] == Some(e))
  }

  /** Table index of an error pattern. */
  function Slot(e: Bits): nat
    requires |e| == 24
  {
    Value(Syndrome(e))
  }

  function Decode(table: Table, codeword: Bits, mode: Mode): (r: (DecodeResult, Bits))
    requires Correct(table) && |codeword| == 24
    ensures |r.1| == 12
  {
    var syndrome := Syndrome(codeword);
    if syndrome == Zeros(12) then
      (DecodeResult(Ok, 0), ExtractInfo(codeword))
    else
      ValueRange(syndrome);
      match table[Value(syndrome)]
      case None => (DecodeResult(Detected, 0), ExtractInfo(codeword))
      case Some(error) =>
        if Weight(error) > mode.Power() then
          (DecodeResult(Detected, 0), ExtractInfo(codeword))
        else
          (DecodeResult(Corrected, Weight(error)), ExtractInfo(Xor(codeword, error)))
  }

  /** Up to three errors are seen for what they are; the mode decides what becomes of them. */
  lemma FewErrors(table: Table, received: Bits, mode: Mode, info: Bits)
    requires Correct(table) && |received| == 24 && |info| == 12
    requires Distance(received, Encode(info)) <= 3
    ensures var d := Distance(received, Encode(info));
            Decode(table, received, mode) ==
            if d == 0 then (DecodeResult(Ok, 0), info)
            else if d <= mode.Power() then (DecodeResult(Corrected, d), info)
            else (DecodeResult(Detected, 0), ExtractInfo(received))
  {
    var error := Xor(received, Encode(info));
    XorTwice(received, Encode(info));
    assert ExtractInfo(Encode(info)) == info;
    SameSyndrome(received, error);
    WeightZero(error);
    ZeroSyndrome(received);
    XorZero(received, Encode(info));
    hide Syndrome, Encode, Distance, Weight, Xor;
    if Syndrome(received) == Zeros(12) {
      LightSyndrome(error);
    }
  }

  /** Removing a table pattern with the received syndrome lands on a codeword. */
  lemma RemovePattern(received: Bits, error: Bits)
    requires |received| == |error| == 24 && Syndrome(received) == Syndrome(error)
    ensures Distance(received, Encode(ExtractInfo(Xor(received, error)))) == Weight(error)
  {
    SameSyndrome(received, error);
    XorTwice(received, error);
  }

  lemma NonzeroPattern(error: Bits)
    requires |error| == 24 && Syndrome(error) != Zeros(12)
    ensures Weight(error) >= 1
  {
    SyndromeOfZero();
    WeightZero(error);
  }

  /** Whatever word the decoder reports, its codeword lies at the distance it reports. */
  lemma ReportedDistance(table: Table, received: Bits, mode: Mode)
    requires Correct(table) && |received| == 24
    ensures var (result, output) := Decode(table, received, mode);
            var d := Distance(received, Encode(output));
            && (result.flag == Ok ==> d == 0 == result.errorsCorrected)
            && (result.flag == Corrected ==> 1 <= d == result.errorsCorrected <= mode.Power())
            && (result.flag == Detected ==> output == ExtractInfo(received) && result.errorsCorrected == 0)
  {
    ZeroSyndrome(received);
    SelfDistance(received);
    ValueRange(Syndrome(received));
    hide Encode, Distance, Syndrome, Weight, Xor, Power;
    if Syndrome(received) != Zeros(12) && table[Value(Syndrome(received))].Some? {
      var error := table[Value(Syndrome(received))].value;
      ValueInjective(Syndrome(error), Syndrome(received));
      RemovePattern(received, error);
      NonzeroPattern(error);
    }
  }

  lemma SyndromeOfZero()
    ensures Syndrome(Zeros(24)) == Zeros(12)
  {
    EncodeZero();
    ZeroSyndrome(Zeros(24));
    hide Encode, Syndrome;
  }

  /** Decoding is nearest-codeword decoding within the mode's power: `info` is reported with
      no error exactly when its codeword was received, and as corrected exactly when its
      codeword is 1 to `Power()` bits away, with that number of errors. */
  lemma DecodesNearest(table: Table, received: Bits, mode: Mode, info: Bits)
    requires Correct(table) && |received| == 24 && |info| == 12
    ensures var d := Distance(received, Encode(info));
            var (result, output) := Decode(table, received, mode);
            && (d == 0 <==> result.flag == Ok && output == info)
            && (1 <= d <= mode.Power() <==> result.flag == Corrected && output == info)
            && (result.flag == Corrected && output == info ==> result.errorsCorrected == d)
  {
    if Distance(received, Encode(info)) <= 3 {
      FewErrors(table, received, mode, info);
    }
    ReportedDistance(table, received, mode);
    hide Decode, Distance;
  }

  /** More errors than the mode corrects, but no more than it detects, are always detected,
      and the information field is then handed on as received. */
  lemma DetectsRest(table: Table, received: Bits, mode: Mode, info: Bits)
    requires Correct(table) && |received| == 24 && |info| == 12
    requires mode.Power() < Distance(received, Encode(info)) <= 7 - mode.Power()
    ensures Decode(table, received, mode) == (DecodeResult(Detected, 0), ExtractInfo(received))
  {
    var (result, output) := Decode(table, received, mode);
    ReportedDistance(table, received, mode);
    DistanceSymmetric(Encode(info), received);
    Triangle(Encode(info), received, Encode(output));
    hide Decode, Distance;
    if output != info {
      MinimumDistance(info, output);
    }
  }
}
