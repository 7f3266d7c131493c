/** Word-level FEC: two Golay codewords, the second with inverted check bits, interleaved
    into the 49-bit transmitted word. */
module WordCodec {
  import opened BitWords
  import opened LinearMap
  import opened GolayMatrix
  import opened Golay

  // ---------------------------------------------------------------- interleaver

  /** Bit `2k` is bit `23-k` of sequence A, bit `2k+1` is bit `23-k` of sequence B, bit 48 is clear. */
  function Interleaved(a: Bits, b: Bits): (r: Bits)
    requires |a| == |b| == 24
    ensures |r| == 49
  {
    seq(49, p requires 0 <= p < 49 =>
      if p == 48 then false else if p % 2 == 0 then a[23 - p / 2] else b[23 - p / 2])
  }

  /** The sequence on channel `c` (0 for A, 1 for B). */
  function Channel(t: Bits, c: nat): (r: Bits)
    requires |t| == 49 && c < 2
    ensures |r| == 24
  {
    seq(24, i requires 0 <= i < 24 => t[2 * (23 - i) + c])
  }

  method Interleave(a: Bits, b: Bits) returns (out: Bits)
    requires |a| == |b| == 24
    ensures out == Interleaved(a, b)
  {
    out := Zeros(49);
    for k := 0 to 12
      invariant |out| == 49
      invariant forall p | 0 <= p < 49 :: out[p] == (p < 2 * k && Interleaved(a, b)[p])
    {
      if a[23 - k] { out := out[2 * k := true]; }
      if b[23 - k] { out := out[2 * k + 1 := true]; }
    }
    for k := 12 to 24
      invariant |out| == 49
      invariant forall p | 0 <= p < 49 :: out[p] == (p < 2 * k && Interleaved(a, b)[p])
    {
      if a[23 - k] { out := out[2 * k := true]; }
      if b[23 - k] { out := out[2 * k + 1 := true]; }
    }
  }

  method Deinterleave(transmitted: Bits) returns (a: Bits, b: Bits)
    requires |transmitted| == 49
    ensures a == Channel(transmitted, 0) && b == Channel(transmitted, 1)
  {
    a, b := Zeros(24), Zeros(24);
    for k := 0 to 12
      invariant |a| == |b| == 24
      invariant forall i | 0 <= i < 24 :: a[i] == (23 - i < k && Channel(transmitted, 0)[i])
      invariant forall i | 0 <= i < 24 :: b[i] == (23 - i < k && Channel(transmitted, 1)[i])
    {
      if transmitted[2 * k] { a := a[23 - k := true]; }
      if transmitted[2 * k + 1] { b := b[23 - k := true]; }
    }
    for k := 12 to 24
      invariant |a| == |b| == 24
      invariant forall i | 0 <= i < 24 :: a[i] == (23 - i < k && Channel(transmitted, 0)[i])
      invariant forall i | 0 <= i < 24 :: b[i] == (23 - i < k && Channel(transmitted, 1)[i])
    {
      if transmitted[2 * k] { a := a[23 - k := true]; }
      if transmitted[2 * k + 1] { b := b[23 - k := true]; }
    }
  }

  /** The two directions are inverse, but for the stuff bit, which receivers ignore. */
  lemma InterleaverInverse(a: Bits, b: Bits, t: Bits)
    requires |a| == |b| == 24 && |t| == 49
    ensures Channel(Interleaved(a, b), 0) == a && Channel(Interleaved(a, b), 1) == b
    ensures Interleaved(Channel(t, 0), Channel(t, 1)) == t[48 := false]
  {}

  // ---------------------------------------------------------------- codec

  datatype GolayCoded = GolayCoded(coderA: Bits, coderB: Bits)

  /** Invert the twelve check bits and leave the information bits. */
  function FlipCheckBits(codeword: Bits): (r: Bits)
    requires |codeword| == 24
    ensures |r| == 24
  {
    seq(24, i requires 0 <= i < 24 => if i < 12 then !codeword[i] else codeword[i])
  }

  // ---------------------------------------------------------------- what the inversion is for

  /** The twelve check bits, all set, and the information bits, all clear. */
  function CheckBits(): (r: Bits)
    ensures |r| == 24
  {
    seq(24, i => i < 12)
  }

  lemma InversionIs(codeword: Bits)
    requires |codeword| == 24
    ensures Xor(FlipCheckBits(codeword), codeword) == CheckBits()
  {}

  /** Coder B sends its codeword with every check bit inverted and every information bit as it is. */
  lemma CoderBIsInverted(word: Bits)
    requires |word| == 24
    ensures Xor(EncodeWord(word).coderB, Encode(word[..12])) == CheckBits()
    ensures EncodeWord(word).coderA == Encode(word[12..])
  {
    hide Encode;
    InversionIs(Encode(word[..12]));
    hide FlipCheckBits;
  }

  /** No codeword is fewer than 4 bits from the inverted check bits. */
  lemma CheckBitsAreFar(info: Bits)
    requires |info| == 12
    ensures Weight(Xor(CheckBits(), Encode(info))) >= 4
  {
    var sum := Xor(CheckBits(), Encode(info));
    MatrixIsLoose();
    hide Loose, Matrix, Image;
    ImageLeavesBits(Matrix(), info);
    assert sum == sum[..12] + info;
    CountSplit(sum[..12], info, 12);
    CountInverted(sum[..12], Parity(info), 12);
  }

  lemma FarFromCode(sent: Bits, info: Bits)
    requires |sent| == |info| == 12
    ensures Distance(Xor(CheckBits(), Encode(sent)), Encode(info)) >= 4
  {
    EncodeXor(sent, info);
    CheckBitsAreFar(Xor(sent, info));
    hide Encode, CheckBits;
    assert Xor(Xor(CheckBits(), Encode(sent)), Encode(info)) == Xor(CheckBits(), Xor(Encode(sent), Encode(info)));
  }

  /** The inversion keeps the two coders apart: what coder B sends is refused where coder A's word is
      expected, in every mode, and the other way round. */
  lemma CodersStayApart(table: Table, word: Bits, mode: Mode)
    requires Correct(table) && |word| == 24
    ensures Decode(table, EncodeWord(word).coderB, mode).0.flag == Detected
    ensures Decode(table, FlipCheckBits(EncodeWord(word).coderA), mode).0.flag == Detected
  {
    hide Encode, Decode, FlipCheckBits, CheckBits, Xor, Correct;
    CoderBIsInverted(word);
    InvertedIsRefused(table, word[..12], EncodeWord(word).coderB, mode);
    InversionIs(Encode(word[12..]));
    InvertedIsRefused(table, word[12..], FlipCheckBits(Encode(word[12..])), mode);
  }

  lemma InvertedIsRefused(table: Table, sent: Bits, received: Bits, mode: Mode)
    requires Correct(table) && |sent| == 12 && |received| == 24 && Xor(received, Encode(sent)) == CheckBits()
    ensures Decode(table, received, mode).0.flag == Detected
  {
    hide Decode, Encode, CheckBits, Correct, Distance;
    XorTwice(Encode(sent), received);
    assert Xor(CheckBits(), Encode(sent)) == received by {
      assert Xor(Xor(received, Encode(sent)), Encode(sent)) == received;
    }
    FarFromCode(sent, Decode(table, received, mode).1);
    ReportedDistance(table, received, mode);
  }

  // ---------------------------------------------------------------- words

  function EncodeWord(word: Bits): (r: GolayCoded)
    requires |word| == 24
    ensures |r.coderA| == |r.coderB| == 24
  {
    GolayCoded(Encode(word[12..]), FlipCheckBits(Encode(word[..12])))
  }

  function InterleaveWord(coded: GolayCoded): (r: Bits)
    requires |coded.coderA| == |coded.coderB| == 24
    ensures |r| == 49
  {
    Interleaved(coded.coderA, coded.coderB)
  }

  function Worst(a: DecodeResult, b: DecodeResult): DecodeResult {
    if a.flag == Detected || b.flag == Detected then
      DecodeResult(Detected, 0)
    else if a.flag == Corrected || b.flag == Corrected then
      DecodeResult(Corrected, a.errorsCorrected + b.errorsCorrected)
    else
      DecodeResult(Ok, 0)
  }

  function DeinterleaveWord(table: Table, transmitted: Bits, mode: Mode): (r: (DecodeResult, Bits))
    requires Correct(table) && |transmitted| == 49
    ensures |r.1| == 24
  {
    var (fecA, upper) := Decode(table, Channel(transmitted, 0), mode);
    var (fecB, lower) := Decode(table, FlipCheckBits(Channel(transmitted, 1)), mode);
    (Worst(fecA, fecB), lower + upper)
  }

  /** Number of bits in which a channel differs from what was sent. */
  function ChannelErrors(sent: Bits, received: Bits, c: nat): nat
    requires |sent| == |received| == 49 && c < 2
  {
    Distance(Channel(received, c), Channel(sent, c))
  }

  lemma FlipAcross(a: Bits, b: Bits)
    requires |a| == |b| == 24
    ensures Xor(FlipCheckBits(a), b) == Xor(a, FlipCheckBits(b))
  {}

  lemma FlipKeepsDistance(a: Bits, b: Bits)
    requires |a| == |b| == 24
    ensures FlipCheckBits(FlipCheckBits(a)) == a
    ensures Distance(FlipCheckBits(a), FlipCheckBits(b)) == Distance(a, b)
  {
    assert Xor(FlipCheckBits(a), FlipCheckBits(b)) == Xor(a, b);
  }

  /** The two decoder inputs are as far from the two codewords sent as the channels are. */
  lemma DecoderInputs(word: Bits, received: Bits)
    requires |word| == 24 && |received| == 49
    ensures var sent := InterleaveWord(EncodeWord(word));
            && Distance(Channel(received, 0), Encode(word[12..])) == ChannelErrors(sent, received, 0)
            && Distance(FlipCheckBits(Channel(received, 1)), Encode(word[..12])) == ChannelErrors(sent, received, 1)
  {
    var a, b := Encode(word[12..]), Encode(word[..12]);
    hide Encode, Distance;
    InterleaverInverse(a, FlipCheckBits(b), received);
    FlipKeepsDistance(Channel(received, 1), FlipCheckBits(b));
    FlipKeepsDistance(b, b);
  }

  /** As long as neither half suffers more errors than the mode corrects, the word comes
      back, and the reported count is the number of errors of both halves together. */
  lemma WordCorrected(table: Table, word: Bits, received: Bits, mode: Mode)
    requires Correct(table) && |word| == 24 && |received| == 49
    requires ChannelErrors(InterleaveWord(EncodeWord(word)), received, 0) <= mode.Power()
    requires ChannelErrors(InterleaveWord(EncodeWord(word)), received, 1) <= mode.Power()
    ensures var sent := InterleaveWord(EncodeWord(word));
            var n := ChannelErrors(sent, received, 0) + ChannelErrors(sent, received, 1);
            DeinterleaveWord(table, received, mode)
            == (DecodeResult(if n == 0 then Ok else Corrected, n), word)
  {
    hide Decode, Encode, Distance, Channel, FlipCheckBits, InterleaveWord, EncodeWord, ChannelErrors, Correct;
    DecoderInputs(word, received);
    FewErrors(table, Channel(received, 0), mode, word[12..]);
    FewErrors(table, FlipCheckBits(Channel(received, 1)), mode, word[..12]);
    assert word == word[..12] + word[12..];
  }

  /** Each half of the word is what its own errors make of it, whatever becomes of the other: corrected
      within the mode's power, and handed on as received from there up to what it detects. */
  lemma HalvesStandAlone(table: Table, word: Bits, received: Bits, mode: Mode)
    requires Correct(table) && |word| == 24 && |received| == 49
    ensures var sent := InterleaveWord(EncodeWord(word));
            var a, b := ChannelErrors(sent, received, 0), ChannelErrors(sent, received, 1);
            var output := DeinterleaveWord(table, received, mode).1;
            && (a <= mode.Power() ==> output[12..] == word[12..])
            && (mode.Power() < a <= 7 - mode.Power() ==> output[12..] == Channel(received, 0)[12..])
            && (b <= mode.Power() ==> output[..12] == word[..12])
            && (mode.Power() < b <= 7 - mode.Power() ==> output[..12] == Channel(received, 1)[12..])
  {
    DecoderInputs(word, received);
    SameInfo(Channel(received, 1));
    hide Decode, Encode, Distance, Channel, FlipCheckBits, InterleaveWord, EncodeWord, ChannelErrors, Correct;
    HalfStandsAlone(table, Channel(received, 0), mode, word[12..]);
    HalfStandsAlone(table, FlipCheckBits(Channel(received, 1)), mode, word[..12]);
  }

  lemma SameInfo(codeword: Bits)
    requires |codeword| == 24
    ensures FlipCheckBits(codeword)[12..] == codeword[12..]
  {}

  lemma HalfStandsAlone(table: Table, received: Bits, mode: Mode, info: Bits)
    requires Correct(table) && |received| == 24 && |info| == 12
    ensures var d, output := Distance(received, Encode(info)), Decode(table, received, mode).1;
            && (d <= mode.Power() ==> output == info)
            && (mode.Power() < d <= 7 - mode.Power() ==> output == received[12..])
  {
    hide Decode, Encode, Distance, Correct;
    var d := Distance(received, Encode(info));
    if d <= mode.Power() {
      FewErrors(table, received, mode, info);
    } else if d <= 7 - mode.Power() {
      DetectsRest(table, received, mode, info);
    }
  }

  /** As long as neither half suffers more errors than the mode detects, a wrong word is
      never passed off as good. */
  lemma WordNeverWrong(table: Table, word: Bits, received: Bits, mode: Mode)
    requires Correct(table) && |word| == 24 && |received| == 49
    requires ChannelErrors(InterleaveWord(EncodeWord(word)), received, 0) <= 7 - mode.Power()
    requires ChannelErrors(InterleaveWord(EncodeWord(word)), received, 1) <= 7 - mode.Power()
    ensures var (result, output) := DeinterleaveWord(table, received, mode);
            result.flag != Detected ==> output == word
  {
    hide Decode, Encode, Distance, Channel, FlipCheckBits, InterleaveWord, EncodeWord, ChannelErrors, Correct;
    DecoderInputs(word, received);
    var a, b := Channel(received, 0), FlipCheckBits(Channel(received, 1));
    HalfNeverWrong(table, a, mode, word[12..]);
    HalfNeverWrong(table, b, mode, word[..12]);
    assert word == word[..12] + word[12..];
  }

  lemma HalfNeverWrong(table: Table, received: Bits, mode: Mode, info: Bits)
    requires Correct(table) && |received| == 24 && |info| == 12
    requires Distance(received, Encode(info)) <= 7 - mode.Power()
    ensures var (result, output) := Decode(table, received, mode);
            result.flag != Detected ==> output == info
  {
    if mode.Power() < Distance(received, Encode(info)) {
      DetectsRest(table, received, mode, info);
    } else {
      FewErrors(table, received, mode, info);
    }
  }
}
