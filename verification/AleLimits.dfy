/** The bound up to which no wrong word passes is the best there is: one more wrong symbol, in the
    right places, and any word is taken for another. */
module AleLimits {
  import opened BitWords
  import opened LinearMap
  import opened GolayMatrix
  import opened Golay
  import opened GolayRuns
  import opened WordCodec
  import opened SymbolCodec
  import opened AleChannel

  // ---------------------------------------------------------------- a codeword in four runs

  /** The information word whose codeword has bits 0 to 4, 10, 13 and 22 set. */
  function FourRuns(): (info: Bits)
    ensures |info| == 12
  {
    Xor(Unit(1), Unit(10))
  }

  predicate InFourRuns(i: nat) {
    i < 5 || i == 10 || i == 13 || i == 22
  }

  lemma ParityOfFourRuns()
    ensures Parity(FourRuns()) == Unpack(0x41F)
  {
    assert Row(1) ^ Row(10) == 0x41F;
    UnpackXor(Row(1), Row(10));
    hide Row, Unpack, Combine, Matrix;
    ImageXor(Matrix(), Unit(1), Unit(10));
    ParityUnit(1);
    ParityUnit(10);
  }

  lemma UnpackFourRuns()
    ensures forall i | 0 <= i < 12 :: Unpack(0x41F)[i] <==> i < 5 || i == 10
  {}

  lemma FourRunsAre(i: nat)
    requires i < 24
    ensures Encode(FourRuns())[i] <==> InFourRuns(i)
  {
    ParityOfFourRuns();
    UnpackFourRuns();
    hide Parity, Unpack;
  }

  // ---------------------------------------------------------------- symbols that spoil most of it

  /** Bits of that codeword a mode makes up for. */
  predicate IsSpared(mode: Mode, i: nat) {
    (i == 22 && mode.Power() >= 1) || (i == 13 && mode.Power() >= 2) || (i == 10 && mode.Power() >= 3)
  }

  function Spared(mode: Mode): (r: Bits)
    ensures |r| == 24
  {
    seq(24, i requires 0 <= i < 24 => IsSpared(mode, i))
  }

  /** The places to spoil for all the others: each run's, and the one before it. */
  function Places(mode: Mode): (places: set<nat>)
    ensures |places| == 12 - 2 * mode.Power() && forall j | j in places :: j < 24
  {
    match mode
    case Mode0_7 => {18, 19, 20, 21, 22, 23, 12, 13, 9, 10, 0, 1}
    case Mode1_6 => {18, 19, 20, 21, 22, 23, 12, 13, 9, 10}
    case Mode2_5 => {18, 19, 20, 21, 22, 23, 12, 13}
    case Mode3_4 => {18, 19, 20, 21, 22, 23}
  }

  lemma PlacesSpoil(mode: Mode, i: nat)
    requires i < 24
    ensures (i < 23 && 23 - i in Places(mode) && 22 - i in Places(mode))
            <==> InFourRuns(i) && !IsSpared(mode, i)
  {}

  lemma SparedWeight(mode: Mode)
    ensures Weight(Spared(mode)) == mode.Power()
  {
    var a0, n := Zeros(24), mode.Power();
    WeightZero(a0);
    var a1 := a0[22 := true];
    var a2 := a1[13 := true];
    var a3 := a2[10 := true];
    CountSet(a0, 22, 24);
    CountSet(a1, 13, 24);
    CountSet(a2, 10, 24);
    assert Spared(mode) == if n == 0 then a0 else if n == 1 then a1 else if n == 2 then a2 else a3;
    hide Count, Spared;
  }

  // ---------------------------------------------------------------- the wrong word passes

  lemma SumIs(a: Bits, e: Bits, c: Bits, spared: Bits)
    requires |a| == |e| == |c| == |spared| == 24
    requires forall i | 0 <= i < 24 :: Xor(a, e)[i] <==> c[i] && !spared[i]
    requires forall i | 0 <= i < 24 && spared[i] :: c[i]
    ensures Xor(a, Xor(e, c)) == spared
  {
    forall i | 0 <= i < 24
      ensures Xor(a, Xor(e, c))[i] == spared[i]
    {
      assert Xor(a, e)[i] == (a[i] != e[i]);
    }
  }

  /** What is off one codeword by that of the other word, but for what the mode makes up for, is that
      far from their sum. */
  lemma NearTheOther(a: Bits, info: Bits, mode: Mode)
    requires |a| == 24 && |info| == 12
    requires forall i | 0 <= i < 24 :: Xor(a, Encode(info))[i] <==> InFourRuns(i) && !IsSpared(mode, i)
    ensures Distance(a, Encode(Xor(info, FourRuns()))) == mode.Power()
  {
    EncodeXor(info, FourRuns());
    SparedWeight(mode);
    forall i | 0 <= i < 24 { FourRunsAre(i); }
    forall i | 0 <= i < 24
      ensures Spared(mode)[i] == IsSpared(mode, i)
      ensures IsSpared(mode, i) ==> InFourRuns(i)
    {}
    hide Encode, FourRuns, InFourRuns, IsSpared, Weight, Spared, Xor;
    SumIs(a, Encode(info), Encode(FourRuns()), Spared(mode));
  }

  lemma OtherInfo(info: Bits)
    requires |info| == 12
    ensures |Xor(info, FourRuns())| == 12 && Xor(info, FourRuns()) != info
  {
    assert Xor(info, FourRuns())[1] == !info[1];
  }

  /** The bound below which no wrong word passes is tight: for every word and mode, some `12 - 2n`
      wrong symbols have another word reported as good. */
  lemma FooledBeyond(table: Table, word: Bits, mode: Mode) returns (received: seq<nat>)
    requires Correct(table) && |word| == 24
    ensures |received| == 49 && |Wrong(Transmit(word), received)| == 12 - 2 * mode.Power()
    ensures var (result, output) := Receive(table, received, mode);
            result.flag != Detected && output != word
  {
    hide Frame, Spoil, Voted, Correct, Wrong, Errors, Encode, Decode, Distance, Xor;
    hide FlipCheckBits, Channel, Places, IsSpared, InFourRuns;
    var tx := InterleaveWord(EncodeWord(word));
    FrameIsSmall(tx);
    received := Spoil(Frame(tx), Places(mode));
    SpoilSize(Frame(tx), Places(mode));
    SpoiltErrors(tx, Places(mode));
    HalfErrors(word, received);
    hide InterleaveWord, EncodeWord;
    forall i | 0 <= i < 24 { PlacesSpoil(mode, i); }
    var a, b := Channel(Voted(received), 0), FlipCheckBits(Channel(Voted(received), 1));
    NearTheOther(a, word[12..], mode);
    OtherInfo(word[12..]);
    DecodesNearest(table, a, mode, Xor(word[12..], FourRuns()));
    XorZero(b, Encode(word[..12]));
    SelfDistance(b);
    DecodesNearest(table, b, mode, word[..12]);
    var output := word[..12] + Xor(word[12..], FourRuns());
    assert Receive(table, received, mode).1 == output;
    assert output[12..] != word[12..];
  }
}
