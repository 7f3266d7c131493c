/** What the whole chain - Golay, interleaving, threefold repetition, majority voting -
    promises about symbols received in error. */
module AleChannel {
  import opened BitWords
  import opened Golay
  import GolayRuns
  import opened WordCodec
  import opened SymbolCodec

  function Transmit(word: Bits): (r: seq<nat>)
    requires |word| == 24
    ensures |r| == 49
  {
    Frame(InterleaveWord(EncodeWord(word)))
  }

  function Receive(table: Table, symbols: seq<nat>, mode: Mode): (r: (DecodeResult, Bits))
    requires Correct(table) && |symbols| == 49
    ensures |r.1| == 24
  {
    DeinterleaveWord(table, Voted(symbols), mode)
  }

  /** Bits of one Golay half misread after voting. */
  function Misread(word: Bits, received: seq<nat>, c: nat): nat
    requires |word| == 24 && |received| == 49 && c < 2
  {
    ChannelErrors(InterleaveWord(EncodeWord(word)), Voted(received), c)
  }

  /** A run of misread bits in either half takes a wrong symbol for each, and one more. */
  lemma MisreadPrice(word: Bits, received: seq<nat>, c: nat)
    requires |word| == 24 && |received| == 49 && c < 2
    ensures Price(Errors(InterleaveWord(EncodeWord(word)), received, c), 24) <= |Wrong(Transmit(word), received)|
  {
    var tx := InterleaveWord(EncodeWord(word));
    var wrong := Wrong(Transmit(word), received);
    MisreadsCost(tx, received, c, 24);
    assert Transmit(word) == Frame(tx);
    hide Voted, Frame, Wrong, Errors, Price;
    Subset(Touched(wrong, c, Errors(tx, received, c), 24), wrong);
  }

  /** So any `n` wrong symbols spoil at most `n - 1` bits of either half. */
  lemma MisreadBound(word: Bits, received: seq<nat>, c: nat)
    requires |word| == 24 && |received| == 49 && c < 2
    ensures Misread(word, received, c) > 0 ==> Misread(word, received, c) < |Wrong(Transmit(word), received)|
  {
    var errors := Errors(InterleaveWord(EncodeWord(word)), received, c);
    assert Misread(word, received, c) == Weight(errors);
    MisreadPrice(word, received, c);
    PriceOfSome(errors, 24);
    hide Misread, Errors, Wrong, Transmit;
  }

  /** A mode that corrects `n` bit errors carries a word through any `n + 1` wrong symbols. */
  lemma CorrectsSymbols(table: Table, word: Bits, received: seq<nat>, mode: Mode)
    requires Correct(table) && |word| == 24 && |received| == 49
    requires |Wrong(Transmit(word), received)| <= mode.Power() + 1
    ensures var (result, output) := Receive(table, received, mode);
            output == word && result.flag != Detected
  {
    hide Wrong, Transmit, Voted, ChannelErrors, DeinterleaveWord, Correct;
    MisreadBound(word, received, 0);
    MisreadBound(word, received, 1);
    WordCorrected(table, word, Voted(received), mode);
  }

  /** The decoder's inputs are off by just what was misread. */
  lemma HalfErrors(word: Bits, received: seq<nat>)
    requires |word| == 24 && |received| == 49
    ensures var tx := InterleaveWord(EncodeWord(word));
            && Xor(Channel(Voted(received), 0), Encode(word[12..])) == Errors(tx, received, 0)
            && Xor(FlipCheckBits(Channel(Voted(received), 1)), Encode(word[..12])) == Errors(tx, received, 1)
  {
    var a, b := Encode(word[12..]), Encode(word[..12]);
    hide Encode, Voted, Interleaved, Channel, FlipCheckBits, Xor;
    InterleaverInverse(a, FlipCheckBits(b), Zeros(49));
    FlipAcross(Channel(Voted(received), 1), b);
  }

  /** Up to `11 - 2n` wrong symbols, a mode that corrects `n` bit errors never passes off a
      wrong word as good. */
  lemma NeverFooled(table: Table, word: Bits, received: seq<nat>, mode: Mode)
    requires Correct(table) && |word| == 24 && |received| == 49
    requires |Wrong(Transmit(word), received)| <= 11 - 2 * mode.Power()
    ensures var (result, output) := Receive(table, received, mode);
            result.flag != Detected ==> output == word
  {
    hide Wrong, Transmit, Voted, Correct, Decode, Encode, Channel, FlipCheckBits, InterleaveWord, EncodeWord, Errors;
    hide Price, Xor;
    MisreadPrice(word, received, 0);
    MisreadPrice(word, received, 1);
    HalfErrors(word, received);
    GolayRuns.NeverFooled(table, Channel(Voted(received), 0), mode, word[12..]);
    GolayRuns.NeverFooled(table, FlipCheckBits(Channel(Voted(received), 1)), mode, word[..12]);
    assert word == word[..12] + word[12..];
  }

  // ---------------------------------------------------------------- bursts

  predicate Burst(wrong: set<nat>, first: nat, length: nat) {
    forall k | k in wrong :: first <= k < first + length
  }

  /** The bit of the channel's codeword, if any, carried by the two transmitted bits from
      `start` on. */
  function SpoiltAt(c: nat, start: nat): int {
    23 - (if start % 2 == c && start < 48 then start / 2 else (start + 1) % 49 / 2)
  }

  /** The only codeword bits a burst of at most 18 symbols can spoil on a channel: none up to 16
      symbols, one for 17, three for 18. */
  function Spoilt(c: nat, first: nat, length: nat): (r: set<int>)
    requires length <= 18
  {
    var start := 3 * first % 49;
    if length <= 16 then {}
    else if length == 17 then {SpoiltAt(c, start)}
    else {SpoiltAt(c, start), SpoiltAt(c, (start + 2) % 49), SpoiltAt(c, (start + 4) % 49)}
  }

  /** How many bits of either half a burst of that length can spoil. */
  function BurstCost(length: nat): nat {
    if length <= 16 then 0 else if length == 17 then 1 else 3
  }

  lemma SpoiltSize(c: nat, first: nat, length: nat)
    requires length <= 18
    ensures |Spoilt(c, first, length)| <= BurstCost(length)
  {
    hide SpoiltAt;
  }

  lemma NearStart(c: nat, j: nat, start: nat, d: nat)
    requires c < 2 && j < 24 && start < 49 && d < 2
    requires start + d == 2 * j + c || start + d == 2 * j + c + 49
    ensures 23 - j == SpoiltAt(c, start)
  {}

  lemma NearLater(c: nat, j: nat, start: nat, even: nat, d: nat)
    requires c < 2 && j < 24 && start < 49 && d < 2 && even <= 4
    requires start + even + d == 2 * j + c || start + even + d == 2 * j + c + 49
    ensures 23 - j == SpoiltAt(c, (start + even) % 49)
  {
    hide SpoiltAt;
    if start + even < 49 {
      assert (start + even) % 49 == start + even;
      NearStart(c, j, start + even, d);
    } else {
      assert (start + even) % 49 == start + even - 49;
      NearStart(c, j, start + even - 49, d);
    }
  }

  /** How far behind the burst's start the first of two copies inside it lies. */
  lemma GapIsSmall(bit: nat, p: nat, q: nat, first: nat, length: nat)
    requires p < q && first <= (bit + 49 * p) / 3 && (bit + 49 * q) / 3 < first + length
    ensures 0 <= bit + 49 * p - 3 * first <= 3 * length - 50
  {
    assert bit + 49 * q < 3 * (first + length);
    assert bit + 49 * p >= 3 * first;
  }

  /** The burst's start within its copy of the word. */
  lemma WithinCopy(bit: nat, p: nat, first: nat, d: nat)
    requires bit < 48 && d <= 4 && d == bit + 49 * p - 3 * first
    ensures var start := 3 * first % 49;
            start + d == bit || start + d == bit + 49
  {
    var turns, start := 3 * first / 49, 3 * first % 49;
    assert start + d == bit + 49 * (p - turns);
    assert p == turns || p == turns + 1;
  }

  /** Two copies of a bit fall into one short burst only near its ends. */
  lemma CopiesInBurst(c: nat, j: nat, p: nat, q: nat, first: nat, length: nat)
    requires c < 2 && j < 24 && p < q < 3 && length <= 18
    requires first <= Carrier(c, j, p) && Carrier(c, j, q) < first + length
    ensures 23 - j in Spoilt(c, first, length)
  {
    hide SpoiltAt;
    GapIsSmall(2 * j + c, p, q, first, length);
    var d := 2 * j + c + 49 * p - 3 * first;
    WithinCopy(2 * j + c, p, first, d);
    hide Carrier;
    var start := 3 * first % 49;
    if d < 2 {
      NearLater(c, j, start, 0, d);
    } else if d < 4 {
      NearLater(c, j, start, 2, d - 2);
    } else {
      NearLater(c, j, start, 4, 0);
    }
  }

  lemma BurstBound(word: Bits, received: seq<nat>, c: nat, first: nat, length: nat)
    requires |word| == 24 && |received| == 49 && c < 2 && length <= 18
    requires Burst(Wrong(Transmit(word), received), first, length)
    ensures Misread(word, received, c) <= BurstCost(length)
  {
    var tx := InterleaveWord(EncodeWord(word));
    var errors := Errors(tx, received, c);
    assert Misread(word, received, c) == Weight(errors);
    hide Spoilt, Errors, Voted, Misread, Frame, Count;
    forall i | 0 <= i < 24 && errors[i]
      ensures i in Spoilt(c, first, length)
    {
      ErrorAt(tx, received, c, i);
      var p, q := MisreadNeedsTwo(tx, received, c, 23 - i);
      CopiesInBurst(c, 23 - i, p, q, first, length);
    }
    CountWithin(errors, 24, Spoilt(c, first, length));
    SpoiltSize(c, first, length);
  }

  /** Longest burst a mode corrects wherever it falls. */
  function LongestBurst(mode: Mode): nat {
    match mode
    case Mode0_7 => 16
    case Mode1_6 => 17
    case Mode2_5 => 17
    case Mode3_4 => 18
  }

  /** A single burst of up to that length is corrected: 16 symbols by voting alone, 17 by
      correcting one error, 18 by correcting three. */
  lemma CorrectsBursts(table: Table, word: Bits, received: seq<nat>, mode: Mode, first: nat, length: nat)
    requires Correct(table) && |word| == 24 && |received| == 49
    requires length <= LongestBurst(mode) && Burst(Wrong(Transmit(word), received), first, length)
    ensures var (result, output) := Receive(table, received, mode);
            output == word && result.flag != Detected
  {
    hide Wrong, Transmit, Voted, ChannelErrors, DeinterleaveWord, Correct;
    BurstBound(word, received, 0, first, length);
    BurstBound(word, received, 1, first, length);
    WordCorrected(table, word, Voted(received), mode);
  }

  // ---------------------------------------------------------------- tightness

  /** The symbol that begins with a copy of bit `2j`; it goes on with bits `2j + 1` and `2j + 2`. */
  function Starting(j: nat): nat {
    (2 * j + 49 * (j % 3)) / 3
  }

  /** The frame with the symbols of these places inverted. */
  function Spoil(symbols: seq<nat>, places: set<nat>): (r: seq<nat>)
    requires |symbols| == 49 && forall k | 0 <= k < 49 :: symbols[k] < 8
    ensures |r| == 49
  {
    seq(49, k requires 0 <= k < 49 => if IsSpoilt(places, k) then 7 - symbols[k] else symbols[k])
  }

  predicate IsSpoilt(places: set<nat>, k: nat) {
    exists j | j in places :: k == Starting(j)
  }

  lemma InvertedBit(s: nat, lane: nat)
    requires s < 8 && lane < 3
    ensures SymbolBit(7 - s, lane) == !SymbolBit(s, lane)
  {}

  lemma FrameIsSmall(tx: Bits)
    requires |tx| == 49
    ensures forall k | 0 <= k < 49 :: Frame(tx)[k] < 8
  {}

  /** Copies of a bit lie in symbols starting at its own place, and if it is the first half's, at the
      place before. */
  lemma CarrierStarts(c: nat, j: nat, copy: nat, i: nat)
    requires c < 2 && j < 24 && copy < 3 && i < 24
    ensures Carrier(c, j, copy) == Starting(i) <==> copy == i % 3 && (i == j || (c == 0 && i + 1 == j))
  {
    var m := i % 3;
    assert 2 * i + 49 * m == 3 * (16 * m + (2 * i + m) / 3);
  }

  lemma StartingDiffers(i: nat, j: nat)
    requires i < 24 && j < 24 && Starting(i) == Starting(j)
    ensures i == j
  {
    CarrierStarts(1, i, i % 3, i);
    CarrierStarts(1, i, i % 3, j);
  }

  lemma {:induction false} SpoiltSet(places: set<nat>)
    requires forall j | j in places :: j < 24
    ensures var spoilt := set j | j in places :: Starting(j); |spoilt| == |places|
  {
    if places != {} {
      var j :| j in places;
      var rest := places - {j};
      SpoiltSet(rest);
      var spoilt, less := set k | k in places :: Starting(k), set k | k in rest :: Starting(k);
      if Starting(j) in less {
        var i :| i in rest && Starting(i) == Starting(j);
        StartingDiffers(i, j);
      }
      assert spoilt == less + {Starting(j)};
    }
  }

  lemma StartsInFrame(j: nat)
    requires j < 24
    ensures Starting(j) < 49
  {}

  lemma SpoilSize(symbols: seq<nat>, places: set<nat>)
    requires |symbols| == 49 && (forall k | 0 <= k < 49 :: symbols[k] < 8) && forall j | j in places :: j < 24
    ensures |Wrong(symbols, Spoil(symbols, places))| == |places|
  {
    forall j | j in places { StartsInFrame(j); }
    hide Starting;
    SpoiltSet(places);
    assert Wrong(symbols, Spoil(symbols, places)) == set j | j in places :: Starting(j);
  }

  lemma SpoiltCopy(tx: Bits, places: set<nat>, c: nat, j: nat, copy: nat)
    requires |tx| == 49 && c < 2 && j < 24 && copy < 3
    requires forall k | 0 <= k < 49 :: Frame(tx)[k] < 8
    ensures StreamBit(Spoil(Frame(tx), places), 2 * j + c + 49 * copy) != tx[2 * j + c]
            <==> IsSpoilt(places, Carrier(c, j, copy))
  {
    var p := 2 * j + c + 49 * copy;
    CopyOf(2 * j + c, copy);
    StreamRepeats(tx, p);
    InvertedBit(Frame(tx)[p / 3], p % 3);
    hide Frame, SymbolBit, IsSpoilt;
  }

  /** Which copies of a bit are spoilt. */
  lemma SpoiltCarrier(places: set<nat>, c: nat, j: nat, copy: nat)
    requires c < 2 && j < 24 && copy < 3 && forall i | i in places :: i < 24
    ensures IsSpoilt(places, Carrier(c, j, copy))
            <==> (j in places && copy == j % 3) || (c == 0 && j > 0 && j - 1 in places && copy == (j - 1) % 3)
  {
    hide Carrier, Starting;
    forall i | i in places { CarrierStarts(c, j, copy, i); }
    CarrierStarts(c, j, copy, j);
    if j > 0 { CarrierStarts(c, j, copy, j - 1); }
  }

  lemma OutvotedBy(symbols: seq<nat>, bit: nat, v: bool)
    requires |symbols| == 49 && bit < 48
    ensures Voted(symbols)[bit] != v
            <==> One(StreamBit(symbols, bit) != v) + One(StreamBit(symbols, bit + 49) != v)
                 + One(StreamBit(symbols, bit + 98) != v) >= 2
  {
    hide StreamBit;
  }

  /** A bit of the first half is misread just where its own place and the one before are spoilt, and
      no bit of the second half is. */
  lemma SpoiltVote(tx: Bits, places: set<nat>, c: nat, j: nat)
    requires |tx| == 49 && c < 2 && j < 24 && forall i | i in places :: i < 24
    requires forall k | 0 <= k < 49 :: Frame(tx)[k] < 8
    ensures Voted(Spoil(Frame(tx), places))[2 * j + c] != tx[2 * j + c]
            <==> c == 0 && j > 0 && j in places && j - 1 in places
  {
    hide Frame, StreamBit, Spoil, Voted, IsSpoilt, Carrier;
    SpoiltCopy(tx, places, c, j, 0);
    SpoiltCopy(tx, places, c, j, 1);
    SpoiltCopy(tx, places, c, j, 2);
    SpoiltCarrier(places, c, j, 0);
    SpoiltCarrier(places, c, j, 1);
    SpoiltCarrier(places, c, j, 2);
    OutvotedBy(Spoil(Frame(tx), places), 2 * j + c, tx[2 * j + c]);
  }

  /** The errors this makes. */
  lemma SpoiltErrors(tx: Bits, places: set<nat>)
    requires |tx| == 49 && forall i | i in places :: i < 24
    requires forall k | 0 <= k < 49 :: Frame(tx)[k] < 8
    ensures var received := Spoil(Frame(tx), places);
            && (forall i | 0 <= i < 24 ::
                  Errors(tx, received, 0)[i] <==> i < 23 && 23 - i in places && 22 - i in places)
            && Errors(tx, received, 1) == Zeros(24)
  {
    hide Frame, Spoil, Voted, Errors;
    forall i | 0 <= i < 24
      ensures Errors(tx, Spoil(Frame(tx), places), 0)[i] <==> i < 23 && 23 - i in places && 22 - i in places
      ensures !Errors(tx, Spoil(Frame(tx), places), 1)[i]
    {
      ErrorAt(tx, Spoil(Frame(tx), places), 0, i);
      ErrorAt(tx, Spoil(Frame(tx), places), 1, i);
      SpoiltVote(tx, places, 0, 23 - i);
      SpoiltVote(tx, places, 1, 23 - i);
    }
  }

  function First(n: nat): (places: set<nat>)
    ensures |places| == n && forall j: nat :: j in places <==> j < n
  {
    if n == 0 then {} else First(n - 1) + {n - 1}
  }

  lemma ChainErrors(tx: Bits, n: nat)
    requires |tx| == 49 && 2 <= n <= 5
    requires forall k | 0 <= k < 49 :: Frame(tx)[k] < 8
    ensures ChannelErrors(tx, Voted(Spoil(Frame(tx), First(n))), 0) >= n - 1
  {
    var places := First(n);
    var errors := Errors(tx, Spoil(Frame(tx), places), 0);
    assert ChannelErrors(tx, Voted(Spoil(Frame(tx), places)), 0) == Weight(errors);
    hide Voted, Spoil, Frame, Errors, ChannelErrors;
    SpoiltErrors(tx, places);
    CountRun(errors, 24 - n, 23);
  }

  /** A frame in which half the receiver's input is more than `n` but no more than `7 - n`
      bits off is refused. */
  lemma Refused(table: Table, word: Bits, received: seq<nat>, mode: Mode)
    requires Correct(table) && |word| == 24 && |received| == 49
    requires mode.Power() < Misread(word, received, 0) <= 7 - mode.Power()
    ensures Receive(table, received, mode).0.flag == Detected
  {
    hide Voted, EncodeWord, InterleaveWord, ChannelErrors, Correct, Encode, Decode, FlipCheckBits, Channel, Distance;
    DecoderInputs(word, Voted(received));
    DetectsRest(table, Channel(Voted(received), 0), mode, word[12..]);
  }

  /** The bound on wrong symbols is tight: for every word and mode, some `n + 2` wrong symbols
      are too many. */
  lemma BoundIsTight(table: Table, word: Bits, mode: Mode) returns (received: seq<nat>)
    requires Correct(table) && |word| == 24
    ensures |received| == 49 && |Wrong(Transmit(word), received)| == mode.Power() + 2
    ensures Receive(table, received, mode).0.flag == Detected
  {
    hide Frame, Spoil, Voted, Correct, Wrong, ChannelErrors, Receive;
    var tx := InterleaveWord(EncodeWord(word));
    var n := mode.Power() + 2;
    FrameIsSmall(tx);
    var places := First(n);
    received := Spoil(Frame(tx), places);
    SpoilSize(Frame(tx), places);
    ChainErrors(tx, n);
    MisreadBound(word, received, 0);
    Refused(table, word, received, mode);
  }

  // ---------------------------------------------------------------- tightness for bursts

  /** The frame with the first `n` symbols inverted, and the `n` from symbol 16 on. */
  function SpoilEnds(symbols: seq<nat>, n: nat): (r: seq<nat>)
    requires |symbols| == 49 && forall k | 0 <= k < 49 :: symbols[k] < 8
    ensures |r| == 49
  {
    seq(49, k requires 0 <= k < 49 => if k < n || 16 <= k < 16 + n then 7 - symbols[k] else symbols[k])
  }

  lemma TwoCopiesDecide(symbols: seq<nat>, bit: nat, p: nat, q: nat, v: bool)
    requires |symbols| == 49 && bit < 48 && p < 3 && q < 3 && p != q
    requires StreamBit(symbols, bit + 49 * p) == StreamBit(symbols, bit + 49 * q) == v
    ensures Voted(symbols)[bit] == v
  {
    hide StreamBit;
  }

  lemma SpoiltEnd(tx: Bits, n: nat, p: nat)
    requires |tx| == 49 && n <= 3 && p < 147 && (p / 3 < n || 16 <= p / 3 < 16 + n)
    requires forall k | 0 <= k < 49 :: Frame(tx)[k] < 8
    ensures StreamBit(SpoilEnds(Frame(tx), n), p) == !tx[p % 49]
  {
    StreamRepeats(tx, p);
    InvertedBit(Frame(tx)[p / 3], p % 3);
    hide Frame, SymbolBit;
  }

  /** The first two copies of the first bits lie in the two spoilt ends. */
  lemma EndMisreads(tx: Bits, n: nat, bit: nat)
    requires |tx| == 49 && 1 <= n <= 3 && bit + 2 <= 3 * n
    requires forall k | 0 <= k < 49 :: Frame(tx)[k] < 8
    ensures Voted(SpoilEnds(Frame(tx), n))[bit] != tx[bit]
  {
    hide Frame, StreamBit, SpoilEnds, Voted;
    SpoiltEnd(tx, n, bit);
    SpoiltEnd(tx, n, bit + 49);
    CopyOf(bit, 1);
    TwoCopiesDecide(SpoilEnds(Frame(tx), n), bit, 0, 1, !tx[bit]);
  }

  /** Spoiling `n` symbols at either end costs the first half 1, 3 or 4 bits. */
  lemma EndErrors(tx: Bits, n: nat)
    requires |tx| == 49 && 1 <= n <= 3
    requires forall k | 0 <= k < 49 :: Frame(tx)[k] < 8
    ensures ChannelErrors(tx, Voted(SpoilEnds(Frame(tx), n)), 0) >= 3 * n / 2
  {
    var received := SpoilEnds(Frame(tx), n);
    var errors := Errors(tx, received, 0);
    assert ChannelErrors(tx, Voted(received), 0) == Weight(errors);
    hide Voted, SpoilEnds, Frame, Errors, ChannelErrors;
    forall i | 24 - 3 * n / 2 <= i < 24
      ensures errors[i]
    {
      EndMisreads(tx, n, 2 * (23 - i));
      ErrorAt(tx, received, 0, i);
    }
    CountRun(errors, 24 - 3 * n / 2, 24);
  }

  /** Only the first four bits of the half have two copies there. */
  lemma EndsCarry(j: nat, p: nat, q: nat)
    requires j < 24 && p < q < 3
    requires Carrier(0, j, p) < 3 || 16 <= Carrier(0, j, p) < 19
    requires Carrier(0, j, q) < 3 || 16 <= Carrier(0, j, q) < 19
    ensures j < 4
  {}

  lemma EndErrorAt(tx: Bits, received: seq<nat>, i: nat)
    requires |tx| == 49 && |received| == 49 && i < 24 && Errors(tx, received, 0)[i]
    requires forall k | k in Wrong(Frame(tx), received) :: k < 3 || 16 <= k < 19
    ensures i in {20, 21, 22, 23}
  {
    hide Errors, Voted, Frame, Carrier, Wrong;
    ErrorAt(tx, received, 0, i);
    var p, q := MisreadNeedsTwo(tx, received, 0, 23 - i);
    EndsCarry(23 - i, p, q);
  }

  lemma EndsCostLittle(word: Bits, received: seq<nat>)
    requires |word| == 24 && |received| == 49
    requires forall k | k in Wrong(Transmit(word), received) :: k < 3 || 16 <= k < 19
    ensures Misread(word, received, 0) <= 4
  {
    var tx := InterleaveWord(EncodeWord(word));
    var errors := Errors(tx, received, 0);
    assert Misread(word, received, 0) == Weight(errors);
    assert Transmit(word) == Frame(tx);
    hide Errors, Misread, Frame, Wrong, Transmit, Count;
    forall i | 0 <= i < 24 && errors[i]
      ensures i in {20, 21, 22, 23}
    {
      EndErrorAt(tx, received, i);
    }
    CountWithin(errors, 24, {20, 21, 22, 23});
  }

  /** The bounds on bursts are tight: for every word and mode, some burst one symbol longer is
      refused - 17, 18 or, in the default mode, 19 symbols. */
  lemma BurstBoundIsTight(table: Table, word: Bits, mode: Mode) returns (received: seq<nat>)
    requires Correct(table) && |word| == 24
    ensures |received| == 49 && Burst(Wrong(Transmit(word), received), 0, LongestBurst(mode) + 1)
    ensures Receive(table, received, mode).0.flag == Detected
  {
    hide Frame, Voted, Correct, ChannelErrors, Receive;
    var tx := InterleaveWord(EncodeWord(word));
    var n := LongestBurst(mode) - 15;
    FrameIsSmall(tx);
    received := SpoilEnds(Frame(tx), n);
    EndErrors(tx, n);
    EndsCostLittle(word, received);
    Refused(table, word, received, mode);
  }
}
