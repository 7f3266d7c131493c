/** 49 8-FSK symbols carrying the transmitted word three times over, and the 2/3 majority
    voter that reads them. */
module SymbolCodec {
  import opened BitWords
  import opened WordCodec

  // ---------------------------------------------------------------- encoder

  /** Bit `lane` of a symbol, counted from its most significant of three. */
  function SymbolBit(symbol: nat, lane: nat): bool
    requires lane < 3
  {
    if lane == 0 then symbol / 4 % 2 == 1 else if lane == 1 then symbol / 2 % 2 == 1 else symbol % 2 == 1
  }

  /** The on-air bit at stream position `p`. */
  function StreamBit(symbols: seq<nat>, p: nat): bool
    requires |symbols| == 49 && p < 147
  {
    SymbolBit(symbols[p / 3], p % 3)
  }

  function Symbol(tx: Bits, k: nat): nat
    requires |tx| == 49 && k < 49
  {
    4 * One(tx[3 * k % 49]) + 2 * One(tx[(3 * k + 1) % 49]) + One(tx[(3 * k + 2) % 49])
  }

  function Frame(tx: Bits): (r: seq<nat>)
    requires |tx| == 49
    ensures |r| == 49
  {
    seq(49, k requires 0 <= k < 49 => Symbol(tx, k))
  }

  method EncodeTx49(tx: Bits) returns (frame: array<nat>)
    requires |tx| == 49
    ensures frame[..] == Frame(tx)
  {
    frame := new nat[49];
    for k := 0 to 49
      invariant forall k' | 0 <= k' < k :: frame[k'] == Symbol(tx, k')
    {
      var sym := 0;
      if tx[3 * k % 49] { sym := sym + 4; }
      if tx[(3 * k + 1) % 49] { sym := sym + 2; }
      if tx[(3 * k + 2) % 49] { sym := sym + 1; }
      frame[k] := sym;
    }
  }

  /** The on-air stream is three copies of the word, end to end. */
  lemma StreamRepeats(tx: Bits, p: nat)
    requires |tx| == 49 && p < 147
    ensures StreamBit(Frame(tx), p) == tx[p % 49]
  {
    var k := p / 3;
    assert p == 3 * k + p % 3;
    LaneOf(tx[3 * k % 49], tx[(3 * k + 1) % 49], tx[(3 * k + 2) % 49]);
  }

  lemma LaneOf(a: bool, b: bool, c: bool)
    ensures var s := 4 * One(a) + 2 * One(b) + One(c);
            SymbolBit(s, 0) == a && SymbolBit(s, 1) == b && SymbolBit(s, 2) == c
  {}

  /** Bits, most significant first, as a number; and digits to base 8. */
  function Binary(bits: Bits): nat {
    if |bits| == 0 then 0 else 2 * Binary(bits[..|bits| - 1]) + One(bits[|bits| - 1])
  }

  function Octal(symbols: seq<nat>): nat {
    if |symbols| == 0 then 0 else 8 * Octal(symbols[..|symbols| - 1]) + symbols[|symbols| - 1]
  }

  lemma BinaryNext(bits: Bits, last: bool)
    ensures Binary(bits + [last]) == 2 * Binary(bits) + One(last)
  {
    assert (bits + [last])[..|bits|] == bits;
  }

  lemma OctalNext(symbols: seq<nat>, last: nat)
    ensures Octal(symbols + [last]) == 8 * Octal(symbols) + last
  {
    assert (symbols + [last])[..|symbols|] == symbols;
  }

  lemma NoDigits()
    ensures Octal([]) == 0 && Binary([]) == 0
  {}

  lemma ThreeTimes(tx: Bits, p: nat)
    requires |tx| == 49 && p < 147
    ensures (tx + tx + tx)[p] == tx[p % 49]
  {}

  lemma ThreeMoreBits(tx: Bits, k: nat)
    requires |tx| == 49 && k < 49
    ensures var stream := tx + tx + tx;
            && Binary(stream[..3 * k + 3]) == 8 * Binary(stream[..3 * k]) + Symbol(tx, k)
  {
    var stream, p := tx + tx + tx, 3 * k;
    ThreeTimes(tx, p);
    ThreeTimes(tx, p + 1);
    ThreeTimes(tx, p + 2);
    hide Binary;
    assert stream[..p + 1] == stream[..p] + [stream[p]];
    assert stream[..p + 2] == stream[..p + 1] + [stream[p + 1]];
    assert stream[..p + 3] == stream[..p + 2] + [stream[p + 2]];
    BinaryNext(stream[..p], stream[p]);
    BinaryNext(stream[..p + 1], stream[p + 1]);
    BinaryNext(stream[..p + 2], stream[p + 2]);
  }

  /** The symbols are the octal digits of the word sent three times over: the first bit of each symbol
      is its most significant. */
  lemma {:induction false} SymbolsAreDigits(tx: Bits, n: nat)
    requires |tx| == 49 && n <= 49
    ensures Octal(Frame(tx)[..n]) == Binary((tx + tx + tx)[..3 * n])
  {
    hide Octal, Binary, Symbol;
    NoDigits();
    if n > 0 {
      SymbolsAreDigits(tx, n - 1);
      ThreeMoreBits(tx, n - 1);
      assert Frame(tx)[..n] == Frame(tx)[..n - 1] + [Symbol(tx, n - 1)];
      OctalNext(Frame(tx)[..n - 1], Symbol(tx, n - 1));
    }
  }

  // ---------------------------------------------------------------- majority voter

  function Ones(symbols: seq<nat>, bit: nat): nat
    requires |symbols| == 49 && bit < 49
  {
    One(StreamBit(symbols, bit)) + One(StreamBit(symbols, bit + 49)) + One(StreamBit(symbols, bit + 98))
  }

  /** The voted word: bits 0..47 by majority, the stuff bit left clear. */
  function Voted(symbols: seq<nat>): (r: Bits)
    requires |symbols| == 49
    ensures |r| == 49
  {
    seq(49, bit requires 0 <= bit < 49 => bit < 48 && Ones(symbols, bit) >= 2)
  }

  function Unanimous(symbols: seq<nat>): (r: Bits)
    requires |symbols| == 49
    ensures |r| == 48
  {
    seq(48, bit requires 0 <= bit < 48 => Ones(symbols, bit) == 0 || Ones(symbols, bit) == 3)
  }

  method Vote(symbols: seq<nat>) returns (tx: Bits, unanimousVotes: nat)
    requires |symbols| == 49
    ensures tx == Voted(symbols)
    ensures unanimousVotes == Weight(Unanimous(symbols))
  {
    hide StreamBit;
    tx, unanimousVotes := Zeros(49), 0;
    for bit := 0 to 48
      invariant |tx| == 49
      invariant forall b | 0 <= b < 49 :: tx[b] == (b < bit && Ones(symbols, b) >= 2)
      invariant unanimousVotes == Count(Unanimous(symbols), bit)
    {
      var ones := 0;
      for copy := 0 to 3
        invariant ones == (if copy > 0 then One(StreamBit(symbols, bit)) else 0)
                       + (if copy > 1 then One(StreamBit(symbols, bit + 49)) else 0)
                       + (if copy > 2 then One(StreamBit(symbols, bit + 98)) else 0)
      {
        var p := bit + copy * 49;
        if StreamBit(symbols, p) { ones := ones + 1; }
      }
      assert ones == Ones(symbols, bit);
      if ones == 0 || ones == 3 {
        unanimousVotes := unanimousVotes + 1;
      }
      if ones * 2 > 3 {
        tx := tx[bit := true];
      }
    }
  }

  /** A clean frame votes to the word sent, all 48 votes unanimous. */
  lemma CleanVote(tx: Bits)
    requires |tx| == 49
    ensures Voted(Frame(tx)) == tx[48 := false]
    ensures Weight(Unanimous(Frame(tx))) == 48
  {
    hide Frame, StreamBit;
    forall bit | 0 <= bit < 49 { CleanOnes(tx, bit); }
    hide Ones;
    AllSet(Unanimous(Frame(tx)), 48);
  }

  lemma CleanOnes(tx: Bits, bit: nat)
    requires |tx| == 49 && bit < 49
    ensures Ones(Frame(tx), bit) == 3 * One(tx[bit])
  {
    hide Frame, StreamBit;
    StreamRepeats(tx, bit);
    StreamRepeats(tx, bit + 49);
    StreamRepeats(tx, bit + 98);
  }

  lemma {:induction false} AllSet(a: Bits, n: nat)
    requires n <= |a| && forall i | 0 <= i < n :: a[i]
    ensures Count(a, n) == n
  {
    if n > 0 {
      AllSet(a, n - 1);
    }
  }

  /** A vote is unanimous where the three copies agree, rightly or not. */
  lemma UnanimousIs(symbols: seq<nat>, bit: nat)
    requires |symbols| == 49 && bit < 48
    ensures Unanimous(symbols)[bit]
            <==> StreamBit(symbols, bit) == StreamBit(symbols, bit + 49) == StreamBit(symbols, bit + 98)
  {
    hide StreamBit;
  }

  // ---------------------------------------------------------------- wrong symbols

  /** The positions at which the received symbols differ from those sent. */
  function Wrong(sent: seq<nat>, received: seq<nat>): (r: set<nat>)
    requires |sent| == |received| == 49
  {
    set k: nat | k < 49 && received[k] != sent[k]
  }

  /** The symbol carrying copy `copy` of the channel's `j`-th bit. */
  function Carrier(c: nat, j: nat, copy: nat): nat {
    (2 * j + c + 49 * copy) / 3
  }

  lemma MisreadCopy(tx: Bits, received: seq<nat>, c: nat, j: nat, copy: nat)
    requires |tx| == 49 && |received| == 49 && c < 2 && j < 24 && copy < 3
    requires StreamBit(received, 2 * j + c + 49 * copy) != tx[2 * j + c]
    ensures Carrier(c, j, copy) in Wrong(Frame(tx), received)
  {
    var p := 2 * j + c + 49 * copy;
    CopyOf(2 * j + c, copy);
    StreamRepeats(tx, p);
    hide Frame;
  }

  lemma CopyOf(bit: nat, copy: nat)
    requires bit < 49
    ensures (bit + 49 * copy) % 49 == bit
  {}

  /** The bit in lane `lane` of symbol `k`. */
  function BitIn(k: nat, lane: nat): int {
    (3 * k + lane) % 49
  }

  function InLane(wrong: set<nat>, lane: nat): set<int> {
    set k | k in wrong :: BitIn(k, lane)
  }

  /** The bits that have a copy in one of these symbols. */
  function CarriedBy(wrong: set<nat>): set<int> {
    InLane(wrong, 0) + InLane(wrong, 1) + InLane(wrong, 2)
  }

  lemma {:induction false} LaneSize(wrong: set<nat>, lane: nat)
    ensures |InLane(wrong, lane)| <= |wrong|
  {
    hide BitIn;
    if wrong != {} {
      var k :| k in wrong;
      LaneSize(wrong - {k}, lane);
      assert InLane(wrong, lane) == InLane(wrong - {k}, lane) + {BitIn(k, lane)};
    }
  }

  lemma CarriedSize(wrong: set<nat>)
    ensures |CarriedBy(wrong)| <= 3 * |wrong|
  {
    LaneSize(wrong, 0);
    LaneSize(wrong, 1);
    LaneSize(wrong, 2);
    hide InLane;
  }

  lemma AgreesOutside(tx: Bits, received: seq<nat>, bit: nat, copy: nat)
    requires |tx| == 49 && |received| == 49 && bit < 48 && copy < 3 && bit !in CarriedBy(Wrong(Frame(tx), received))
    ensures StreamBit(received, bit + 49 * copy) == tx[bit]
  {
    var p := bit + 49 * copy;
    CopyOf(bit, copy);
    StreamRepeats(tx, p);
    assert BitIn(p / 3, p % 3) == bit;
    assert p / 3 !in Wrong(Frame(tx), received);
    hide Frame;
  }

  /** Each wrong symbol costs at most three unanimous votes. */
  lemma VotesLost(tx: Bits, received: seq<nat>)
    requires |tx| == 49 && |received| == 49
    ensures Weight(Unanimous(received)) + 3 * |Wrong(Frame(tx), received)| >= 48
  {
    var wrong := Wrong(Frame(tx), received);
    hide Frame, StreamBit, Wrong, CarriedBy, Unanimous;
    forall bit | 0 <= bit < 48 && !Unanimous(received)[bit]
      ensures bit in CarriedBy(wrong)
    {
      UnanimousIs(received, bit);
      if bit !in CarriedBy(wrong) {
        AgreesOutside(tx, received, bit, 0);
        AgreesOutside(tx, received, bit, 1);
        AgreesOutside(tx, received, bit, 2);
      }
    }
    CountOutside(Unanimous(received), 48, CarriedBy(wrong));
    CarriedSize(wrong);
  }

  /** A bit is misread only if two of its three carriers are wrong. */
  lemma MisreadNeedsTwo(tx: Bits, received: seq<nat>, c: nat, j: nat) returns (p: nat, q: nat)
    requires |tx| == 49 && |received| == 49 && c < 2 && j < 24
    requires Voted(received)[2 * j + c] != tx[2 * j + c]
    ensures p < q < 3
    ensures Carrier(c, j, p) in Wrong(Frame(tx), received) && Carrier(c, j, q) in Wrong(Frame(tx), received)
  {
    hide Frame, StreamBit, Wrong, Carrier;
    var bit := 2 * j + c;
    p := if StreamBit(received, bit) == tx[bit] then 1 else 0;
    q := if StreamBit(received, bit + 98) == tx[bit] then 1 else 2;
    MisreadCopy(tx, received, c, j, p);
    MisreadCopy(tx, received, c, j, q);
  }

  /** A symbol carries bits of one channel for at most two neighbouring positions, and only
      one of the three copies of a bit can share its symbol with the following position. */
  lemma CarriersOverlapOnce(c: nat, j: nat, p: nat, q: nat, j1: nat, p1: nat, j2: nat, q1: nat)
    requires c < 2 && j < j1 < 24 && j < j2 < 24 && p < 3 && q < 3 && p1 < 3 && q1 < 3
    requires Carrier(c, j, p) == Carrier(c, j1, p1) && Carrier(c, j, q) == Carrier(c, j2, q1)
    ensures p == q
  {
    SharedCarrier(c, j, p, j1, p1);
    SharedCarrier(c, j, q, j2, q1);
  }

  lemma SharedCarrier(c: nat, j: nat, p: nat, j1: nat, p1: nat)
    requires c < 2 && j < j1 < 24 && p < 3 && p1 < 3
    requires Carrier(c, j, p) == Carrier(c, j1, p1)
    ensures p == p1 && j1 == j + 1 && (2 * j + c + 49 * p) % 3 == 0
  {}

  /** The symbol carrying copy `copy` of bit `i` of the channel's codeword. */
  function CodeCarrier(c: nat, i: nat, copy: nat): nat
    requires i < 24
  {
    Carrier(c, 23 - i, copy)
  }

  /** Wrong carriers of the errors among the codeword's lowest `n` bits. */
  function Touched(wrong: set<nat>, c: nat, errors: Bits, n: nat): (r: set<nat>)
    requires n <= |errors| == 24
  {
    set k | k in wrong && exists i, copy | 0 <= i < n && errors[i] && 0 <= copy < 3 :: k == CodeCarrier(c, i, copy)
  }

  /** The bits of a channel's codeword that voting got wrong. */
  function Errors(tx: Bits, received: seq<nat>, c: nat): (r: Bits)
    requires |tx| == 49 && |received| == 49 && c < 2
    ensures |r| == 24
  {
    Xor(Channel(Voted(received), c), Channel(tx, c))
  }

  lemma ErrorAt(tx: Bits, received: seq<nat>, c: nat, i: nat)
    requires |tx| == 49 && |received| == 49 && c < 2 && i < 24
    ensures Errors(tx, received, c)[i] <==> Voted(received)[2 * (23 - i) + c] != tx[2 * (23 - i) + c]
  {
    hide Voted;
  }

  /** The forest argument: a run of misread bits costs a wrong symbol for each, and one more. */
  lemma {:induction false} MisreadsCost(tx: Bits, received: seq<nat>, c: nat, n: nat)
    requires |tx| == 49 && |received| == 49 && c < 2 && n <= 24
    ensures var errors := Errors(tx, received, c);
            Price(errors, n) <= |Touched(Wrong(Frame(tx), received), c, errors, n)|
  {
    hide Frame, Wrong, Touched, Carrier, Errors, Voted;
    var wrong, errors := Wrong(Frame(tx), received), Errors(tx, received, c);
    if n > 0 {
      MisreadsCost(tx, received, c, n - 1);
      ErrorAt(tx, received, c, n - 1);
      if errors[n - 1] {
        var p, q := MisreadNeedsTwo(tx, received, c, 24 - n);
        TouchMore(wrong, c, errors, n, p, q);
      }
      TouchKeeps(wrong, c, errors, n);
    }
  }

  lemma TouchKeeps(wrong: set<nat>, c: nat, errors: Bits, n: nat)
    requires 0 < n <= |errors| == 24
    ensures Touched(wrong, c, errors, n - 1) <= Touched(wrong, c, errors, n)
    ensures |Touched(wrong, c, errors, n - 1)| <= |Touched(wrong, c, errors, n)|
  {
    Subset(Touched(wrong, c, errors, n - 1), Touched(wrong, c, errors, n));
  }

  /** A further error touches one further symbol, or two if the bit before it is none. */
  lemma TouchMore(wrong: set<nat>, c: nat, errors: Bits, n: nat, p: nat, q: nat)
    requires c < 2 && 0 < n <= |errors| == 24 && errors[n - 1] && p < q < 3
    requires CodeCarrier(c, n - 1, p) in wrong && CodeCarrier(c, n - 1, q) in wrong
    ensures |Touched(wrong, c, errors, n)|
            >= |Touched(wrong, c, errors, n - 1)| + if n > 1 && errors[n - 2] then 1 else 2
  {
    var x, y := CodeCarrier(c, n - 1, p), CodeCarrier(c, n - 1, q);
    var earlier, now := Touched(wrong, c, errors, n - 1), Touched(wrong, c, errors, n);
    NewCarrier(wrong, c, errors, n, p, q);
    TouchKeeps(wrong, c, errors, n);
    assert x in now && y in now;
    hide *;
    Grows(earlier, now, x, y);
  }

  lemma Grows(earlier: set<nat>, now: set<nat>, x: nat, y: nat)
    requires earlier <= now && x in now && y in now && x != y && !(x in earlier && y in earlier)
    ensures |now| >= |earlier| + if x in earlier || y in earlier then 1 else 2
  {
    if x in earlier {
      Subset(earlier + {y}, now);
    } else if y in earlier {
      Subset(earlier + {x}, now);
    } else {
      Subset(earlier + {x} + {y}, now);
    }
  }

  lemma NewCarrier(wrong: set<nat>, c: nat, errors: Bits, n: nat, p: nat, q: nat)
    requires c < 2 && 0 < n <= |errors| == 24 && p < q < 3
    ensures var x, y := CodeCarrier(c, n - 1, p), CodeCarrier(c, n - 1, q);
            var earlier := Touched(wrong, c, errors, n - 1);
            x != y && !(x in earlier && y in earlier) && (x in earlier || y in earlier ==> n > 1 && errors[n - 2])
  {
    var x, y := CodeCarrier(c, n - 1, p), CodeCarrier(c, n - 1, q);
    var earlier := Touched(wrong, c, errors, n - 1);
    if x in earlier { var p1 := SharedWithLast(wrong, c, errors, n, p); }
    if y in earlier { var q1 := SharedWithLast(wrong, c, errors, n, q); }
    if x in earlier && y in earlier {
      var j := 24 - n;
      var p1 := SharedWithLast(wrong, c, errors, n, p);
      var q1 := SharedWithLast(wrong, c, errors, n, q);
      CarriersOverlapOnce(c, j, p, q, j + 1, p1, j + 1, q1);
    }
  }

  /** A carrier touched before is shared with the bit before. */
  lemma SharedWithLast(wrong: set<nat>, c: nat, errors: Bits, n: nat, p: nat) returns (p1: nat)
    requires c < 2 && 0 < n <= |errors| == 24 && p < 3
    requires CodeCarrier(c, n - 1, p) in Touched(wrong, c, errors, n - 1)
    ensures n > 1 && errors[n - 2] && p1 < 3 && Carrier(c, 24 - n, p) == Carrier(c, 25 - n, p1)
  {
    var i, copy :| 0 <= i < n - 1 && errors[i] && 0 <= copy < 3 && CodeCarrier(c, n - 1, p) == CodeCarrier(c, i, copy);
    SharedCarrier(c, 24 - n, p, 23 - i, copy);
    p1 := copy;
  }

  lemma {:induction false} Subset(a: set<nat>, b: set<nat>)
    requires a <= b
    ensures |a| <= |b|
  {
    if a != {} {
      var x :| x in a;
      Subset(a - {x}, b - {x});
    }
  }
}
