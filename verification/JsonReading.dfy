/** Texts the printer never writes: white space, numbers with fractions and exponents, and every
    escape the parser knows. */
module JsonReading {
  import opened Basics
  import opened JsonDecimal
  import opened JsonGrammar
  import opened JsonNumber
  import opened JsonRoundTrip
  import opened JsonValue

  // ---------------------------------------------------------------- white space

  /** Spaces, tabs, line feeds and carriage returns, and nothing else. */
  predicate White(t: string) {
    forall k | 0 <= k < |t| :: t[k] in {' ', '\t', '\n', '\r'}
  }

  lemma {:induction false} SpacesAreSkipped(t: Text, i: nat, n: nat)
    requires i + n <= |t.s| && White(t.s[i..i + n])
    requires i + n < |t.s| ==> t.s[i + n] !in {' ', '\t', '\n', '\r'}
    ensures t.SkipWs(i) == i + n
    decreases n
  {
    if n > 0 {
      assert t.s[i] == t.s[i..i + n][0];
      assert t.s[i + 1..i + 1 + (n - 1)] == t.s[i..i + n][1..];
      SpacesAreSkipped(t, i + 1, n - 1);
    }
  }

  /** A value may stand behind any white space. */
  lemma SpaceIsInvisible(t: Text, i: nat, failed: bool)
    requires i <= |t.s|
    ensures t.ParseValue(i, failed) == t.ParseValue(t.SkipWs(i), failed)
  {
    SkipTwice(t, i);
    hide Text.SkipWs, Text.ParseObject, Text.ParseArray, Text.StringBody, Text.ParseBool, Text.ParseNumber;
  }

  lemma {:induction false} SkipTwice(t: Text, i: nat)
    ensures t.SkipWs(t.SkipWs(i)) == t.SkipWs(i)
    decreases |t.s| - i
  {
    if i < |t.s| && IsSpace(t.s[i]) {
      SkipTwice(t, i + 1);
    }
  }

  /** A printed value is read back from between any white space and any text that does not run on. */
  lemma PaddedIsRead(before: string, v: Value, after: string, round: real -> Option<real>, general: real -> string)
    requires White(before) && Representable(v, round) && (|after| > 0 ==> !IsNumberChar(after[0]))
    ensures Text(before + Dump(v, general) + after, round).Parse() == v
  {
    hide Dump, Text.ParseValue, Representable, NumbersFit, KeysDiffer;
    var d := Dump(v, general);
    var t := Text(before + d + after, round);
    IntegerFits(v, round);
    DumpOpens(v, general);
    assert t.s[..|before|] == before && t.s[|before|] == d[0];
    assert t.s[0..0 + |before|] == before;
    SpacesAreSkipped(t, 0, |before|);
    assert At(t.s, |before|, d);
    assert |after| > 0 ==> t.s[|before| + |d|] == after[0];
    ValueIsRead(t, |before|, v, general);
  }

  // ---------------------------------------------------------------- numbers

  lemma NumeralChars(m: Numeral)
    requires m.Valid() && m.sign != "+"
    ensures var t := m.Text();
            && |t| > 0 && (t[0] == '-' || IsDigit(t[0])) && (t[0] == '-' ==> |t| > 1)
            && forall k | 0 <= k < |t| :: IsNumberChar(t[k])
  {
    hide DigitsValue;
    assert IsDigit(m.whole[0]) && m.Text()[|m.sign|] == m.whole[0];
    CharsOf(m.sign, m.whole);
    CharsOf(if m.point then "." else "", m.fraction);
    if m.power.Some? {
      CharsOf([m.power.value.mark], m.power.value.sign);
      CharsOf([m.power.value.mark] + m.power.value.sign, m.power.value.digits);
    }
    CharsOf((if m.point then "." else "") + m.fraction, m.Tail());
    CharsOf(m.sign + m.whole, m.Rest());
  }

  predicate AllNumberChars(t: string) {
    forall k | 0 <= k < |t| :: IsNumberChar(t[k])
  }

  lemma CharsOf(a: string, b: string)
    requires AllNumberChars(a) && AllNumberChars(b)
    ensures AllNumberChars(a + b)
  {}

  lemma NumberFound(t: Text, i: nat, d: string)
    requires At(t.s, i, d) && Ends(t.s, i + |d|) && AllNumberChars(d) && |d| > 0
    requires (d[0] == '-' || IsDigit(d[0])) && (d[0] == '-' ==> |d| > 1)
    ensures i < |t.s| && t.s[i] == d[0] && t.NumberEnd(if t.s[i] == '-' then i + 1 else i) == i + |d|
  {
    AtFirst(t.s, i, d);
    CharsAt(t.s, i, d);
    forall j | i <= j < i + |d|
      ensures IsNumberChar(t.s[j])
    {
      assert t.s[i + (j - i)] == d[j - i];
    }
    NumberRun(t, if t.s[i] == '-' then i + 1 else i, i + |d|);
  }

  /** A numeral in a text is the rounding of its exact value, or a failure if that is out of range. */
  lemma NumeralIsParsed(t: Text, i: nat, m: Numeral)
    requires m.Valid() && m.sign != "+" && At(t.s, i, m.Text()) && Ends(t.s, i + |m.Text()|)
    ensures i < |t.s| && Strtod(m.Text()).Some?
    ensures t.ParseValue(i, false) ==
            match t.round(Strtod(m.Text()).value)
            case None => Parsed(Null, i + |m.Text()|, true)
            case Some(x) => Parsed(Number(x), i + |m.Text()|, false)
  {
    hide Strtod, Numeral.Text, Numeral.Valid, Text.ParseValue, Text.NumberEnd, IsNumberChar;
    NumeralChars(m);
    NumeralIsRead(m);
    NumberFound(t, i, m.Text());
    NumberStep(t, i);
  }

  // ---------------------------------------------------------------- failures

  /** After a failure every value is null and nothing but white space is passed over. */
  lemma FailureSticks(t: Text, i: nat)
    requires i <= |t.s| + 3
    ensures t.ParseValue(i, true) == Parsed(Null, t.SkipWs(i), true)
  {}

  /** Where no value can start there is none, and the cursor stays. */
  lemma NoValueStarts(t: Text, i: nat)
    requires i < |t.s| && t.s[i] !in " \t\n\r{[\"tfn-+.0123456789eE"
    ensures t.ParseValue(i, false) == Parsed(Null, i, true)
  {
    assert !IsDigit(t.s[i]);
    hide Text.ParseObject, Text.ParseArray, Text.StringBody;
  }

  /** A word that starts like one of the two truth values but is neither fails. */
  lemma MisspeltFails(t: Text, i: nat)
    requires i < |t.s| && (t.s[i] == 't' || t.s[i] == 'f') && !At(t.s, i, "true") && !At(t.s, i, "false")
    ensures t.ParseValue(i, false) == Parsed(Null, i, true)
  {
    hide Text.ParseObject, Text.ParseArray, Text.StringBody, Text.ParseNumber;
  }

  // ---------------------------------------------------------------- escapes

  /** What an escape other than `u` stands for: `n`, `t` and `r` for a line feed, a tab and a carriage
      return, and everything else for itself - `b` and `f` too. */
  lemma EscapesAreRead(t: Text, i: nat)
    requires i + 2 <= |t.s| && t.s[i] == '\\' && t.s[i + 1] != 'u'
    ensures var c := if t.s[i + 1] == 'n' then 10 as char else if t.s[i + 1] == 't' then 9 as char
                     else if t.s[i + 1] == 'r' then 13 as char else t.s[i + 1];
            t.StringBody(i) == Text.Before([c], t.StringBody(i + 2))
  {
    hide HexCode;
  }

  /** A hexadecimal digit in either case. */
  predicate IsHex(c: char, d: nat) {
    d < 16 && c in if d < 10 then {"0123456789"[d]} else {"abcdef"[d - 10], "ABCDEF"[d - 10]}
  }

  lemma NibbleIs(c: char, d: nat)
    requires IsHex(c, d)
    ensures Nibble(c) == d
  {}

  /** `u` and four digits stand for the character of that code in Basic Latin, and for a question mark
      beyond. */
  lemma UnicodeIsRead(t: Text, i: nat, a: nat, b: nat, c: nat, d: nat)
    requires i + 6 <= |t.s| && t.s[i] == '\\' && t.s[i + 1] == 'u'
    requires IsHex(t.s[i + 2], a) && IsHex(t.s[i + 3], b) && IsHex(t.s[i + 4], c) && IsHex(t.s[i + 5], d)
    ensures var code := a * 4096 + b * 256 + c * 16 + d;
            t.StringBody(i) == Text.Before([if code < 128 then code as char else '?'], t.StringBody(i + 6))
  {
    FourDigits(t.s[i + 2..i + 6], a, b, c, d);
    hide HexCode, IsHex;
  }

  lemma FourDigits(h: string, a: nat, b: nat, c: nat, d: nat)
    requires |h| == 4 && IsHex(h[0], a) && IsHex(h[1], b) && IsHex(h[2], c) && IsHex(h[3], d)
    ensures HexCode(h) == a * 4096 + b * 256 + c * 16 + d
  {
    NibbleIs(h[0], a);
    NibbleIs(h[1], b);
    NibbleIs(h[2], c);
    NibbleIs(h[3], d);
    hide IsHex, Nibble;
    assert h[..3][..2] == h[..2] && h[..2][..1] == h[..1] && h[..1][..0] == "";
    assert HexCode(h[..1]) == a;
    assert HexCode(h[..2]) == a * 16 + b;
    assert HexCode(h[..3]) == a * 256 + b * 16 + c;
  }

  /** Too short for four digits, the escape is passed over and what follows is read as it stands. */
  lemma ShortUnicode(t: Text, i: nat)
    requires i + 2 <= |t.s| < i + 6 && t.s[i] == '\\' && t.s[i + 1] == 'u'
    ensures t.StringBody(i) == t.StringBody(i + 2)
  {
    hide HexCode;
  }
}
