/** The decimal numbers `strtod` reads, as exact values. */
module JsonNumber {
  import opened Basics
  import opened JsonValue

  predicate IsDigit(c: char) {
    '0' <= c <= '9'
  }

  /** First position from `k` on that holds no digit. */
  function DigitRun(t: string, k: nat): (end: nat)
    requires k <= |t|
    ensures k <= end <= |t|
    ensures AllDigits(t[k..(end)])
    ensures end < |t| ==> !IsDigit(t[end])
    decreases |t| - k
  {
    if k < |t| && IsDigit(t[k]) then
      var end := DigitRun(t, k + 1);
      assert t[k..end] == [t[k]] + t[k + 1..end];
      end
    else k
  }

  predicate AllDigits(t: string) {
    forall j | 0 <= j < |t| :: IsDigit(t[j])
  }

  function DigitsValue(t: string): nat
    requires AllDigits(t)
  {
    if |t| == 0 then 0
    else
      var last := t[|t| - 1];
      assert IsDigit(last);
      DigitsValue(t[..|t| - 1]) * 10 + (last as int - '0' as int)
  }

  function Pow10(e: int): real
    decreases if e < 0 then -e else e
  {
    if e == 0 then 1.0 else if e > 0 then 10.0 * Pow10(e - 1) else Pow10(e + 1) / 10.0
  }

  function Scaled(n: nat, e: int): real {
    n as real * Pow10(e)
  }

  function Exponent(t: string, k: nat): int
    requires k <= |t|
  {
    if k == |t| || (t[k] != 'e' && t[k] != 'E') then 0
    else
      var signed := k + 1 < |t| && (t[k + 1] == '+' || t[k + 1] == '-');
      var start := if signed then k + 2 else k + 1;
      var m: int := DigitsValue(t[start..DigitRun(t, start)]);
      if signed && t[k + 1] == '-' then -m else m
  }

  /** The longest prefix that is a decimal number; None if there is none. */
  function Strtod(t: string): Option<real> {
    var start := if |t| > 0 && (t[0] == '-' || t[0] == '+') then 1 else 0;
    var whole := DigitRun(t, start);
    var fraction := if whole < |t| && t[whole] == '.' then whole + 1 else whole;
    var end := DigitRun(t, fraction);
    if start == whole && fraction == end then None
    else
      var x := Scaled(DigitsValue(t[start..whole] + t[fraction..end]), Exponent(t, end) - (end - fraction));
      Some(if t[0] == '-' then -x else x)
  }

  // ---------------------------------------------------------------- printed integers are read back

  lemma {:induction false} DigitsAreRead(n: nat)
    ensures DigitsValue(Digits(n)) == n
  {
    if n >= 10 {
      DigitsAreRead(n / 10);
      var t := Digits(n);
      assert t[..|t| - 1] == Digits(n / 10);
    }
  }

  lemma {:induction false} WholeRun(t: string, k: nat)
    requires k <= |t| && AllDigits(t[k..])
    ensures DigitRun(t, k) == |t|
    decreases |t| - k
  {
    if k < |t| {
      assert IsDigit(t[k..][0]);
      assert t[k..][1..] == t[k + 1..];
      WholeRun(t, k + 1);
    }
  }

  /** A sign and digits with nothing after them. */
  lemma IntegerIsRead(t: string, start: nat)
    requires start == if |t| > 0 && (t[0] == '-' || t[0] == '+') then 1 else 0
    requires start < |t| && AllDigits(t[start..])
    ensures var x := DigitsValue(t[start..]) as real;
            Strtod(t) == Some(if t[0] == '-' then -x else x)
  {
    hide DigitsValue, AllDigits;
    WholeRun(t, start);
    assert t[start..|t|] + t[|t|..|t|] == t[start..];
    hide DigitRun;
  }

  lemma DecimalParts(n: int)
    ensures var start := if n < 0 then 1 else 0;
            var d := Decimal(n);
            start < |d| && d[start..] == Digits(if n < 0 then -n else n)
            && d[0] != '+' && (d[0] == '-' <==> n < 0)
  {
    assert n < 0 ==> ("-" + Digits(-n))[1..] == Digits(-n);
    hide Digits;
  }

  lemma DecimalIsRead(n: int)
    ensures Strtod(Decimal(n)) == Some(n as real)
  {
    hide Digits, DigitsValue, Decimal, Strtod;
    DecimalParts(n);
    DigitsAreRead(if n < 0 then -n else n);
    IntegerIsRead(Decimal(n), if n < 0 then 1 else 0);
  }
}
