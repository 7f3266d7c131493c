/** Decimal numbers with a sign, a fraction and an exponent are read for what they say. */
module JsonDecimal {
  import opened Basics
  import opened JsonNumber
  import opened JsonValue
  import opened RealArithmetic

  /** Ten to the `n`. */
  function Tens(n: nat): (r: nat)
    ensures r > 0
  {
    if n == 0 then 1 else 10 * Tens(n - 1)
  }

  // ---------------------------------------------------------------- digits

  lemma {:induction false} RunEnds(t: string, k: nat, n: nat)
    requires k <= n <= |t| && (forall j | k <= j < n :: IsDigit(t[j])) && (n < |t| ==> !IsDigit(t[n]))
    ensures DigitRun(t, k) == n
    decreases n - k
  {
    if k < n {
      RunEnds(t, k + 1, n);
    }
  }

  /** Digits followed by none are a run of their own. */
  lemma RunIs(t: string, k: nat, digits: string)
    requires AllDigits(digits) && k + |digits| <= |t| && t[k..k + |digits|] == digits
    requires k + |digits| < |t| ==> !IsDigit(t[k + |digits|])
    ensures DigitRun(t, k) == k + |digits|
  {
    forall j | k <= j < k + |digits|
      ensures IsDigit(t[j])
    {
      assert t[j] == t[k..k + |digits|][j - k];
      assert IsDigit(digits[j - k]);
    }
    RunEnds(t, k, k + |digits|);
  }

  lemma DigitsNext(t: string, c: char)
    requires AllDigits(t) && IsDigit(c)
    ensures AllDigits(t + [c]) && DigitsValue(t + [c]) == DigitsValue(t) * 10 + (c as int - '0' as int)
  {
    assert (t + [c])[..|t|] == t;
  }

  lemma NoDigits()
    ensures AllDigits("") && DigitsValue("") == 0
  {}

  lemma {:induction false} ValueOfDigits(a: string, b: string)
    requires AllDigits(a) && AllDigits(b)
    ensures AllDigits(a + b) && DigitsValue(a + b) == DigitsValue(a) * Tens(|b|) + DigitsValue(b)
    ensures DigitsValue(b) < Tens(|b|)
    decreases |b|
  {
    hide DigitsValue;
    if |b| == 0 {
      NoDigits();
      assert a + b == a;
    } else {
      var c, last := b[..|b| - 1], b[|b| - 1];
      assert IsDigit(last) && b == c + [last];
      ValueOfDigits(a, c);
      DigitsNext(c, last);
      DigitsNext(a + c, last);
      assert a + b == a + c + [last];
      Shifted(DigitsValue(a), Tens(|c|));
    }
  }

  lemma Shifted(a: nat, b: nat)
    ensures a * b * 10 == a * (10 * b)
  {}

  // ---------------------------------------------------------------- powers of ten

  function Times(x: real, n: nat): real {
    x * n as real
  }

  lemma PowerNext(e: int)
    ensures Pow10(e + 1) == 10.0 * Pow10(e)
  {}

  lemma {:induction false} PowerUp(e: int, n: nat)
    ensures Pow10(e + n) == Times(Pow10(e), Tens(n))
  {
    hide Pow10;
    if n > 0 {
      PowerUp(e, n - 1);
      PowerNext(e + n - 1);
      TenTimes(Pow10(e), Tens(n - 1));
    }
  }

  lemma TenTimes(a: real, b: nat)
    ensures 10.0 * Times(a, b) == Times(a, 10 * b)
  {}

  // ---------------------------------------------------------------- numerals

  /** An exponent: `e` or `E`, a sign or none, and digits. */
  datatype Power = Power(mark: char, sign: string, digits: string) {
    predicate Valid() {
      (mark == 'e' || mark == 'E') && IsSign(sign) && |digits| > 0 && AllDigits(digits)
    }

    function Text(): string {
      [mark] + sign + digits
    }

    function Value(): int
      requires Valid()
    {
      var n: int := DigitsValue(digits);
      if sign == "-" then -n else n
    }
  }

  predicate IsSign(sign: string) {
    sign == "" || sign == "-" || sign == "+"
  }

  /** A sign or none, digits, maybe a point and more digits, and maybe an exponent. */
  datatype Numeral = Numeral(sign: string, whole: string, point: bool, fraction: string, power: Option<Power>) {
    predicate Valid() {
      && IsSign(sign) && |whole| > 0 && AllDigits(whole) && AllDigits(fraction) && (point || fraction == "")
      && (power.Some? ==> power.value.Valid())
    }

    function Tail(): string {
      if power.Some? then power.value.Text() else ""
    }

    /** What follows the digits before the point. */
    function Rest(): string {
      (if point then "." else "") + fraction + Tail()
    }

    function Text(): string {
      sign + whole + Rest()
    }

    function PowerValue(): int
      requires Valid()
    {
      if power.Some? then power.value.Value() else 0
    }
  }

  lemma PowerIsRead(t: string, end: nat, p: Power)
    requires end <= |t| && t[end..] == p.Text() && p.Valid()
    ensures end < |t| && !IsDigit(t[end]) && Exponent(t, end) == p.Value()
  {
    hide DigitsValue;
    var start := end + 1 + |p.sign|;
    assert t[end] == t[end..][0];
    assert t[start..] == t[end..][1 + |p.sign|..] == p.digits;
    assert t[end + 1] == t[end..][1] && IsDigit(p.digits[0]);
    RunIs(t, start, p.digits);
    hide DigitRun, AllDigits;
    assert t[start..|t|] == p.digits;
  }

  lemma PartsAreRead(t: string, start: nat, whole: nat, fraction: nat, end: nat)
    requires start <= whole <= fraction <= end <= |t| && start < whole
    requires start == if |t| > 0 && (t[0] == '-' || t[0] == '+') then 1 else 0
    requires DigitRun(t, start) == whole && DigitRun(t, fraction) == end
    requires fraction == if whole < |t| && t[whole] == '.' then whole + 1 else whole
    ensures AllDigits(t[start..whole] + t[fraction..end])
    ensures var x := Scaled(DigitsValue(t[start..whole] + t[fraction..end]), Exponent(t, end) - (end - fraction));
            Strtod(t) == Some(if t[0] == '-' then -x else x)
  {
    hide DigitRun, DigitsValue, Scaled, Exponent;
  }

  lemma Slices(a: string, b: string, c: string)
    ensures var t := a + b + c; t[|a|..|a| + |b|] == b && t[|a| + |b|..] == c
  {}

  lemma NumeralParts(m: Numeral)
    requires m.Valid()
    ensures var t := m.Text();
            var start := |m.sign|;
            var whole := start + |m.whole|;
            var fraction := if m.point then whole + 1 else whole;
            var end := fraction + |m.fraction|;
            && end <= |t| && t[start..whole] == m.whole && t[fraction..end] == m.fraction && t[end..] == m.Tail()
  {
    hide Numeral.Valid, Numeral.Tail;
    var point := if m.point then "." else "";
    Slices(m.sign, m.whole, m.Rest());
    Slices(m.sign + m.whole + point, m.fraction, m.Tail());
    assert m.Text() == m.sign + m.whole + point + m.fraction + m.Tail();
  }

  lemma Opens(a: string, b: string, c: string)
    requires |b| > 0
    ensures var t := a + b + c;
            t[0] == (if |a| == 0 then b[0] else a[0]) && (|c| > 0 ==> t[|a| + |b|] == c[0])
  {}

  lemma RestOpens(m: Numeral)
    requires m.Valid()
    ensures |m.Rest()| > 0 && m.Rest()[0] == '.' <==> m.point
    ensures |m.Rest()| > 0 ==> !IsDigit(m.Rest()[0])
  {
    hide DigitsValue, Power.Value, AllDigits;
    if m.point {
      assert m.Rest()[0] == '.';
    } else {
      assert m.Rest() == m.Tail();
    }
  }

  lemma NumeralSigns(m: Numeral)
    requires m.Valid()
    ensures var t := m.Text();
            var whole := |m.sign| + |m.whole|;
            && whole <= |t| && (whole < |t| && t[whole] == '.' <==> m.point)
            && (whole < |t| ==> !IsDigit(t[whole]))
            && (|m.sign| == if t[0] == '-' || t[0] == '+' then 1 else 0)
            && (t[0] == '-' <==> m.sign == "-")
  {
    RestOpens(m);
    hide Numeral.Rest;
    Opens(m.sign, m.whole, m.Rest());
    assert IsDigit(m.whole[0]);
    hide Numeral.Tail;
  }

  /** What a numeral is read as. */
  lemma NumeralIsRead(m: Numeral)
    requires m.Valid()
    ensures AllDigits(m.whole + m.fraction)
    ensures var x := Scaled(DigitsValue(m.whole + m.fraction), m.PowerValue() - |m.fraction|);
            Strtod(m.Text()) == Some(if m.sign == "-" then -x else x)
  {
    hide DigitsValue, Scaled, Exponent, DigitRun, Strtod, Numeral.Rest, Numeral.Tail;
    NumeralParts(m);
    NumeralSigns(m);
    var t := m.Text();
    var start := |m.sign|;
    var whole := start + |m.whole|;
    var fraction := if m.point then whole + 1 else whole;
    var end := fraction + |m.fraction|;
    TailIsRead(m, t, end);
    hide Numeral.Text;
    RunIs(t, start, m.whole);
    RunIs(t, fraction, m.fraction);
    PartsAreRead(t, start, whole, fraction, end);
  }

  lemma TailIsRead(m: Numeral, t: string, end: nat)
    requires m.Valid() && end <= |t| && t[end..] == m.Tail()
    ensures (end < |t| ==> !IsDigit(t[end])) && Exponent(t, end) == m.PowerValue()
  {
    hide DigitsValue, Exponent, Power.Valid, Power.Value, Power.Text;
    if m.power.Some? {
      PowerIsRead(t, end, m.power.value);
    } else {
      NoPower(t, end);
    }
  }

  lemma NoPower(t: string, end: nat)
    requires end <= |t| && t[end..] == ""
    ensures end == |t| && Exponent(t, end) == 0
  {}

  // ---------------------------------------------------------------- what that is

  /** Scaling, said with whole numbers only. */
  lemma ScaledIs(n: nat, e: int)
    ensures e >= 0 ==> Scaled(n, e) == Times(n as real, Tens(e))
    ensures e < 0 ==> Times(Scaled(n, e), Tens(-e)) == n as real
  {
    if e >= 0 {
      PowerUp(0, e);
    } else {
      ScaledMore(n, e, -e);
    }
  }

  /** An exponent of `k` more multiplies by ten to the `k`. */
  lemma ScaledMore(n: nat, e: int, k: nat)
    ensures Scaled(n, e + k) == Times(Scaled(n, e), Tens(k))
  {
    PowerUp(e, k);
    hide Pow10;
    Regroup(n, Pow10(e), Tens(k));
  }

  lemma Regroup(a: nat, b: real, c: nat)
    ensures a as real * Times(b, c) == Times(a as real * b, c)
  {}

  /** A fraction: `n.f` lies between `n` and `n + 1`, and moving the point to the end gives the number
      its digits make. */
  lemma FractionIsRead(n: nat, f: string)
    requires AllDigits(f)
    ensures AllDigits(Digits(n) + f)
    ensures var r := Strtod(Digits(n) + "." + f);
            && r.Some? && n as real <= r.value < n as real + 1.0
            && Times(r.value, Tens(|f|)) == DigitsValue(Digits(n) + f) as real
  {
    hide Digits, DigitsValue, Scaled, Strtod, Tens, Times;
    var m := Numeral("", Digits(n), true, f, None);
    assert m.Text() == Digits(n) + "." + f;
    NumeralIsRead(m);
    var d := DigitsValue(Digits(n) + f);
    FractionValue(n, f, Scaled(d, -|f|));
  }

  lemma FractionValue(n: nat, f: string, x: real)
    requires AllDigits(f)
    ensures AllDigits(Digits(n) + f)
    ensures x == Scaled(DigitsValue(Digits(n) + f), -|f|) ==>
              && n as real <= x < n as real + 1.0
              && Times(x, Tens(|f|)) == DigitsValue(Digits(n) + f) as real
  {
    hide Digits, DigitsValue, Scaled, Times;
    ValueOfDigits(Digits(n), f);
    DigitsAreRead(n);
    var d := DigitsValue(Digits(n) + f);
    ScaledIs(d, -|f|);
    if |f| == 0 { Unscaled(d); }
    hide Tens;
    if x == Scaled(d, -|f|) {
      Between(n, DigitsValue(f), Tens(|f|), d, x);
    }
  }

  lemma Unscaled(n: nat)
    ensures Tens(0) == 1 && Times(Scaled(n, 0), 1) == n as real
  {}

  lemma Between(n: nat, d: nat, p: nat, v: nat, x: real)
    requires p > 0 && d < p && v == n * p + d && Times(x, p) == v as real
    ensures n as real <= x < n as real + 1.0
  {
    CastProduct(n, p);
    BetweenReals(n as real, d as real, p as real, v as real, x);
  }

  lemma CastProduct(n: nat, p: nat)
    ensures (n * p) as real == n as real * p as real
  {}

  lemma BetweenReals(n: real, d: real, p: real, v: real, x: real)
    requires 0.0 <= d < p && v == n * p + d && x * p == v
    ensures n <= x < n + 1.0
  {
    if x < n { ScaleStrict(x, n, p); }
    OneMore(n, p);
    if x >= n + 1.0 { Scale(n + 1.0, x, p); }
  }

  /** An exponent: as many places as it says, to either side. */
  lemma PowerScales(m: Numeral, p: Power)
    requires m.Valid() && m.power == None && p.Valid()
    ensures var x, y := Strtod(m.Text()), Strtod(m.Text() + p.Text());
            var k := p.Value();
            && x.Some? && y.Some?
            && (k >= 0 ==> y.value == Times(x.value, Tens(k)))
            && (k < 0 ==> Times(y.value, Tens(-k)) == x.value)
  {
    hide DigitsValue, Scaled, Strtod, Tens, Times;
    var m' := m.(power := Some(p));
    assert m'.Rest() == m.Rest() + p.Text();
    assert m'.Text() == m.Text() + p.Text();
    NumeralIsRead(m);
    NumeralIsRead(m');
    var n, e, k := DigitsValue(m.whole + m.fraction), -|m.fraction|, p.Value();
    assert m.PowerValue() - |m.fraction| == e && m'.PowerValue() - |m'.fraction| == e + k;
    hide Numeral.Text, Power.Text, Numeral.Valid, Power.Valid, Power.Value;
    if k >= 0 {
      ScaledMore(n, e, k);
      Negated(Scaled(n, e), Tens(k));
    } else {
      ScaledMore(n, e + k, -k);
      assert e + k + -k == e;
      Negated(Scaled(n, e + k), Tens(-k));
    }
  }

  lemma Negated(a: real, b: nat)
    ensures -Times(a, b) == Times(-a, b)
  {}

  /** A minus sign negates, and a plus sign does nothing. */
  lemma SignIsRead(m: Numeral)
    requires m.Valid() && m.sign == ""
    ensures var x := Strtod(m.Text());
            && x.Some? && x.value >= 0.0
            && Strtod("-" + m.Text()) == Some(-x.value) && Strtod("+" + m.Text()) == x
  {
    hide DigitsValue, Scaled, Strtod, Numeral.Text, Numeral.PowerValue, Numeral.Valid;
    SignMeans(m, "-");
    SignMeans(m, "+");
    NumeralIsRead(m);
    ScaledSign(DigitsValue(m.whole + m.fraction), m.PowerValue() - |m.fraction|);
  }

  lemma SignMeans(m: Numeral, sign: string)
    requires m.Valid() && m.sign == "" && IsSign(sign)
    ensures AllDigits(m.whole + m.fraction)
    ensures var x := Scaled(DigitsValue(m.whole + m.fraction), m.PowerValue() - |m.fraction|);
            Strtod(sign + m.Text()) == Some(if sign == "-" then -x else x)
  {
    hide DigitsValue, Scaled, Strtod, Numeral.Text;
    SignText(m, sign);
    NumeralIsRead(m.(sign := sign));
  }

  lemma SignText(m: Numeral, sign: string)
    requires m.sign == ""
    ensures m.(sign := sign).Text() == sign + m.Text()
  {
    assert m.(sign := sign).Rest() == m.Rest();
    hide Numeral.Rest;
    assert sign + m.whole + m.Rest() == sign + ("" + m.whole + m.Rest());
  }

  lemma ScaledSign(n: nat, e: int)
    ensures Scaled(n, e) >= 0.0
  {
    PowerIsPositive(e);
    hide Pow10;
  }

  lemma PowerIsPositive(e: int)
    ensures Pow10(e) > 0.0
    decreases if e < 0 then -e else e
  {}
}
