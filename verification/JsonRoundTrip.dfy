/** Parsing a printed value gives the value back. */
module JsonRoundTrip {
  import opened Basics
  import opened JsonGrammar
  import opened JsonNumber
  import opened JsonValue

  /** Every number is an integer of 64 bits and a double. */
  ghost predicate NumbersFit(v: Value, round: real -> Option<real>)
    decreases v
  {
    match v
    case Null => true
    case Bool(_) => true
    case Number(x) => IsLongLong(x) && round(x) == Some(x)
    case String(_) => true
    case Array(items) => forall k | 0 <= k < |items| :: NumbersFit(items[k], round)
    case Object(members) => forall k | 0 <= k < |members| :: NumbersFit(members[k].value, round)
  }

  /** No object has two members of the same key. */
  ghost predicate KeysDiffer(v: Value)
    decreases v
  {
    match v
    case Null => true
    case Bool(_) => true
    case Number(_) => true
    case String(_) => true
    case Array(items) => forall k | 0 <= k < |items| :: KeysDiffer(items[k])
    case Object(members) => Distinct(members) && forall k | 0 <= k < |members| :: KeysDiffer(members[k].value)
  }

  ghost predicate Representable(v: Value, round: real -> Option<real>) {
    NumbersFit(v, round) && KeysDiffer(v)
  }

  /** `t` stands at position `i`. */
  ghost predicate At(s: string, i: nat, t: string) {
    i + |t| <= |s| && s[i..i + |t|] == t
  }

  /** A number that stops at `end` is complete there. */
  ghost predicate Ends(s: string, end: nat) {
    end < |s| ==> !IsNumberChar(s[end])
  }

  lemma AtSplit(s: string, i: nat, a: string, b: string)
    requires At(s, i, a + b)
    ensures At(s, i, a) && At(s, i + |a|, b)
  {
    assert (a + b)[..|a|] == a && (a + b)[|a|..] == b;
    assert s[i..i + |a|] == s[i..i + |a + b|][..|a|];
    assert s[i + |a|..i + |a| + |b|] == s[i..i + |a + b|][|a|..];
  }

  lemma AtChar(s: string, i: nat, c: char)
    requires At(s, i, [c])
    ensures i < |s| && s[i] == c
  {
    assert s[i..i + 1][0] == s[i];
  }

  lemma AtFirst(s: string, i: nat, t: string)
    requires At(s, i, t) && |t| > 0
    ensures i < |s| && s[i] == t[0]
  {
    assert s[i..i + |t|][0] == s[i];
  }

  // ---------------------------------------------------------------- strings

  /** Control characters are four hexadecimal digits. */
  lemma HexIsRead(c: char)
    requires c < ' '
    ensures Latin(HexCode(['0', '0', HexDigit(c as int / 16), HexDigit(c as int % 16)])) == c
  {
    var x, y := HexDigit(c as int / 16), HexDigit(c as int % 16);
    assert Nibble(x) == c as int / 16 && Nibble(y) == c as int % 16;
    hide HexDigit;
    var t := ['0', '0', x, y];
    assert t[..3] == ['0', '0', x] && t[..3][..2] == ['0', '0'] && t[..3][..2][..1] == ['0'];
    assert HexCode(['0']) == 0;
    assert HexCode(['0', '0']) == 0;
    assert HexCode(t[..3]) == Nibble(x);
  }

  lemma CharsAt(s: string, i: nat, t: string)
    requires At(s, i, t)
    ensures forall k | 0 <= k < |t| :: s[i + k] == t[k]
  {
    forall k | 0 <= k < |t|
      ensures s[i + k] == t[k]
    {
      assert s[i + k] == s[i..i + |t|][k];
    }
  }

  lemma HexEscapeIsRead(t: Text, i: nat, c: char)
    requires c < ' ' && c != '\n' && c != '\r' && c != '\t'
    requires At(t.s, i, Escape(c)) && i + |Escape(c)| < |t.s|
    ensures t.StringBody(i) == Text.Before([c], t.StringBody(i + |Escape(c)|))
  {
    var e := Escape(c);
    CharsAt(t.s, i, e);
    HexIsRead(c);
    assert e == "\\u00" + [HexDigit(c as int / 16), HexDigit(c as int % 16)];
    assert t.s[i + 2..i + 6] == ['0', '0', HexDigit(c as int / 16), HexDigit(c as int % 16)];
    hide HexCode, HexDigit, Escape;
  }

  lemma EscapeIsRead(t: Text, i: nat, c: char)
    requires At(t.s, i, Escape(c)) && i + |Escape(c)| < |t.s|
    ensures t.StringBody(i) == Text.Before([c], t.StringBody(i + |Escape(c)|))
  {
    hide HexCode, HexDigit;
    if c < ' ' && c != '\n' && c != '\r' && c != '\t' {
      HexEscapeIsRead(t, i, c);
    } else {
      CharsAt(t.s, i, Escape(c));
    }
  }

  lemma EscapeFirst(s: string)
    requires |s| > 0
    ensures EscapeAll(s) + "\"" == Escape(s[0]) + (EscapeAll(s[1..]) + "\"")
  {
    hide Escape;
  }

  lemma EmptyIsRead(t: Text, i: nat, s: string)
    requires |s| == 0 && At(t.s, i, EscapeAll(s) + "\"")
    ensures t.StringBody(i) == Parsed(s, i + |EscapeAll(s)| + 1, false)
  {
    assert EscapeAll(s) + "\"" == ['"'];
    AtChar(t.s, i, '"');
  }

  lemma {:induction false} StringIsRead(t: Text, i: nat, s: string)
    requires At(t.s, i, EscapeAll(s) + "\"")
    ensures t.StringBody(i) == Parsed(s, i + |EscapeAll(s)| + 1, false)
    decreases |s|
  {
    hide *;
    if |s| == 0 {
      EmptyIsRead(t, i, s);
    } else {
      var e, rest := Escape(s[0]), EscapeAll(s[1..]) + "\"";
      EscapeFirst(s);
      AtSplit(t.s, i, e, rest);
      AtBound(t.s, i + |e|, rest);
      EscapeIsRead(t, i, s[0]);
      StringIsRead(t, i + |e|, s[1..]);
      Prepend(t, i, i + |e|, s, |EscapeAll(s[1..])| + 1);
    }
  }

  lemma AtBound(s: string, i: nat, t: string)
    requires At(s, i, t)
    ensures i + |t| <= |s|
  {}

  lemma Prepend(t: Text, i: nat, k: nat, s: string, n: nat)
    requires |s| > 0 && i <= |t.s| && k <= |t.s|
    requires t.StringBody(k) == Parsed(s[1..], k + n, false)
    requires t.StringBody(i) == Text.Before([s[0]], t.StringBody(k))
    ensures t.StringBody(i) == Parsed(s, k + n, false)
  {
    assert s == [s[0]] + s[1..];
  }

  // ---------------------------------------------------------------- numbers

  lemma {:induction false} NumberRun(t: Text, i: nat, end: nat)
    requires i <= end <= |t.s| && Ends(t.s, end)
    requires forall j | i <= j < end :: IsNumberChar(t.s[j])
    ensures t.NumberEnd(i) == end
    decreases end - i
  {
    if i < end {
      NumberRun(t, i + 1, end);
    }
  }

  lemma DecimalShape(n: int)
    ensures var d := Decimal(n);
            |d| > 0 && (d[0] == '-' || IsDigit(d[0])) && (d[0] == '-' ==> |d| > 1)
            && forall j | 0 <= j < |d| :: IsNumberChar(d[j])
  {}

  lemma NumberIsRead(t: Text, i: nat, n: int)
    requires At(t.s, i, Decimal(n)) && Ends(t.s, i + |Decimal(n)|) && t.round(n as real) == Some(n as real)
    ensures i < |t.s| && t.ParseNumber(i) == Parsed(Number(n as real), i + |Decimal(n)|, false)
  {
    DecimalShape(n);
    DecimalIsRead(n);
    hide Decimal, Strtod;
    var d := Decimal(n);
    assert forall k | 0 <= k < |d| :: t.s[i + k] == t.s[i..i + |d|][k] == d[k];
    assert forall j | i <= j < i + |d| :: t.s[j] == d[j - i];
    NumberRun(t, if t.s[i] == '-' then i + 1 else i, i + |d|);
  }

  // ---------------------------------------------------------------- values

  /** No printed value opens with white space or a closing bracket. */
  lemma DumpOpens(v: Value, general: real -> string)
    requires v.Number? ==> IsLongLong(v.x)
    ensures var d := Dump(v, general); |d| > 0 && !IsSpace(d[0]) && d[0] != ']'
  {
    hide DumpItems, DumpMembers, EscapeAll;
    if v.Number? {
      DecimalShape(v.x.Floor);
      hide Decimal;
    }
  }

  lemma IntegerFits(v: Value, round: real -> Option<real>)
    requires Representable(v, round)
    ensures v.Number? ==> IsLongLong(v.x)
  {}

  lemma QuotedIsRead(t: Text, i: nat, s: string)
    requires At(t.s, i, Quoted(s))
    ensures i < |t.s| && t.s[i] == '"' && i + |Quoted(s)| <= |t.s|
    ensures t.StringBody(i + 1) == Parsed(s, i + |Quoted(s)|, false)
  {
    hide EscapeAll, Text.StringBody;
    assert Quoted(s) == ['"'] + (EscapeAll(s) + "\"");
    AtSplit(t.s, i, ['"'], EscapeAll(s) + "\"");
    AtChar(t.s, i, '"');
    StringIsRead(t, i + 1, s);
  }

  lemma WordIsRead(t: Text, i: nat, v: Value, general: real -> string)
    requires (v.Null? || v.Bool?) && At(t.s, i, Dump(v, general))
    ensures t.ParseValue(i, false) == Parsed(v, i + |Dump(v, general)|, false)
  {
    AtFirst(t.s, i, Dump(v, general));
    hide Text.ParseObject, Text.ParseArray, Text.StringBody, Text.ParseNumber;
    if v == Bool(false) {
      assert t.s[i..i + 5] == "false";
      if i + 4 <= |t.s| {
        assert t.s[i..i + 4] == t.s[i..i + 5][..4];
      }
    }
  }

  lemma NumberStep(t: Text, i: nat)
    requires i < |t.s| && (t.s[i] == '-' || IsDigit(t.s[i]))
    ensures t.ParseValue(i, false) == t.ParseNumber(i)
  {
    hide Text.ParseNumber, Text.ParseObject, Text.ParseArray, Text.StringBody, Text.ParseBool;
  }

  lemma DumpNumber(v: Value, round: real -> Option<real>, general: real -> string)
    requires v.Number? && Representable(v, round)
    ensures v.x.Floor as real == v.x && round(v.x) == Some(v.x) && Dump(v, general) == Decimal(v.x.Floor)
  {}

  lemma NumberValueIsRead(t: Text, i: nat, v: Value, general: real -> string)
    requires v.Number? && Representable(v, t.round)
    requires At(t.s, i, Dump(v, general)) && Ends(t.s, i + |Dump(v, general)|)
    ensures t.ParseValue(i, false) == Parsed(v, i + |Dump(v, general)|, false)
  {
    hide *;
    var n := v.x.Floor;
    DumpNumber(v, t.round, general);
    NumberIsRead(t, i, n);
    DecimalShape(n);
    AtFirst(t.s, i, Decimal(n));
    NumberStep(t, i);
  }

  lemma StringValueIsRead(t: Text, i: nat, v: Value, general: real -> string)
    requires v.String? && At(t.s, i, Dump(v, general))
    ensures t.ParseValue(i, false) == Parsed(v, i + |Dump(v, general)|, false)
  {
    QuotedIsRead(t, i, v.s);
    hide Text.ParseNumber, Text.ParseObject, Text.ParseArray, Text.StringBody, Text.ParseBool, Quoted;
  }

  /** A printed value is read back whole, whatever follows it, as long as no number runs on. */
  lemma {:induction false} ValueIsRead(t: Text, i: nat, v: Value, general: real -> string)
    requires Representable(v, t.round)
    requires At(t.s, i, Dump(v, general)) && Ends(t.s, i + |Dump(v, general)|)
    ensures i + |Dump(v, general)| <= |t.s|
    ensures t.ParseValue(i, false) == Parsed(v, i + |Dump(v, general)|, false)
    decreases v, 1
  {
    hide *;
    AtBound(t.s, i, Dump(v, general));
    match v
    case Null => WordIsRead(t, i, v, general);
    case Bool(_) => WordIsRead(t, i, v, general);
    case Number(_) => NumberValueIsRead(t, i, v, general);
    case String(_) => StringValueIsRead(t, i, v, general);
    case Array(_) => ArrayIsRead(t, i, v, general);
    case Object(_) => ObjectIsRead(t, i, v, general);
  }

  // ---------------------------------------------------------------- arrays

  lemma AfterComma(rest: string, close: string)
    ensures [','] + rest + close == [','] + (rest + close)
  {}

  lemma ItemsCommaFirst(items: seq<Value>, general: real -> string)
    requires |items| > 0
    ensures DumpItems(items, false, general) == [','] + DumpItems(items, true, general)
  {
    hide Dump;
  }

  lemma AfterFirst(d: string, rest: string, close: string)
    ensures "" + (d + rest) + close == d + (rest + close)
  {}

  lemma ItemsSplit(items: seq<Value>, general: real -> string)
    requires |items| > 0
    ensures DumpItems(items, true, general) + "]"
         == Dump(items[0], general)
            + if |items| == 1 then "]" else [','] + (DumpItems(items[1..], true, general) + "]")
  {
    hide Dump;
    AfterFirst(Dump(items[0], general), DumpItems(items[1..], false, general), "]");
    if |items| > 1 {
      ItemsCommaFirst(items[1..], general);
      hide DumpItems;
      AfterComma(DumpItems(items[1..], true, general), "]");
    }
  }

  lemma ItemsStep(t: Text, i: nat, v: Value, end: nat, done: seq<Value>)
    requires i <= |t.s| && end < |t.s| && t.ParseValue(i, false) == Parsed(v, end, false)
    ensures t.s[end] == ',' ==> t.ParseItems(i, false, done) == t.ParseItems(end + 1, false, done + [v])
    ensures t.s[end] == ']' ==> t.ParseItems(i, false, done) == Parsed(done + [v], end + 1, false)
  {
    hide Text.ParseValue;
  }

  lemma AllRepresentable(v: Value, round: real -> Option<real>)
    requires Representable(v, round)
    ensures v.Array? ==> forall k | 0 <= k < |v.items| :: Representable(v.items[k], round)
    ensures v.Object? ==>
              Distinct(v.members) && forall k | 0 <= k < |v.members| :: Representable(v.members[k].value, round)
  {}

  lemma EndsAt(s: string, end: nat)
    requires end < |s| && (s[end] == ',' || s[end] == ']' || s[end] == '}')
    ensures Ends(s, end)
  {}

  lemma {:induction false} ItemsAreRead(t: Text, i: nat, items: seq<Value>, done: seq<Value>,
                                        general: real -> string)
    requires |items| > 0 && forall k | 0 <= k < |items| :: Representable(items[k], t.round)
    requires At(t.s, i, DumpItems(items, true, general) + "]")
    ensures i + |DumpItems(items, true, general)| + 1 <= |t.s|
    ensures t.ParseItems(i, false, done)
         == Parsed(done + items, i + |DumpItems(items, true, general)| + 1, false)
    decreases items, 0
  {
    hide *;
    ItemsSplit(items, general);
    AtBound(t.s, i, DumpItems(items, true, general) + "]");
    var d := Dump(items[0], general);
    var end := i + |d|;
    if |items| == 1 {
      AtSplit(t.s, i, d, "]");
      AtChar(t.s, end, ']');
      EndsAt(t.s, end);
      ValueIsRead(t, i, items[0], general);
      ItemsStep(t, i, items[0], end, done);
      assert done + [items[0]] == done + items;
    } else {
      var rest := DumpItems(items[1..], true, general) + "]";
      AtSplit(t.s, i, d, [','] + rest);
      AtSplit(t.s, end, [','], rest);
      AtChar(t.s, end, ',');
      EndsAt(t.s, end);
      ValueIsRead(t, i, items[0], general);
      ItemsStep(t, i, items[0], end, done);
      ItemsAreRead(t, end + 1, items[1..], done + [items[0]], general);
      assert done + [items[0]] + items[1..] == done + items;
    }
  }

  lemma EmptyArrayIsRead(t: Text, i: nat, v: Value, general: real -> string)
    requires v == Array([]) && At(t.s, i, Dump(v, general))
    ensures t.ParseValue(i, false) == Parsed(v, i + |Dump(v, general)|, false)
  {
    assert Dump(v, general) == ['['] + [']'];
    AtSplit(t.s, i, ['['], [']']);
    AtChar(t.s, i, '[');
    AtChar(t.s, i + 1, ']');
    hide Text.ParseItems, Text.ParseObject;
  }

  lemma ArrayStep(t: Text, i: nat, items: seq<Value>, end: nat)
    requires i + 1 < |t.s| && t.s[i] == '[' && !IsSpace(t.s[i + 1]) && t.s[i + 1] != ']'
    requires t.ParseItems(i + 1, false, []) == Parsed(items, end, false)
    ensures t.ParseValue(i, false) == Parsed(Array(items), end, false)
  {
    hide Text.ParseItems, Text.ParseObject;
  }

  lemma ArraySplit(items: seq<Value>, general: real -> string)
    ensures Dump(Array(items), general) == ['['] + (DumpItems(items, true, general) + "]")
  {
    hide DumpItems;
  }

  lemma {:induction false} ArrayIsRead(t: Text, i: nat, v: Value, general: real -> string)
    requires v.Array? && Representable(v, t.round) && At(t.s, i, Dump(v, general))
    ensures t.ParseValue(i, false) == Parsed(v, i + |Dump(v, general)|, false)
    decreases v, 0
  {
    hide *;
    if |v.items| == 0 {
      EmptyArrayIsRead(t, i, v, general);
    } else {
      var body := DumpItems(v.items, true, general) + "]";
      ArraySplit(v.items, general);
      AtSplit(t.s, i, ['['], body);
      AtChar(t.s, i, '[');
      AllRepresentable(v, t.round);
      assert [] + v.items == v.items;
      ItemsAreRead(t, i + 1, v.items, [], general);
      ItemsSplit(v.items, general);
      IntegerFits(v.items[0], t.round);
      DumpOpens(v.items[0], general);
      AtFirst(t.s, i + 1, body);
      ArrayStep(t, i, v.items, i + |Dump(v, general)|);
    }
  }

  // ---------------------------------------------------------------- objects

  function MemberText(m: Member, general: real -> string): string {
    Quoted(m.key) + ([':'] + Dump(m.value, general))
  }

  lemma Regroup(q: string, d: string, rest: string, close: string)
    ensures "" + (q + (":" + (d + rest))) + close == q + ([':'] + d) + (rest + close)
  {}

  lemma CommaFirst(members: seq<Member>, general: real -> string)
    requires |members| > 0
    ensures DumpMembers(members, false, general) == [','] + DumpMembers(members, true, general)
  {
    hide Dump, Quoted;
  }

  lemma MembersSplit(members: seq<Member>, general: real -> string)
    requires |members| > 0
    ensures DumpMembers(members, true, general) + "}"
         == MemberText(members[0], general)
            + if |members| == 1 then "}" else [','] + (DumpMembers(members[1..], true, general) + "}")
  {
    hide Dump, Quoted;
    Regroup(Quoted(members[0].key), Dump(members[0].value, general), DumpMembers(members[1..], false, general), "}");
    if |members| > 1 {
      CommaFirst(members[1..], general);
      hide DumpMembers;
      AfterComma(DumpMembers(members[1..], true, general), "}");
    }
  }

  lemma Stays(t: Text, i: nat)
    requires i < |t.s| && !IsSpace(t.s[i])
    ensures t.SkipWs(i) == i && t.Peek(i) == t.s[i] && t.Next(i) == i + 1
  {}

  lemma MembersStep(t: Text, i: nat, m: Member, colon: nat, end: nat, done: seq<Member>)
    requires i < colon < end < |t.s| && t.s[i] == '"' && t.s[colon] == ':'
    requires t.StringBody(i + 1) == Parsed(m.key, colon, false)
    requires t.ParseValue(colon + 1, false) == Parsed(m.value, end, false)
    requires forall j | 0 <= j < |done| :: done[j].key != m.key
    ensures t.s[end] == ',' ==> t.ParseMembers(i, false, done) == t.ParseMembers(end + 1, false, done + [m])
    ensures t.s[end] == '}' ==> t.ParseMembers(i, false, done) == Parsed(done + [m], end + 1, false)
  {
    hide Text.SkipWs, Text.Peek, Text.Next, Text.ParseValue, Text.StringBody, With;
    WithNewKey(done, m.key, m.value);
    Stays(t, i);
    Stays(t, colon);
    if t.s[end] == ',' || t.s[end] == '}' {
      Stays(t, end);
    }
  }

  lemma MemberTextSplit(m: Member, general: real -> string)
    ensures MemberText(m, general) == Quoted(m.key) + ([':'] + Dump(m.value, general))
    ensures MemberText(m, general)[0] == '"'
  {
    hide Dump, EscapeAll;
  }

  lemma KeyIsNew(done: seq<Member>, members: seq<Member>)
    requires |members| > 0 && Distinct(done + members)
    ensures forall j | 0 <= j < |done| :: done[j].key != members[0].key
  {
    forall j | 0 <= j < |done|
      ensures done[j].key != members[0].key
    {
      assert (done + members)[j] == done[j] && (done + members)[|done|] == members[0];
    }
  }

  /** One member is read and stored; what follows is for the caller. */
  lemma {:induction false} MemberIsRead(t: Text, i: nat, m: Member, end: nat, done: seq<Member>,
                                        general: real -> string)
    requires Representable(m.value, t.round) && At(t.s, i, MemberText(m, general))
    requires forall j | 0 <= j < |done| :: done[j].key != m.key
    requires end == i + |MemberText(m, general)| < |t.s| && (t.s[end] == ',' || t.s[end] == '}')
    ensures t.s[end] == ',' ==> t.ParseMembers(i, false, done) == t.ParseMembers(end + 1, false, done + [m])
    ensures t.s[end] == '}' ==> t.ParseMembers(i, false, done) == Parsed(done + [m], end + 1, false)
    decreases m.value, 2
  {
    hide *;
    var q, d := Quoted(m.key), Dump(m.value, general);
    MemberTextSplit(m, general);
    AtSplit(t.s, i, q, [':'] + d);
    AtSplit(t.s, i + |q|, [':'], d);
    AtChar(t.s, i + |q|, ':');
    QuotedIsRead(t, i, m.key);
    EndsAt(t.s, end);
    ValueIsRead(t, i + |q| + 1, m.value, general);
    MembersStep(t, i, m, i + |q|, end, done);
  }

  lemma {:induction false} MembersAreRead(t: Text, i: nat, members: seq<Member>, done: seq<Member>,
                                          general: real -> string)
    requires |members| > 0 && Distinct(done + members)
    requires forall k | 0 <= k < |members| :: Representable(members[k].value, t.round)
    requires At(t.s, i, DumpMembers(members, true, general) + "}")
    ensures i + |DumpMembers(members, true, general)| + 1 <= |t.s|
    ensures t.ParseMembers(i, false, done)
         == Parsed(done + members, i + |DumpMembers(members, true, general)| + 1, false)
    decreases members, 0
  {
    hide *;
    MembersSplit(members, general);
    KeyIsNew(done, members);
    AtBound(t.s, i, DumpMembers(members, true, general) + "}");
    var d := MemberText(members[0], general);
    var end := i + |d|;
    if |members| == 1 {
      AtSplit(t.s, i, d, "}");
      AtChar(t.s, end, '}');
      MemberIsRead(t, i, members[0], end, done, general);
      assert done + [members[0]] == done + members;
    } else {
      var rest := DumpMembers(members[1..], true, general) + "}";
      AtSplit(t.s, i, d, [','] + rest);
      AtSplit(t.s, end, [','], rest);
      AtChar(t.s, end, ',');
      MemberIsRead(t, i, members[0], end, done, general);
      assert done + [members[0]] + members[1..] == done + members;
      MembersAreRead(t, end + 1, members[1..], done + [members[0]], general);
    }
  }

  lemma EmptyObjectIsRead(t: Text, i: nat, v: Value, general: real -> string)
    requires v == Object([]) && At(t.s, i, Dump(v, general))
    ensures t.ParseValue(i, false) == Parsed(v, i + |Dump(v, general)|, false)
  {
    assert Dump(v, general) == ['{'] + ['}'];
    AtSplit(t.s, i, ['{'], ['}']);
    AtChar(t.s, i, '{');
    AtChar(t.s, i + 1, '}');
    hide Text.ParseMembers, Text.ParseArray;
  }

  lemma ObjectStep(t: Text, i: nat, members: seq<Member>, end: nat)
    requires i + 1 < |t.s| && t.s[i] == '{' && t.s[i + 1] == '"'
    requires t.ParseMembers(i + 1, false, []) == Parsed(members, end, false)
    ensures t.ParseValue(i, false) == Parsed(Object(members), end, false)
  {
    hide Text.ParseMembers, Text.ParseArray;
  }

  lemma ObjectSplit(members: seq<Member>, general: real -> string)
    ensures Dump(Object(members), general) == ['{'] + (DumpMembers(members, true, general) + "}")
  {
    hide DumpMembers;
  }

  lemma MembersOpen(members: seq<Member>, general: real -> string)
    requires |members| > 0
    ensures (DumpMembers(members, true, general) + "}")[0] == '"'
  {
    hide *;
    MembersSplit(members, general);
    MemberTextSplit(members[0], general);
  }

  lemma {:induction false} ObjectIsRead(t: Text, i: nat, v: Value, general: real -> string)
    requires v.Object? && Representable(v, t.round) && At(t.s, i, Dump(v, general))
    ensures t.ParseValue(i, false) == Parsed(v, i + |Dump(v, general)|, false)
    decreases v, 0
  {
    hide *;
    if |v.members| == 0 {
      EmptyObjectIsRead(t, i, v, general);
    } else {
      var body := DumpMembers(v.members, true, general) + "}";
      ObjectSplit(v.members, general);
      AtSplit(t.s, i, ['{'], body);
      AtChar(t.s, i, '{');
      MembersOpen(v.members, general);
      AtFirst(t.s, i + 1, body);
      AllRepresentable(v, t.round);
      assert [] + v.members == v.members;
      MembersAreRead(t, i + 1, v.members, [], general);
      ObjectStep(t, i, v.members, i + |Dump(v, general)|);
    }
  }

  // ---------------------------------------------------------------- main results

  /** Parsing what was printed gives the value back. */
  lemma RoundTrip(v: Value, round: real -> Option<real>, general: real -> string)
    requires Representable(v, round)
    ensures Text(Dump(v, general), round).Parse() == v
  {
    var t := Text(Dump(v, general), round);
    assert t.s[0..|t.s|] == t.s;
    IntegerFits(v, round);
    DumpOpens(v, general);
    assert t.SkipWs(0) == 0;
    ValueIsRead(t, 0, v, general);
    hide Text.ParseValue, Dump;
  }

  /** Different values print differently. */
  lemma DumpIsInjective(v: Value, w: Value, round: real -> Option<real>, general: real -> string)
    requires Representable(v, round) && Representable(w, round) && Dump(v, general) == Dump(w, general)
    ensures v == w
  {
    RoundTrip(v, round, general);
    RoundTrip(w, round, general);
  }

  // ---------------------------------------------------------------- any text at all

  lemma {:induction false} ValueKeysDiffer(t: Text, i: nat, failed: bool)
    requires i <= |t.s| + 3
    ensures KeysDiffer(t.ParseValue(i, failed).value)
    decreases |t.s| + 4 - i, 1
  {
    hide Text.SkipWs, Text.StringBody, Text.ParseNumber, Text.ParseArray, Text.ParseObject;
    var j := t.SkipWs(i);
    if !failed && j < |t.s| {
      NumberIsNumber(t, j);
      ArrayKeysDiffer(t, j);
      ObjectKeysDiffer(t, j);
    }
  }

  ghost predicate AllKeysDiffer(items: seq<Value>) {
    forall k | 0 <= k < |items| :: KeysDiffer(items[k])
  }

  lemma ArrayOfAll(items: seq<Value>)
    requires AllKeysDiffer(items)
    ensures KeysDiffer(Array(items))
  {}

  lemma OneMore(items: seq<Value>, v: Value)
    requires AllKeysDiffer(items) && KeysDiffer(v)
    ensures AllKeysDiffer(items + [v])
  {
    hide KeysDiffer;
  }

  lemma {:induction false} ArrayKeysDiffer(t: Text, i: nat)
    requires i < |t.s|
    ensures KeysDiffer(t.ParseArray(i).value)
    decreases |t.s| + 4 - i, 0
  {
    hide Text.SkipWs, Text.ParseItems, KeysDiffer;
    var j := t.SkipWs(i + 1);
    assert AllKeysDiffer([]);
    ItemKeysDiffer(t, j, false, []);
    ArrayOfAll([]);
    ArrayOfAll(t.ParseItems(j, false, []).value);
  }

  lemma {:induction false} ObjectKeysDiffer(t: Text, i: nat)
    requires i < |t.s|
    ensures KeysDiffer(t.ParseObject(i).value)
    decreases |t.s| + 4 - i, 0
  {
    hide Text.SkipWs, Text.ParseMembers;
    var j := t.SkipWs(i + 1);
    MemberKeysDiffer(t, j, false, []);
  }

  lemma NumberIsNumber(t: Text, i: nat)
    requires i < |t.s|
    ensures t.ParseNumber(i).value.Null? || t.ParseNumber(i).value.Number?
  {}

  lemma {:induction false} ItemKeysDiffer(t: Text, i: nat, failed: bool, done: seq<Value>)
    requires i <= |t.s| + 3 && AllKeysDiffer(done)
    ensures AllKeysDiffer(t.ParseItems(i, failed, done).value)
    decreases |t.s| + 4 - i, 2
  {
    hide Text.ParseValue, KeysDiffer, AllKeysDiffer;
    var v := t.ParseValue(i, failed);
    ValueKeysDiffer(t, i, failed);
    OneMore(done, v.value);
    var j := t.SkipWs(v.i);
    if t.Peek(j) == ',' {
      ItemKeysDiffer(t, j + 1, v.failed, done + [v.value]);
    }
  }

  lemma {:induction false} WithKeepsValues(members: seq<Member>, key: string, v: Value)
    requires KeysDiffer(v) && forall k | 0 <= k < |members| :: KeysDiffer(members[k].value)
    ensures forall k | 0 <= k < |With(members, key, v)| :: KeysDiffer(With(members, key, v)[k].value)
  {
    hide KeysDiffer;
    if |members| > 0 && members[0].key != key {
      WithKeepsValues(members[1..], key, v);
    }
  }

  lemma {:induction false} MemberKeysDiffer(t: Text, i: nat, failed: bool, done: seq<Member>)
    requires i <= |t.s| + 3
    requires Distinct(done) && forall k | 0 <= k < |done| :: KeysDiffer(done[k].value)
    ensures var members := t.ParseMembers(i, failed, done).value;
            Distinct(members) && forall k | 0 <= k < |members| :: KeysDiffer(members[k].value)
    decreases |t.s| + 4 - i, 2
  {
    hide Text.ParseValue, Text.SkipWs, Text.StringBody, KeysDiffer, Distinct, With;
    var j := t.SkipWs(i);
    if t.Peek(j) == '"' {
      var key := t.StringBody(j + 1);
      var k := t.SkipWs(key.i);
      if t.Peek(k) == ':' {
        var v := t.ParseValue(k + 1, failed || key.failed);
        ValueKeysDiffer(t, k + 1, failed || key.failed);
        WithKeepsDistinct(done, key.value, v.value);
        WithKeepsValues(done, key.value, v.value);
        var m := t.SkipWs(v.i);
        if t.Peek(m) == ',' {
          MemberKeysDiffer(t, m + 1, v.failed, With(done, key.value, v.value));
        }
      }
    }
  }

  /** Whatever the text, printing what was parsed and parsing it again changes nothing, as long
      as the numbers read are integers of 64 bits. */
  lemma ReparseIsStable(t: Text, general: real -> string)
    requires NumbersFit(t.Parse(), t.round)
    ensures Text(Dump(t.Parse(), general), t.round).Parse() == t.Parse()
  {
    ValueKeysDiffer(t, t.SkipWs(0), false);
    RoundTrip(t.Parse(), t.round, general);
  }
}
