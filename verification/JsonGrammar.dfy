/** What the parser makes of any text, position by position: the value, the cursor after it and
    whether the failure flag is set. */
module JsonGrammar {
  import opened Basics
  import opened JsonNumber
  import opened JsonValue

  datatype Parsed<+T> = Parsed(value: T, i: nat, failed: bool)

  predicate IsSpace(c: char) {
    c == ' ' || c == '\t' || c == '\n' || c == '\r'
  }

  predicate IsNumberChar(c: char) {
    IsDigit(c) || c == '.' || c == 'e' || c == 'E' || c == '+' || c == '-'
  }

  function Nibble(h: char): (d: nat)
    ensures d < 16
  {
    if '0' <= h <= '9' then h as int - '0' as int
    else if 'a' <= h <= 'f' then h as int - 'a' as int + 10
    else if 'A' <= h <= 'F' then h as int - 'A' as int + 10
    else 0
  }

  function HexCode(t: string): nat {
    if |t| == 0 then 0 else HexCode(t[..|t| - 1]) * 16 + Nibble(t[|t| - 1])
  }

  /** Code points past Basic Latin become a question mark. */
  function Latin(code: nat): char {
    if code < 128 then code as char else '?'
  }

  function Unescape(c: char): char {
    if c == 'n' then '\n' else if c == 't' then '\t' else if c == 'r' then '\r' else c
  }

  /** A text and the rounding to doubles; None stands for a value out of range. */
  datatype Text = Text(s: string, round: real -> Option<real>) {

    function Peek(i: nat): char {
      if i < |s| then s[i] else '\0'
    }

    /** The cursor after reading one character, which stays at the end. */
    function Next(i: nat): nat {
      if i < |s| then i + 1 else i
    }

    function SkipWs(i: nat): (r: nat)
      ensures i <= r && (r <= |s| || r == i)
      ensures r < |s| ==> !IsSpace(s[r])
      decreases |s| - i
    {
      if i < |s| && IsSpace(s[i]) then SkipWs(i + 1) else i
    }

    /** From behind the opening quote. */
    function StringBody(i: nat): (r: Parsed<string>)
      requires i <= |s|
      ensures i <= r.i <= |s| && (r.failed ==> r.i == |s|)
      decreases |s| - i
    {
      if i == |s| then Parsed("", i, true)
      else if s[i] == '"' then Parsed("", i + 1, false)
      else if s[i] != '\\' || i + 1 == |s| then Before([s[i]], StringBody(i + 1))
      else if s[i + 1] != 'u' then Before([Unescape(s[i + 1])], StringBody(i + 2))
      else if i + 6 <= |s| then Before([Latin(HexCode(s[i + 2..i + 6]))], StringBody(i + 6))
      else StringBody(i + 2)
    }

    static function Before(t: string, rest: Parsed<string>): Parsed<string> {
      rest.(value := t + rest.value)
    }

    function ParseBool(i: nat): (r: Parsed<Value>)
      requires i < |s|
      ensures i <= r.i <= |s|
    {
      if i + 4 <= |s| && s[i..i + 4] == "true" then Parsed(Bool(true), i + 4, false)
      else if i + 5 <= |s| && s[i..i + 5] == "false" then Parsed(Bool(false), i + 5, false)
      else Parsed(Null, i, true)
    }

    function NumberEnd(i: nat): (r: nat)
      requires i <= |s|
      ensures i <= r <= |s|
      ensures forall j | i <= j < r :: IsNumberChar(s[j])
      ensures r < |s| ==> !IsNumberChar(s[r])
      decreases |s| - i
    {
      if i < |s| && IsNumberChar(s[i]) then NumberEnd(i + 1) else i
    }

    function Stod(t: string): Option<real> {
      match Strtod(t)
      case None => None
      case Some(x) => round(x)
    }

    function ParseNumber(i: nat): (r: Parsed<Value>)
      requires i < |s|
      ensures i <= r.i <= |s|
    {
      var end := NumberEnd(if s[i] == '-' then i + 1 else i);
      if end == i then Parsed(Null, i, true)
      else
        match Stod(s[i..end])
        case None => Parsed(Null, end, true)
        case Some(x) => Parsed(Number(x), end, false)
    }

    /** The cursor never moves back, ends at most three past the end, and the failure flag
        stays set. */
    function ParseValue(i: nat, failed: bool): (r: Parsed<Value>)
      requires i <= |s| + 3
      ensures i <= r.i <= |s| + 3 && (failed ==> r.failed)
      decreases |s| + 4 - i, 1
    {
      var j := SkipWs(i);
      if failed || j >= |s| then Parsed(Null, j, true)
      else if s[j] == '{' then ParseObject(j)
      else if s[j] == '[' then ParseArray(j)
      else if s[j] == '"' then
        var t := StringBody(j + 1);
        Parsed(String(t.value), t.i, t.failed)
      else if s[j] == 't' || s[j] == 'f' then ParseBool(j)
      else if s[j] == 'n' then Parsed(Null, j + 4, false)
      else ParseNumber(j)
    }

    function ParseArray(i: nat): (r: Parsed<Value>)
      requires i < |s|
      ensures i < r.i <= |s| + 3
      decreases |s| + 4 - i, 0
    {
      var j := SkipWs(i + 1);
      if Peek(j) == ']' then Parsed(Array([]), j + 1, false)
      else
        var items := ParseItems(j, false, []);
        Parsed(Array(items.value), items.i, items.failed)
    }

    /** The rest of an array whose first items are `done`. */
    function ParseItems(i: nat, failed: bool, done: seq<Value>): (r: Parsed<seq<Value>>)
      requires i <= |s| + 3
      ensures i <= r.i <= |s| + 3 && (failed ==> r.failed)
      decreases |s| + 4 - i, 2
    {
      var v := ParseValue(i, failed);
      var j := SkipWs(v.i);
      if Peek(j) == ',' then ParseItems(j + 1, v.failed, done + [v.value])
      else Parsed(done + [v.value], Next(j), v.failed || Peek(j) != ']')
    }

    function ParseObject(i: nat): (r: Parsed<Value>)
      requires i < |s|
      ensures i < r.i <= |s| + 3
      decreases |s| + 4 - i, 0
    {
      var j := SkipWs(i + 1);
      if Peek(j) == '}' then Parsed(Object([]), j + 1, false)
      else
        var members := ParseMembers(j, false, []);
        Parsed(Object(members.value), members.i, members.failed)
    }

    function ParseMembers(i: nat, failed: bool, done: seq<Member>): (r: Parsed<seq<Member>>)
      requires i <= |s| + 3
      ensures i <= r.i <= |s| + 3 && (failed ==> r.failed)
      decreases |s| + 4 - i, 2
    {
      var j := SkipWs(i);
      if Peek(j) != '"' then Parsed(done, j, true)
      else
        var key := StringBody(j + 1);
        var k := SkipWs(key.i);
        if Peek(k) != ':' then Parsed(done, Next(k), true)
        else
          var v := ParseValue(k + 1, failed || key.failed);
          var m := SkipWs(v.i);
          var more := With(done, key.value, v.value);
          if Peek(m) == ',' then ParseMembers(m + 1, v.failed, more)
          else Parsed(more, Next(m), v.failed || Peek(m) != '}')
    }

    function Parse(): Value {
      ParseValue(SkipWs(0), false).value
    }
  }
}
