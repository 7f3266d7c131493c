/** The recursive-descent parser: a cursor and a failure flag over one text. */
module JsonParser {
  import opened JsonGrammar
  import opened JsonValue

  lemma Append(out: string, piece: string, rest: Parsed<string>)
    ensures Text.Before(out + piece, rest) == Text.Before(out, Text.Before(piece, rest))
  {
    assert out + piece + rest.value == out + (piece + rest.value);
  }

  class Parser {
    const t: Text
    const s: string
    var i: nat
    var failed: bool

    constructor (text: Text)
      ensures t == text && s == t.s && i == 0 && !failed
    {
      t, s, i, failed := text, text.s, 0, false;
    }

    /** The cursor may stand up to three past the end. */
    ghost predicate Valid()
      reads this
    {
      s == t.s && i <= |s| + 3
    }

    function Peek(): (c: char)
      reads this
      ensures s == t.s ==> c == t.Peek(i)
      ensures c != '\0' ==> i < |s|
    {
      if i < |s| then s[i] else '\0'
    }

    method Get() returns (c: char)
      requires Valid()
      modifies this`i
      ensures Valid() && c == t.Peek(old(i)) && i == t.Next(old(i))
      ensures i >= old(i) && (c != '\0' ==> i == old(i) + 1)
    {
      c := '\0';
      if i < |s| {
        c := s[i];
        i := i + 1;
      }
    }

    method SkipWs()
      requires Valid()
      modifies this`i
      ensures Valid() && i == t.SkipWs(old(i))
    {
      while i < |s| && IsSpace(s[i])
        invariant Valid() && t.SkipWs(i) == t.SkipWs(old(i))
      {
        i := i + 1;
      }
    }

    /** Set the cursor and the flag as the grammar says they are after `r`. */
    twostate predicate Reached<T>(r: Parsed<T>)
      reads this
    {
      Valid() && i == r.i && failed == (old(failed) || r.failed)
    }

    method ParseHex() returns (code: nat)
      requires Valid() && i + 4 <= |s|
      modifies this`i
      ensures Valid() && i == old(i) + 4 && code == HexCode(s[old(i)..i])
    {
      hide Nibble;
      code := 0;
      var k := 0;
      while k < 4
        invariant 0 <= k <= 4 && i == old(i) + k && code == HexCode(s[old(i)..i])
      {
        code := code * 16 + Nibble(s[i]);
        i := i + 1;
        assert s[old(i)..i][..k] == s[old(i)..i - 1];
        k := k + 1;
      }
    }

    /** One character or escape inside a string. */
    method ParseChar(out: string) returns (longer: string)
      requires Valid() && i < |s| && s[i] != '"'
      modifies this`i
      ensures Valid() && old(i) < i <= |s|
      ensures Text.Before(longer, t.StringBody(i)) == Text.Before(out, t.StringBody(old(i)))
    {
      hide HexCode, Latin, Unescape;
      var c := s[i];
      i := i + 1;
      if c == '\\' && i < |s| {
        var esc := s[i];
        i := i + 1;
        if esc != 'u' {
          longer := out + [Unescape(esc)];
          Append(out, [Unescape(esc)], t.StringBody(i));
        } else if i + 4 <= |s| {
          var code := ParseHex();
          longer := out + [Latin(code)];
          Append(out, [Latin(code)], t.StringBody(i));
        } else {
          longer := out;
        }
      } else {
        longer := out + [c];
        Append(out, [c], t.StringBody(i));
      }
    }

    method ParseString() returns (out: string)
      requires Valid() && i < |s|
      modifies this
      ensures Reached(t.StringBody(old(i) + 1)) && out == t.StringBody(old(i) + 1).value
    {
      out := "";
      i := i + 1;
      ghost var whole := t.StringBody(i);
      assert "" + whole.value == whole.value;
      while i < |s| && s[i] != '"'
        invariant i <= |s| && Valid() && failed == old(failed)
        invariant Text.Before(out, t.StringBody(i)) == whole
        decreases |s| - i
      {
        out := ParseChar(out);
      }
      if i < |s| {
        i := i + 1;
      } else {
        failed := true;
      }
    }

    method ParseBool() returns (v: Value)
      requires Valid() && i < |s|
      modifies this
      ensures Reached(t.ParseBool(old(i))) && v == t.ParseBool(old(i)).value
    {
      if i + 4 <= |s| && s[i..i + 4] == "true" {
        i := i + 4;
        return Bool(true);
      }
      if i + 5 <= |s| && s[i..i + 5] == "false" {
        i := i + 5;
        return Bool(false);
      }
      failed := true;
      v := Null;
    }

    method ParseNumber() returns (v: Value)
      requires Valid() && i < |s|
      modifies this
      ensures Reached(t.ParseNumber(old(i))) && v == t.ParseNumber(old(i)).value
    {
      var start := i;
      if Peek() == '-' {
        i := i + 1;
      }
      ghost var from := i;
      while i < |s| && IsNumberChar(s[i])
        invariant start <= i <= |s| && failed == old(failed) && t.NumberEnd(i) == t.NumberEnd(from)
      {
        i := i + 1;
      }
      if i == start {
        failed := true;
        return Null;
      }
      match t.Stod(s[start..i]) {
        case Some(x) => v := Number(x);
        case None =>
          failed := true;
          v := Null;
      }
    }

    method ParseValue() returns (v: Value)
      requires Valid()
      modifies this
      ensures Reached(t.ParseValue(old(i), old(failed))) && v == t.ParseValue(old(i), old(failed)).value
      decreases |s| + 4 - i, 1
    {
      hide Text.SkipWs, Text.StringBody, Text.ParseNumber, Text.ParseBool, Text.ParseObject, Text.ParseArray;
      SkipWs();
      if failed || i >= |s| {
        failed := true;
        return Null;
      }
      var c := Peek();
      if c == '{' {
        v := ParseObject();
      } else if c == '[' {
        v := ParseArray();
      } else if c == '"' {
        var text := ParseString();
        v := String(text);
      } else if c == 't' || c == 'f' {
        v := ParseBool();
      } else if c == 'n' {
        i := i + 4;
        v := Null;
      } else {
        v := ParseNumber();
      }
    }

    method ParseArray() returns (v: Value)
      requires Valid() && i < |s| && !failed
      modifies this
      ensures Reached(t.ParseArray(old(i))) && v == t.ParseArray(old(i)).value
      decreases |s| + 4 - i, 0
    {
      hide Text.SkipWs, Text.Peek, Text.Next, Text.ParseValue;
      i := i + 1;
      SkipWs();
      if Peek() == ']' {
        i := i + 1;
        return Array([]);
      }
      var items: seq<Value> := [];
      ghost var whole := t.ParseItems(i, false, []);
      while true
        invariant old(i) < i && Valid() && t.ParseItems(i, failed, items) == whole
        decreases |s| + 4 - i
      {
        var item := ParseValue();
        items := items + [item];
        SkipWs();
        var c := Get();
        if c == ',' {
          continue;
        }
        if c == ']' {
          break;
        }
        failed := true;
        break;
      }
      v := Array(items);
    }

    /** One turn of the object loop; `more` says that a comma asks for another. */
    method ParseMember(built: ObjectBuilder) returns (more: bool)
      requires Valid()
      modifies this, built
      ensures Valid() && i >= old(i)
      ensures more ==> i > old(i) && t.ParseMembers(old(i), old(failed), old(built.members))
                                  == t.ParseMembers(i, failed, built.members)
      ensures !more ==> t.ParseMembers(old(i), old(failed), old(built.members)) == Parsed(built.members, i, failed)
      decreases |s| + 4 - i, 2
    {
      hide Text.SkipWs, Text.Peek, Text.Next, Text.StringBody, Text.ParseValue, With;
      SkipWs();
      if Peek() != '"' {
        failed := true;
        return false;
      }
      var key := ParseString();
      SkipWs();
      var colon := Get();
      if colon != ':' {
        failed := true;
        return false;
      }
      var value := ParseValue();
      built.Set(key, value);
      SkipWs();
      var c := Get();
      more := c == ',';
      if c != ',' && c != '}' {
        failed := true;
      }
    }

    method ParseObject() returns (v: Value)
      requires Valid() && i < |s| && !failed
      modifies this
      ensures Reached(t.ParseObject(old(i))) && v == t.ParseObject(old(i)).value
      decreases |s| + 4 - i, 0
    {
      hide Text.SkipWs, Text.ParseMembers;
      i := i + 1;
      SkipWs();
      if Peek() == '}' {
        i := i + 1;
        return Object([]);
      }
      var built := new ObjectBuilder();
      ghost var whole := t.ParseMembers(i, false, []);
      var more := true;
      while more
        invariant old(i) < i && Valid()
        invariant whole == if more then t.ParseMembers(i, failed, built.members) else Parsed(built.members, i, failed)
        decreases |s| + 4 - i, more
      {
        more := ParseMember(built);
      }
      v := Object(built.members);
    }

    method Parse() returns (v: Value)
      requires Valid() && i == 0 && !failed
      modifies this
      ensures v == t.Parse()
    {
      SkipWs();
      v := ParseValue();
    }
  }
}
