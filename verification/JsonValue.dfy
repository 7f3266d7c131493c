/** JSON values and their printed form. Strings are byte strings; the model admits any character. */
module JsonValue {
  import opened Basics

  datatype Member = Member(key: string, value: Value)

  /** Numbers are the exact value of the source's double. */
  datatype Value =
    | Null
    | Bool(b: bool)
    | Number(x: real)
    | String(s: string)
    | Array(items: seq<Value>)
    | Object(members: seq<Member>)

  // ---------------------------------------------------------------- objects

  function Find(members: seq<Member>, key: string): (v: Option<Value>)
    ensures v == None <==> forall j | 0 <= j < |members| :: members[j].key != key
  {
    if |members| == 0 then None
    else if members[0].key == key then Some(members[0].value)
    else Find(members[1..], key)
  }

  /** The object after `set`: the first member with this key takes the value, or a new member
      goes to the end. */
  function With(members: seq<Member>, key: string, v: Value): seq<Member> {
    if |members| == 0 then [Member(key, v)]
    else if members[0].key == key then [Member(key, v)] + members[1..]
    else [members[0]] + With(members[1..], key, v)
  }

  function Keys(members: seq<Member>): (ks: seq<string>)
    ensures |ks| == |members| && forall j | 0 <= j < |ks| :: ks[j] == members[j].key
  {
    seq(|members|, j requires 0 <= j < |members| => members[j].key)
  }

  ghost predicate Distinct(members: seq<Member>) {
    forall j, k | 0 <= j < k < |members| :: members[j].key != members[k].key
  }

  /** `set` then `find` is a map update: the key now has the value, every other key what it had. */
  lemma {:induction false} WithIsUpdate(members: seq<Member>, key: string, v: Value, other: string)
    ensures Find(With(members, key, v), other) == if other == key then Some(v) else Find(members, other)
  {
    if |members| > 0 && members[0].key != key {
      WithIsUpdate(members[1..], key, v, other);
    }
  }

  /** Keys keep their places; a new key goes last. */
  lemma {:induction false} WithKeepsOrder(members: seq<Member>, key: string, v: Value)
    ensures Keys(With(members, key, v)) == if key in Keys(members) then Keys(members) else Keys(members) + [key]
  {
    if |members| > 0 && members[0].key != key {
      WithKeepsOrder(members[1..], key, v);
      assert Keys(members) == [members[0].key] + Keys(members[1..]);
    }
  }

  lemma WithKeepsDistinct(members: seq<Member>, key: string, v: Value)
    requires Distinct(members)
    ensures Distinct(With(members, key, v))
  {
    WithKeepsOrder(members, key, v);
    ghost var after := With(members, key, v);
    forall j, k | 0 <= j < k < |after|
      ensures after[j].key != after[k].key
    {
      assert after[j].key == Keys(after)[j] && after[k].key == Keys(after)[k];
    }
  }

  lemma {:induction false} WithNewKey(members: seq<Member>, key: string, v: Value)
    requires forall j | 0 <= j < |members| :: members[j].key != key
    ensures With(members, key, v) == members + [Member(key, v)]
  {
    if |members| > 0 {
      WithNewKey(members[1..], key, v);
    }
  }

  lemma {:induction false} WithKnownKey(members: seq<Member>, k: nat, key: string, v: Value)
    requires k < |members| && members[k].key == key && forall j | 0 <= j < k :: members[j].key != key
    ensures With(members, key, v) == members[k := Member(key, v)]
  {
    if k > 0 {
      WithKnownKey(members[1..], k - 1, key, v);
    }
  }

  class ObjectBuilder {
    var members: seq<Member>

    constructor ()
      ensures members == []
    {
      members := [];
    }

    method Set(key: string, v: Value)
      modifies this
      ensures members == With(old(members), key, v)
    {
      var k := 0;
      while k < |members|
        invariant 0 <= k <= |members| && members == old(members)
        invariant forall j | 0 <= j < k :: members[j].key != key
      {
        if members[k].key == key {
          WithKnownKey(members, k, key, v);
          members := members[k := Member(key, v)];
          return;
        }
        k := k + 1;
      }
      WithNewKey(members, key, v);
      members := members + [Member(key, v)];
    }
  }

  // ---------------------------------------------------------------- printing

  const LONG_LONG_LIMIT := 0x8000_0000_0000_0000

  function Digit(d: nat): (c: char)
    requires d < 10
    ensures '0' <= c <= '9' && c as int - '0' as int == d
  {
    ('0' as int + d) as char
  }

  function Digits(n: nat): (t: string)
    ensures |t| > 0 && forall j | 0 <= j < |t| :: '0' <= t[j] <= '9'
  {
    if n < 10 then [Digit(n)] else Digits(n / 10) + [Digit(n % 10)]
  }

  function Decimal(n: int): string {
    if n < 0 then "-" + Digits(-n) else Digits(n)
  }

  predicate IsLongLong(x: real) {
    x.Floor as real == x && -LONG_LONG_LIMIT <= x.Floor < LONG_LONG_LIMIT
  }

  function HexDigit(d: nat): (c: char)
    requires d < 16
  {
    if d < 10 then ('0' as int + d) as char else ('a' as int + (d - 10)) as char
  }

  function Escape(c: char): (t: string)
    ensures |t| > 0
  {
    if c == '"' then "\\\""
    else if c == '\\' then "\\\\"
    else if c == '\n' then "\\n"
    else if c == '\r' then "\\r"
    else if c == '\t' then "\\t"
    else if c < ' ' then "\\u00" + [HexDigit(c as int / 16), HexDigit(c as int % 16)]
    else [c]
  }

  function EscapeAll(s: string): string {
    if |s| == 0 then "" else Escape(s[0]) + EscapeAll(s[1..])
  }

  function Quoted(s: string): string {
    "\"" + EscapeAll(s) + "\""
  }

  /** A printed value; `general` prints the numbers that are not integers of 64 bits. */
  function Dump(v: Value, general: real -> string): string
    decreases v
  {
    match v
    case Null => "null"
    case Bool(b) => if b then "true" else "false"
    case Number(x) => if IsLongLong(x) then Decimal(x.Floor) else general(x)
    case String(s) => Quoted(s)
    case Array(items) => "[" + DumpItems(items, true, general) + "]"
    case Object(members) => "{" + DumpMembers(members, true, general) + "}"
  }

  function Comma(first: bool): string {
    if first then "" else ","
  }

  function DumpItems(items: seq<Value>, first: bool, general: real -> string): string
    decreases items
  {
    if |items| == 0 then ""
    else Comma(first) + (Dump(items[0], general) + DumpItems(items[1..], false, general))
  }

  function DumpMembers(members: seq<Member>, first: bool, general: real -> string): string
    decreases members
  {
    if |members| == 0 then ""
    else
      Comma(first)
      + (Quoted(members[0].key) + (":" + (Dump(members[0].value, general) + DumpMembers(members[1..], false, general))))
  }

  /** The buffer the printer appends to. */
  class Writer {
    var out: string

    constructor ()
      ensures out == ""
    {
      out := "";
    }

    method EscapeInto(s: string)
      modifies this
      ensures out == old(out) + Quoted(s)
    {
      hide Escape;
      out := out + "\"";
      ghost var start := out;
      var k := 0;
      while k < |s|
        invariant 0 <= k <= |s|
        invariant out + EscapeAll(s[k..]) == start + EscapeAll(s)
      {
        EscapeNext(out, s[k..]);
        assert s[k..][1..] == s[k + 1..];
        out := out + Escape(s[k]);
        k := k + 1;
      }
      assert out == start + EscapeAll(s);
      out := out + "\"";
      Enclose(old(out), "\"", EscapeAll(s), "\"");
    }

    method DumpInto(v: Value, general: real -> string)
      modifies this
      ensures out == old(out) + Dump(v, general)
      decreases v, 0
    {
      match v {
        case Null => out := out + "null";
        case Bool(b) => out := out + if b then "true" else "false";
        case Number(x) => out := out + if IsLongLong(x) then Decimal(x.Floor) else general(x);
        case String(s) => EscapeInto(s);
        case Array(items) => DumpItemsInto(items, general);
        case Object(members) => DumpMembersInto(members, general);
      }
    }

    method DumpItemsInto(items: seq<Value>, general: real -> string)
      modifies this
      ensures out == old(out) + ("[" + DumpItems(items, true, general) + "]")
      decreases items, 1
    {
      hide Dump;
      out := out + "[";
      ghost var start := out;
      var first, k := true, 0;
      while k < |items|
        invariant 0 <= k <= |items|
        invariant out + DumpItems(items[k..], first, general) == start + DumpItems(items, true, general)
      {
        DumpItemsNext(out, items[k..], first, general);
        assert items[k..][1..] == items[k + 1..];
        if !first {
          out := out + ",";
        }
        first := false;
        DumpInto(items[k], general);
        k := k + 1;
      }
      assert out == start + DumpItems(items, true, general);
      out := out + "]";
      Enclose(old(out), "[", DumpItems(items, true, general), "]");
    }

    method DumpMembersInto(members: seq<Member>, general: real -> string)
      modifies this
      ensures out == old(out) + ("{" + DumpMembers(members, true, general) + "}")
      decreases members, 1
    {
      hide Dump, Quoted;
      out := out + "{";
      ghost var start := out;
      var first, k := true, 0;
      while k < |members|
        invariant 0 <= k <= |members|
        invariant out + DumpMembers(members[k..], first, general) == start + DumpMembers(members, true, general)
      {
        DumpMembersNext(out, members[k..], first, general);
        assert members[k..][1..] == members[k + 1..];
        if !first {
          out := out + ",";
        }
        first := false;
        EscapeInto(members[k].key);
        out := out + ":";
        DumpInto(members[k].value, general);
        k := k + 1;
      }
      assert out == start + DumpMembers(members, true, general);
      out := out + "}";
      Enclose(old(out), "{", DumpMembers(members, true, general), "}");
    }
  }

  lemma Enclose(out: string, open: string, body: string, close: string)
    ensures out + open + body + close == out + (open + body + close)
  {}

  lemma EscapeNext(out: string, s: string)
    requires |s| > 0
    ensures out + Escape(s[0]) + EscapeAll(s[1..]) == out + EscapeAll(s)
  {
    hide Escape;
  }

  lemma DumpItemsNext(out: string, items: seq<Value>, first: bool, general: real -> string)
    requires |items| > 0
    ensures (if first then out else out + ",") + Dump(items[0], general) + DumpItems(items[1..], false, general)
         == out + DumpItems(items, first, general)
  {
    hide Dump;
  }

  lemma DumpMembersNext(out: string, members: seq<Member>, first: bool, general: real -> string)
    requires |members| > 0
    ensures (if first then out else out + ",") + Quoted(members[0].key) + ":" + Dump(members[0].value, general)
            + DumpMembers(members[1..], false, general)
         == out + DumpMembers(members, first, general)
  {
    hide Dump, Quoted;
  }
}
