/** Splitting a byte stream into lines, chunk by chunk. */
module LineSplit {
  import opened Basics

  const LF: Byte := 10
  const CR: Byte := 13

  /** Complete lines, without their line feeds, and what follows the last line feed. */
  datatype Parts = Parts(lines: seq<Bytes>, tail: Bytes)

  function Split(s: Bytes): Parts {
    if |s| == 0 then Parts([], [])
    else
      var before, last := Split(s[..|s| - 1]), s[|s| - 1];
      if last == LF then Parts(before.lines + [before.tail], [])
      else Parts(before.lines, before.tail + [last])
  }

  /** One trailing carriage return is not part of the line. */
  function StripCr(line: Bytes): Bytes {
    if |line| > 0 && line[|line| - 1] == CR then line[..|line| - 1] else line
  }

  function Strip(lines: seq<Bytes>): (r: seq<Bytes>)
    ensures |r| == |lines|
  {
    seq(|lines|, i requires 0 <= i < |lines| => StripCr(lines[i]))
  }

  function Lines(s: Bytes): seq<Bytes> {
    Strip(Split(s).lines)
  }

  function Tail(s: Bytes): Bytes {
    Split(s).tail
  }

  // ---------------------------------------------------------------- meaning

  function Join(lines: seq<Bytes>): Bytes {
    if |lines| == 0 then [] else Join(lines[..|lines| - 1]) + lines[|lines| - 1] + [LF]
  }

  lemma SplitSnoc(s: Bytes, last: Byte)
    ensures Split(s + [last]) == if last == LF then Parts(Split(s).lines + [Split(s).tail], [])
                                 else Parts(Split(s).lines, Split(s).tail + [last])
  {
    assert (s + [last])[..|s|] == s;
  }

  lemma SplitEmpty(s: Bytes)
    requires |s| == 0
    ensures Split(s) == Parts([], [])
  {}

  lemma JoinMore(lines: seq<Bytes>, line: Bytes)
    ensures Join(lines + [line]) == Join(lines) + line + [LF]
  {
    assert (lines + [line])[..|lines|] == lines;
  }

  /** Splitting loses nothing: the lines, each with its line feed back, and the tail are the
      stream. And no line and no tail holds a line feed, so there is no other way to split. */
  lemma {:induction false} SplitIsExact(s: Bytes)
    ensures Join(Split(s).lines) + Split(s).tail == s
    ensures LF !in Split(s).tail && forall line | line in Split(s).lines :: LF !in line
  {
    hide Split;
    if |s| == 0 {
      SplitEmpty(s);
    } else {
      var s', last := s[..|s| - 1], s[|s| - 1];
      SplitIsExact(s');
      SplitSnoc(s', last);
      assert s == s' + [last];
      hide Join;
      JoinMore(Split(s').lines, Split(s').tail);
    }
  }

  /** More bytes complete the tail and nothing else. */
  lemma {:induction false} SplitMore(a: Bytes, b: Bytes)
    ensures Split(a + b).lines == Split(a).lines + Split(Split(a).tail + b).lines
    ensures Split(a + b).tail == Split(Split(a).tail + b).tail
    decreases |b|
  {
    hide Split;
    var t := Split(a).tail;
    SplitIsExact(a);
    NoLf(t);
    if |b| == 0 {
      assert a + b == a && t + b == t;
    } else {
      var b', last := b[..|b| - 1], b[|b| - 1];
      SplitMore(a, b');
      SplitSnoc(a + b', last);
      SplitSnoc(t + b', last);
      assert a + b == (a + b') + [last] && t + b == (t + b') + [last];
    }
  }

  lemma {:induction false} NoLf(s: Bytes)
    requires LF !in s
    ensures Split(s) == Parts([], s)
  {
    hide Split;
    if |s| == 0 {
      SplitEmpty(s);
    } else {
      NoLf(s[..|s| - 1]);
      SplitSnoc(s[..|s| - 1], s[|s| - 1]);
      assert s == s[..|s| - 1] + [s[|s| - 1]];
    }
  }

  /** Lines do not depend on the chunks they arrive in. */
  lemma LinesMore(a: Bytes, b: Bytes)
    ensures Lines(a + b) == Lines(a) + Lines(Tail(a) + b)
    ensures Tail(a + b) == Tail(Tail(a) + b)
  {
    SplitMore(a, b);
    hide Split;
  }

  /** A line is served as it came, but for one carriage return at its end. */
  lemma LineIs(s: Bytes, j: nat)
    requires j < |Split(s).lines|
    ensures |Lines(s)| == |Split(s).lines|
    ensures var came, served := Split(s).lines[j], Lines(s)[j];
            came == served + [13] || (came == served && (|came| == 0 || came[|came| - 1] != 13))
  {
    hide Split;
  }

  // ---------------------------------------------------------------- the splitting loop

  /** Take complete lines off the front of a buffer until no line feed is left in it. */
  method TakeLines(buf: Bytes) returns (lines: seq<Bytes>, rest: Bytes)
    ensures lines == Lines(buf) && rest == Tail(buf)
  {
    lines, rest := [], buf;
    while true
      invariant Lines(buf) == lines + Lines(rest) && Tail(buf) == Tail(rest)
      decreases |rest|
    {
      var pos := Find(rest);
      if pos == |rest| {
        NoLf(rest);
        return;
      }
      FirstLine(rest, pos);
      var line := rest[..pos];
      rest := rest[pos + 1..];
      if |line| > 0 && line[|line| - 1] == CR {
        line := line[..|line| - 1];
      }
      lines := lines + [line];
    }
  }

  /** Position of the first line feed, or the length if there is none. */
  method Find(s: Bytes) returns (n: nat)
    ensures n <= |s| && (n < |s| ==> s[n] == LF) && forall k | 0 <= k < n :: s[k] != LF
  {
    n := 0;
    while n < |s| && s[n] != LF
      invariant n <= |s| && forall k | 0 <= k < n :: s[k] != LF
    {
      n := n + 1;
    }
  }

  lemma FirstLine(s: Bytes, n: nat)
    requires n < |s| && s[n] == LF && forall k | 0 <= k < n :: s[k] != LF
    ensures Lines(s) == [StripCr(s[..n])] + Lines(s[n + 1..]) && Tail(s) == Tail(s[n + 1..])
  {
    hide Split;
    var first, rest := s[..n + 1], s[n + 1..];
    NoLf(s[..n]);
    SplitSnoc(s[..n], LF);
    assert s[..n] + [LF] == first && first + rest == s && [] + rest == rest;
    LinesMore(first, rest);
    assert Strip([s[..n]]) == [StripCr(s[..n])];
  }

  // ---------------------------------------------------------------- the size cap

  /** No run of the stream free of line feeds is longer than `limit`. */
  predicate ShortLines(s: Bytes, limit: nat) {
    forall i, j | 0 <= i <= j <= |s| && LF !in s[i..j] :: j - i <= limit
  }

  /** A stream of short lines never leaves a long tail. */
  lemma ShortTail(s: Bytes, more: Bytes, limit: nat)
    requires ShortLines(s + more, limit)
    ensures |Tail(s)| <= limit
  {
    SplitIsExact(s);
    var i := |s| - |Tail(s)|;
    assert (s + more)[i..|s|] == Tail(s);
  }
}
