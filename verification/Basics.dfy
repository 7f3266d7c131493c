/** Types shared by several components. */
module Basics {

  datatype Option<+T> = None | Some(value: T)

  type Byte = x: int | 0 <= x < 256

  type Bytes = seq<Byte>

  type Sample = x: int | -32768 <= x <= 32767

  /** How often `x` occurs. */
  ghost function Times<T>(s: seq<T>, x: T): nat {
    if |s| == 0 then 0 else Times(s[..|s| - 1], x) + if s[|s| - 1] == x then 1 else 0
  }

  lemma {:induction false} TimesConcat<T>(a: seq<T>, b: seq<T>, x: T)
    ensures Times(a + b, x) == Times(a, x) + Times(b, x)
    decreases |b|
  {
    if |b| == 0 {
      assert a + b == a;
    } else {
      assert (a + b)[..|a + b| - 1] == a + b[..|b| - 1];
      TimesConcat(a, b[..|b| - 1], x);
    }
  }

  lemma TimesOne<T>(y: T, x: T)
    ensures Times([y], x) == (if y == x then 1 else 0) && Times([], x) == 0
  {
    assert [y][..0] == [];
  }

  lemma {:induction false} TimesNone<T>(s: seq<T>, x: T)
    requires x !in s
    ensures Times(s, x) == 0
  {
    if |s| > 0 {
      TimesNone(s[..|s| - 1], x);
    }
  }
}
