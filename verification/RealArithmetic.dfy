/** Facts about products and quotients of reals, stated one step at a time. */
module RealArithmetic {
  lemma NonNegative(a: real, b: real)
    requires a >= 0.0 && b > 0.0
    ensures a * b >= 0.0 && a / b >= 0.0
  {}

  lemma Scale(a: real, b: real, c: real)
    requires a <= b && c > 0.0
    ensures a * c <= b * c
  {}

  lemma ScaleStrict(a: real, b: real, c: real)
    requires a < b && c > 0.0
    ensures a * c < b * c
  {}

  lemma Divided(a: real, b: real)
    requires b > 0.0
    ensures a / b * b == a
  {}

  lemma Multiplied(a: real, b: real)
    requires b > 0.0
    ensures a * b / b == a
  {}

  lemma OneMore(x: real, c: real)
    ensures (x + 1.0) * c == x * c + c
  {}

  lemma DivideMonotone(a: real, b: real, c: real)
    requires c > 0.0
    ensures a < b * c ==> a / c < b
    ensures a <= b * c ==> a / c <= b
    ensures a >= b * c ==> a / c >= b
    ensures a > 0.0 ==> a / c > 0.0
  {
    var x := a / c;
    Divided(a, c);
    if x >= b {
      Scale(b, x, c);
    }
    if x > b {
      ScaleStrict(b, x, c);
    }
    if x < b {
      ScaleStrict(x, b, c);
    }
    if x <= 0.0 {
      Scale(x, 0.0, c);
    }
  }
}
