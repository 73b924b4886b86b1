/** Go's int32 arithmetic, which the totals of a grade are kept in. */
module GoInt {

  type int32 = x: int | -0x8000_0000 <= x < 0x8000_0000

  /**
   * The int32 that a Go conversion int32(x) yields: the low 32 bits of x, read as two's complement. The recursion,
   * rather than `%`, keeps division out of every proof about totals; WrapIsMod is the closed form.
   */
  function Wrap32(x: int): (r: int32)
    ensures -0x8000_0000 <= x < 0x8000_0000 ==> r == x
    decreases if x >= 0 then x + 1 else if x < -0x8000_0000 then -x else 0
  {
    if x >= 0x8000_0000 then Wrap32(x - 0x1_0000_0000)
    else if x < -0x8000_0000 then Wrap32(x + 0x1_0000_0000)
    else x
  }

  lemma {:induction false} WrapIsMod(x: int)
    ensures Wrap32(x) == (x + 0x8000_0000) % 0x1_0000_0000 - 0x8000_0000
    decreases if x >= 0 then x + 1 else if x < -0x8000_0000 then -x else 0
  {
    if x >= 0x8000_0000 {
      WrapIsMod(x - 0x1_0000_0000);
    } else if x < -0x8000_0000 {
      WrapIsMod(x + 0x1_0000_0000);
    }
  }

  function Add32(a: int32, b: int32): int32 {
    Wrap32(a + b)
  }

  function Sub32(a: int32, b: int32): int32 {
    Wrap32(a - b)
  }

  /** Go's `/` on a positive divisor, which truncates toward zero: how often b fits into a. */
  function TruncDiv(a: int, b: int): int
    requires b > 0
    decreases if a < 0 then 1 - a else a
  {
    if a < 0 then -TruncDiv(-a, b)
    else if a < b then 0
    else 1 + TruncDiv(a - b, b)
  }

  lemma {:induction false} TruncDivFits(a: nat, b: nat)
    requires b > 0
    ensures TruncDiv(a, b) * b <= a < TruncDiv(a, b) * b + b
  {
    if a >= b {
      TruncDivFits(a - b, b);
      var q := TruncDiv(a - b, b);
      assert (1 + q) * b == b + q * b;
    }
  }

  lemma MultipleBelow(d: int, n: int)
    requires n > 0
    ensures d >= 1 ==> d * n >= n
    ensures d <= 0 ==> d * n <= 0
  {
  }

  lemma QuotientIsUnique(a: nat, b: nat, q: int)
    requires b > 0 && q * b <= a < q * b + b
    ensures q == a / b
  {
    var q2 := a / b;
    assert a == q2 * b + a % b;
    MultipleBelow(q - q2, b);
    MultipleBelow(q2 - q, b);
    assert (q - q2) * b == q * b - q2 * b && (q2 - q) * b == q2 * b - q * b;
  }

  lemma TruncDivIsDivision(a: nat, b: nat)
    requires b > 0
    ensures TruncDiv(a, b) == a / b
  {
    hide TruncDiv;
    TruncDivFits(a, b);
    QuotientIsUnique(a, b, TruncDiv(a, b));
  }

  /** Wrapping a partial result early does not change the final one. */
  lemma WrapOfWrap(x: int, y: int)
    ensures Wrap32(Wrap32(x) + y) == Wrap32(x + y)
  {
    hide Wrap32;
    WrapIsMod(x);
    WrapIsMod(Wrap32(x) + y);
    WrapIsMod(x + y);
  }

  lemma AddOfWraps(x: int, y: int)
    ensures Add32(Wrap32(x), Wrap32(y)) == Wrap32(x + y)
  {
    hide Wrap32;
    WrapOfWrap(x, Wrap32(y));
    WrapOfWrap(y, x);
  }

  lemma AddCommutes(a: int32, b: int32, c: int32)
    ensures Add32(Add32(a, b), c) == Add32(Add32(a, c), b)
  {
    hide Wrap32;
    WrapOfWrap(a + b, c);
    WrapOfWrap(a + c, b);
    assert a + b + c == a + c + b;
  }
}
