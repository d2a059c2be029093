/** Integers of Java and C: 32 bits, with division and remainder that truncate toward zero. */
module MachineInt {
  const LOW := -0x8000_0000
  const HIGH := 0x7FFF_FFFF

  type Int32 = x: int | LOW <= x <= HIGH

  function Abs(a: int): nat {
    if a < 0 then -a else a
  }

  function Quot(a: int, b: int): int
    requires b != 0
  {
    if (a < 0) == (b < 0) then Abs(a) / Abs(b) else -(Abs(a) / Abs(b))
  }

  function Rem(a: int, b: int): (r: int)
    requires b != 0
    ensures a >= 0 ==> 0 <= r < Abs(b)
    ensures a <= 0 ==> 0 <= -r < Abs(b)
  {
    if a < 0 then -(Abs(a) % Abs(b)) else Abs(a) % Abs(b)
  }

  lemma DivisionIdentity(a: nat, b: int)
    requires b > 0
    ensures a == b * (a / b) + a % b
  {}

  lemma SignedProducts(b: int, q: int)
    ensures (-b) * q == -(b * q) && b * (-q) == -(b * q)
  {}

  /** Truncation is the division that leaves a remainder with the sign of the dividend. */
  lemma QuotRem(a: int, b: int)
    requires b != 0
    ensures a == b * Quot(a, b) + Rem(a, b)
    ensures Abs(Rem(a, b)) < Abs(b) && (Rem(a, b) == 0 || (Rem(a, b) < 0) == (a < 0))
  {
    var q := Abs(a) / Abs(b);
    DivisionIdentity(Abs(a), Abs(b));
    SignedProducts(b, q);
  }

  /** What is left of a result after it is stored in 32 bits. */
  function Wrap(x: int): (r: Int32)
    ensures LOW <= x <= HIGH ==> r == x
    ensures (r - x) % 0x1_0000_0000 == 0
  {
    var m := x % 0x1_0000_0000;
    if m > HIGH then m - 0x1_0000_0000 else m
  }

  /** `Wrapping` is Java's arithmetic, `Unbounded` the arithmetic of the integers. */
  datatype Arithmetic = Wrapping | Unbounded

  function Store(ar: Arithmetic, x: int): int {
    if ar == Wrapping then Wrap(x) else x
  }

  function Add(ar: Arithmetic, a: int, b: int): int { Store(ar, a + b) }
  function Sub(ar: Arithmetic, a: int, b: int): int { Store(ar, a - b) }
  function Mul(ar: Arithmetic, a: int, b: int): int { Store(ar, a * b) }
  function Div(ar: Arithmetic, a: int, b: int): int requires b != 0 { Store(ar, Quot(a, b)) }
  function Mod(ar: Arithmetic, a: int, b: int): int requires b != 0 { Store(ar, Rem(a, b)) }

  // ----- signed arithmetic of C: leaving the range is undefined, so it is a precondition -----

  predicate Fits(x: int) {
    LOW <= x <= HIGH
  }

  function CAdd(a: Int32, b: Int32): Int32 requires Fits(a + b) { a + b }
  function CSub(a: Int32, b: Int32): Int32 requires Fits(a - b) { a - b }
  function CMul(a: Int32, b: Int32): Int32 requires Fits(a * b) { a * b }
  function CDiv(a: Int32, b: Int32): Int32 requires b != 0 && Fits(Quot(a, b)) { Quot(a, b) }
  function CMod(a: Int32, b: Int32): Int32 requires b != 0 && Fits(Rem(a, b)) { Rem(a, b) }

  lemma ProductBounds(a: int, b: int, la: int, ha: int, lb: int, hb: int)
    requires 0 <= la <= a <= ha && 0 <= lb <= b <= hb
    ensures la * lb <= a * b <= ha * hb
  {
    assert la * lb <= a * lb <= a * b;
    assert a * b <= ha * b <= ha * hb;
  }
}
