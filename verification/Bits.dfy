/** Bit operations on natural numbers of any width, bit by bit. */
module Bits {
  function Pow2(n: nat): (p: nat)
    ensures p >= 1
  {
    if n == 0 then 1 else 2 * Pow2(n - 1)
  }

  function And(a: nat, b: nat): nat
    decreases a
  {
    if a == 0 || b == 0 then 0 else 2 * And(a / 2, b / 2) + if a % 2 == 1 && b % 2 == 1 then 1 else 0
  }

  function Or(a: nat, b: nat): nat
    decreases a
  {
    if a == 0 then b else if b == 0 then a else 2 * Or(a / 2, b / 2) + if a % 2 == 1 || b % 2 == 1 then 1 else 0
  }

  function ShiftLeft(a: nat, n: nat): nat {
    a * Pow2(n)
  }

  function ShiftRight(a: nat, n: nat): nat {
    if n == 0 then a else ShiftRight(a / 2, n - 1)
  }

  lemma Sevens()
    ensures Pow2(7) == 128
  {
    assert Pow2(7) == 2 * Pow2(6) == 4 * Pow2(5) == 8 * Pow2(4) == 16 * Pow2(3) == 32 * Pow2(2) == 64 * Pow2(1);
  }

  lemma Double(x: nat, p: nat)
    ensures x * (2 * p) == 2 * (x * p)
  {
  }

  /** Bits below the lowest bit of the other number: nothing overlaps, so the or is the sum. */
  lemma {:induction false} OrOfDisjoint(a: nat, x: nat, n: nat)
    requires a < Pow2(n)
    ensures Or(a, ShiftLeft(x, n)) == a + ShiftLeft(x, n)
    decreases n
  {
    if n > 0 {
      Double(x, Pow2(n - 1));
      assert ShiftLeft(x, n) == 2 * ShiftLeft(x, n - 1);
      OrOfDisjoint(a / 2, x, n - 1);
    }
  }

  /** The lowest bit and the rest of a remainder modulo a power of two. */
  lemma ModOfDouble(a: nat, p: nat)
    requires p >= 1
    ensures a % (2 * p) == 2 * ((a / 2) % p) + a % 2
  {
    var q, r := (a / 2) / p, (a / 2) % p;
    assert a / 2 == q * p + r && a == 2 * (a / 2) + a % 2;
    Double(q, p);
    RemainderIs(a, q, 2 * p, 2 * r + a % 2);
  }

  lemma RemainderIs(a: nat, q: nat, m: nat, r: nat)
    requires r < m && a == q * m + r
    ensures a % m == r
  {
    var d: int := a / m - q;
    assert a == (a / m) * m + a % m;
    assert d * m == (a / m) * m - q * m;
    FarFromZero(d, m);
  }

  lemma FarFromZero(d: int, m: nat)
    ensures (d > 0 ==> d * m >= m) && (d < 0 ==> d * m + m <= 0)
  {
    if d > 0 { assert (d - 1) * m >= 0; }
    if d < 0 { assert (-d - 1) * m >= 0; }
  }

  /** Masking the low bits is the remainder modulo a power of two. */
  lemma {:induction false} AndOfMask(a: nat, n: nat)
    ensures And(a, Pow2(n) - 1) == a % Pow2(n)
    decreases n
  {
    if n > 0 {
      var p := Pow2(n - 1);
      ModOfDouble(a, p);
      AndOfMask(a / 2, n - 1);
      assert (2 * p - 1) / 2 == p - 1 && (2 * p - 1) % 2 == 1;
    }
  }

  lemma RightSeven(d: nat)
    ensures ShiftRight(d, 7) == d / 128
  {
    var a, b, c, e, f, g := d / 2, d / 4, d / 8, d / 16, d / 32, d / 64;
    assert a / 2 == b && b / 2 == c && c / 2 == e && e / 2 == f && f / 2 == g && g / 2 == d / 128;
    assert ShiftRight(d, 7) == ShiftRight(a, 6) == ShiftRight(b, 5) == ShiftRight(c, 4) == ShiftRight(e, 3) == ShiftRight(f, 2) == ShiftRight(g, 1);
    assert ShiftRight(g, 1) == ShiftRight(d / 128, 0);
  }

  /** The byte an encoder emits while seven bits or more remain. */
  lemma ContinuationByte(d: nat)
    ensures Or(And(d, 127), 128) == d % 128 + 128
  {
    Sevens();
    AndOfMask(d, 7);
    OrOfDisjoint(d % 128, 1, 7);
  }

  /** Or-ing seven new bits above a partial number adds them. */
  lemma SevenMoreBits(cur: nat, b: nat, shift: nat)
    requires cur < Pow2(shift)
    ensures Or(cur, ShiftLeft(And(b, 127), shift)) == cur + (b % 128) * Pow2(shift)
  {
    Sevens();
    AndOfMask(b, 7);
    OrOfDisjoint(cur, b % 128, shift);
  }
}
