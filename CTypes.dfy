/** Integer conventions of the C code: byte values, C's truncating
    division, conversion to uint32, int16 ranges and single bits of a
    non-negative integer. */
module CTypes {

  type byte = x: int | 0 <= x < 256

  const TWO16: int := 0x1_0000
  const TWO32: int := 0x1_0000_0000

  predicate IsInt16(x: int) { -32768 <= x <= 32767 }

  function Abs(x: int): nat { if x < 0 then -x else x }

  /** C division `a / b`: the quotient is truncated toward zero. */
  function CDiv(a: int, b: int): (q: int)
    requires b != 0
    ensures Abs(q) == Abs(a) / Abs(b)
    ensures q > 0 ==> (a > 0) == (b > 0)
    ensures q < 0 ==> (a > 0) != (b > 0)
  {
    var m: int := NatDiv(Abs(a), Abs(b));
    if m == 0 || (a > 0) == (b > 0) then m else -m
  }

  /** Division of naturals, floor and truncation alike. */
  function NatDiv(x: nat, y: nat): (q: nat)
    requires y > 0
    ensures q == x / y
    ensures x == 0 ==> q == 0
  {
    x / y
  }

  /** Truncating division of a value inside [lo*d, hi*d] stays inside [lo, hi]. */
  lemma CDivBounds(a: int, d: int, lo: int, hi: int)
    requires d > 0 && lo <= 0 <= hi
    requires lo * d <= a <= hi * d
    ensures lo <= CDiv(a, d) <= hi
  {
    if a >= 0 {
      DivLe(a, hi, d);
    } else {
      DivLe(-a, -lo, d);
    }
  }

  lemma DivLe(a: nat, k: nat, d: int)
    requires d > 0 && a <= k * d
    ensures a / d <= k
  {
    var q := a / d;
    assert q * d <= a;
    assert (q - k) * d <= 0;
  }

  /** The C conversion of an integer to uint32: reduction modulo 2^32. */
  function U32(x: int): (r: int)
    ensures 0 <= r < TWO32
    ensures (x - r) % TWO32 == 0
    ensures 0 <= x < TWO32 ==> r == x
  {
    x % TWO32
  }

  function Pow2(n: nat): (p: nat)
    ensures p >= 1
  {
    if n == 0 then 1 else 2 * Pow2(n - 1)
  }

  /** Bit j of the non-negative integer m (the C test `m & (1 << j)`). */
  function TestBit(m: nat, j: nat): bool
  {
    if j == 0 then m % 2 == 1 else TestBit(m / 2, j - 1)
  }

  /** A value below 2^n has no bit at position n or above. */
  lemma {:induction false} BitsAbove(m: nat, n: nat, j: nat)
    requires m < Pow2(n) && n <= j
    ensures !TestBit(m, j)
  {
    if j > 0 {
      if n == 0 {
        BitsAbove(m / 2, 0, j - 1);
      } else {
        BitsAbove(m / 2, n - 1, j - 1);
      }
    }
  }

  /** Adding 2^n to a value below 2^n sets bit n and keeps every other
      bit: for such values `m | (1 << n) == m + 2^n`. */
  lemma {:induction false} BitOfAddPow2(m: nat, n: nat, j: nat)
    requires m < Pow2(n)
    ensures TestBit(m + Pow2(n), j) == (j == n || TestBit(m, j))
  {
    if n == 0 {
      assert m == 0;
      if j > 0 {
        BitsAbove(0, 0, j - 1);
        BitsAbove(0, 0, j);
      }
    } else if j > 0 {
      var p := Pow2(n - 1);
      assert (m + Pow2(n)) / 2 == m / 2 + p;
      BitOfAddPow2(m / 2, n - 1, j - 1);
    }
  }
}

/** The stock Option type. */
module Wrappers {
  datatype Option<+T> = None | Some(value: T)
}
