/** Machine words as bounded integers, with the wrap-around of the program written out. */
module Words {
  type u8 = x: int | 0 <= x < 0x100
  type u32 = x: int | 0 <= x < 0x1_0000_0000
  type u64 = x: int | 0 <= x < 0x1_0000_0000_0000_0000

  function Wrap32(x: int): u32 { x % 0x1_0000_0000 }

  lemma WrapSmall(x: u32)
    ensures Wrap32(x) == x
  {
  }

  function Wrap64(x: int): u64 { x % 0x1_0000_0000_0000_0000 }

  /** A length rounded up to a multiple of 8, in 32-bit arithmetic. */
  function Pad8(n: u32): u32 {
    if n % 8 == 0 then n else Wrap32(n + (8 - n % 8))
  }

  lemma NonNegativeProduct(x: nat, y: nat)
    ensures x * y >= 0
  {
  }

  lemma QuotientBound(a: nat, b: nat)
    requires b > 0
    ensures 0 <= a / b <= a
  {
    var q := a / b;
    assert a == b * q + a % b;
    assert q >= 0;
    NonNegativeProduct(b - 1, q);
    assert b * q == (b - 1) * q + q;
  }

  function Pow2(n: nat): (p: nat)
    ensures p > 0
  {
    if n == 0 then 1 else 2 * Pow2(n - 1)
  }

  lemma {:induction false} Pow2Grows(m: nat, n: nat)
    ensures m <= n ==> Pow2(m) <= Pow2(n)
    decreases n
  {
    if m < n { Pow2Grows(m, n - 1); }
  }

  lemma Pow2Plus4(n: nat)
    ensures Pow2(n + 4) == 0x10 * Pow2(n)
  {
    assert Pow2(n + 2) == 4 * Pow2(n);
  }

  lemma Pow2Plus16(n: nat)
    ensures Pow2(n + 16) == 0x1_0000 * Pow2(n)
  {
    hide Pow2;
    Pow2Plus4(n);
    Pow2Plus4(n + 4);
    Pow2Plus4(n + 8);
    Pow2Plus4(n + 12);
  }

  /** The widths the hash needs. */
  lemma WordWidths()
    ensures Pow2(64) == 0x1_0000_0000_0000_0000
    ensures Pow2(17) == 0x2_0000
  {
    assert Pow2(0) == 1 && Pow2(1) == 2;
    hide Pow2;
    Pow2Plus16(0);
    Pow2Plus16(16);
    Pow2Plus16(32);
    Pow2Plus16(48);
    Pow2Plus16(1);
  }

  /** a >> n */
  function ShiftRight(a: nat, n: nat): nat
    decreases n
  {
    if n == 0 then a else ShiftRight(a / 2, n - 1)
  }

  /** Bitwise exclusive or, one bit at a time from the least significant. */
  function Xor(a: nat, b: nat): nat
    decreases a + b
  {
    if a == 0 && b == 0 then 0
    else 2 * Xor(a / 2, b / 2) + if a % 2 == b % 2 then 0 else 1
  }

  function Xor64(a: u64, b: u64): u64 {
    WordWidths();
    XorBound(a, b, 64);
    Xor(a, b)
  }

  lemma {:induction false} XorStep(a: nat, b: nat)
    ensures Xor(a, b) / 2 == Xor(a / 2, b / 2)
    ensures Xor(a, b) % 2 == if a % 2 == b % 2 then 0 else 1
  {
  }

  lemma {:induction false} XorBound(a: nat, b: nat, n: nat)
    requires a < Pow2(n) && b < Pow2(n)
    ensures Xor(a, b) < Pow2(n)
  {
    if n > 0 { XorBound(a / 2, b / 2, n - 1); }
  }

  lemma {:induction false} XorCancels(a: nat, b: nat)
    ensures Xor(Xor(a, b), b) == a
    ensures Xor(Xor(a, b), a) == b
    ensures Xor(b, Xor(a, b)) == a
    decreases a + b
  {
    if a != 0 || b != 0 {
      XorCancels(a / 2, b / 2);
      var c := Xor(a, b);
      XorStep(a, b);
      hide Xor;
      XorStep(c, b);
      XorStep(c, a);
      XorStep(b, c);
    }
  }

  lemma {:induction false} XorZero(a: nat)
    ensures Xor(a, 0) == a
  {
    if a != 0 { XorZero(a / 2); }
  }

  lemma {:induction false} ShiftOfXor(a: nat, b: nat, n: nat)
    ensures ShiftRight(Xor(a, b), n) == Xor(ShiftRight(a, n), ShiftRight(b, n))
    decreases n
  {
    if n > 0 {
      XorStep(a, b);
      hide Xor;
      ShiftOfXor(a / 2, b / 2, n - 1);
    }
  }

  lemma {:induction false} ShiftBound(a: nat, n: nat, k: nat)
    requires a < Pow2(n)
    ensures ShiftRight(a, k) < Pow2(if k <= n then n - k else 0)
    decreases k
  {
    if k > 0 { ShiftBound(a / 2, if n == 0 then 0 else n - 1, k - 1); }
  }
}
