/** The 64-bit mask of Go context values still to be captured, bit by bit. */
module CaptureMask {
  import opened Words

  /** m & (1 << i) != 0; a bit shifted out of the word is never set. */
  predicate Has(m: nat, i: nat) {
    if i == 0 then m % 2 == 1 else Has(m / 2, i - 1)
  }

  /** m & ^(1 << i) */
  function Clear(m: nat, i: nat): (r: nat)
    ensures r <= m
  {
    if i == 0 then m - m % 2 else 2 * Clear(m / 2, i - 1) + m % 2
  }

  /** (1 << n) - 1 in 64 bits: all bits set once the one is shifted out. */
  function Initial(n: nat): u64 {
    WordWidths();
    Pow2Grows(n, 64);
    if n >= 64 then 0xffff_ffff_ffff_ffff else Pow2(n) - 1
  }

  /** The indices of the bits that are set. */
  ghost function Indices(m: u64): set<nat> { set i: nat | i < 64 && Has(m, i) }

  lemma {:induction false} ClearHas(m: nat, i: nat, j: nat)
    ensures Has(Clear(m, i), j) <==> Has(m, j) && j != i
    decreases i
  {
    if i > 0 && j > 0 {
      ClearHas(m / 2, i - 1, j - 1);
      assert Clear(m, i) / 2 == Clear(m / 2, i - 1);
    }
  }

  lemma {:induction false} LowHas(n: nat, i: nat)
    ensures Has(Pow2(n) - 1, i) <==> i < n
    decreases i
  {
    if n == 0 {
      NoneHas(i);
    } else if i > 0 {
      assert (Pow2(n) - 1) / 2 == Pow2(n - 1) - 1;
      LowHas(n - 1, i - 1);
    }
  }

  lemma {:induction false} NoneHas(i: nat)
    ensures !Has(0, i)
    decreases i
  {
    if i > 0 { NoneHas(i - 1); }
  }

  lemma {:induction false} SomeHas(m: nat, n: nat) returns (i: nat)
    requires 0 < m < Pow2(n)
    ensures i < n && Has(m, i)
  {
    if m % 2 == 1 {
      i := 0;
    } else {
      i := SomeHas(m / 2, n - 1);
      i := i + 1;
    }
  }

  /** The initial mask of n values has the bits below n, at most 64 of them. */
  lemma InitialIndices(n: nat)
    ensures forall i: nat :: i in Indices(Initial(n)) <==> i < 64 && i < n
  {
    WordWidths();
    forall i: nat ensures Has(Initial(n), i) <==> i < 64 && i < n {
      LowHas(if n >= 64 then 64 else n, i);
    }
  }

  lemma ClearIndices(m: u64, i: nat)
    ensures Indices(Clear(m, i)) == Indices(m) - {i}
  {
    forall j: nat ensures Has(Clear(m, i), j) <==> Has(m, j) && j != i {
      ClearHas(m, i, j);
    }
  }

  /** The mask is zero exactly when no value is left to capture. */
  lemma EmptyIndices(m: u64)
    ensures m == 0 <==> Indices(m) == {}
  {
    WordWidths();
    if m == 0 {
      forall i: nat ensures !Has(m, i) { NoneHas(i); }
    } else {
      var i := SomeHas(m, 64);
      assert i in Indices(m);
    }
  }

  /** No bit beyond the word is ever set. */
  lemma NoHighBits(m: u64, i: nat)
    ensures Has(m, i) ==> i in Indices(m)
  {
    WordWidths();
    if i >= 64 { HighBits(m, 64, i); }
  }

  lemma {:induction false} HighBits(m: nat, n: nat, i: nat)
    requires m < Pow2(n) && i >= n
    ensures !Has(m, i)
    decreases n
  {
    if n == 0 { NoneHas(i); } else { HighBits(m / 2, n - 1, i - 1); }
  }
}
