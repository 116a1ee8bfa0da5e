/** The stack hash of the snapshotter: murmur2 over a list of 64-bit program counters. */
module Murmur {
  import opened Words

  /** Multiplication by the odd constant of the algorithm, modulo 2^64. */
  function Multiply(x: u64): u64 { Wrap64(x * 0xc6a4a7935bd1e995) }

  /** Multiplication by the inverse of that constant modulo 2^64. */
  function Divide(x: u64): u64 { Wrap64(x * 0x5f7a0ea7e59b19bd) }

  /** x ^ (x >> 47) */
  function XorShift(x: u64): u64 {
    WordWidths();
    ShiftBound(x, 64, 47);
    Xor64(x, ShiftRight(x, 47))
  }

  /** Scrambles one program counter: multiply, xor-shift, multiply. */
  function MixKey(pc: u64): u64 { Multiply(XorShift(Multiply(pc))) }

  function UnmixKey(key: u64): u64 { Divide(XorShift(Divide(key))) }

  function Absorb(hash: u64, pc: u64): u64 { Multiply(Xor64(hash, MixKey(pc))) }

  /** The running hash after absorbing every element of the stack, leaf first. */
  function AbsorbAll(hash: u64, stack: seq<u64>): u64
    decreases |stack|
  {
    if stack == [] then hash else AbsorbAll(Absorb(hash, stack[0]), stack[1..])
  }

  function Start(seed: u64, frames: nat): u64 {
    Xor64(seed, Multiply(Wrap64(frames)))
  }

  function Hash(stack: seq<u64>, seed: u64): u64 {
    AbsorbAll(Start(seed, |stack|), stack)
  }

  /** The loop of the program, which updates one hash word in place. */
  method Murmur2(stack: seq<u64>, seed: u64) returns (hash: u64)
    ensures hash == Hash(stack, seed)
  {
    hash := Xor64(seed, Multiply(Wrap64(|stack|)));
    var i := 0;
    while i < |stack|
      invariant 0 <= i <= |stack|
      invariant AbsorbAll(hash, stack[i..]) == Hash(stack, seed)
    {
      var k := stack[i];
      k := Multiply(k);
      k := XorShift(k);
      k := Multiply(k);

      hash := Xor64(hash, k);
      hash := Multiply(hash);
      assert stack[i..][1..] == stack[i + 1..];
      i := i + 1;
    }
  }

  // ---------------------------------------------------------------------------------------
  // Each step can be undone

  lemma ModularInverse(x: u64, a: int, b: int, c: int)
    requires a * b == 1 + c * 0x1_0000_0000_0000_0000
    ensures Wrap64(Wrap64(x * a) * b) == x
  {
    var q := x * a / 0x1_0000_0000_0000_0000;
    calc {
      Wrap64(x * a) * b;
      (x * a - q * 0x1_0000_0000_0000_0000) * b;
      x * (a * b) - q * b * 0x1_0000_0000_0000_0000;
      x * (1 + c * 0x1_0000_0000_0000_0000) - q * b * 0x1_0000_0000_0000_0000;
      x + 0x1_0000_0000_0000_0000 * (c * x - q * b);
    }
    WrapOfMultiple(x, c * x - q * b);
  }

  lemma WrapOfMultiple(x: u64, t: int)
    ensures Wrap64(x + 0x1_0000_0000_0000_0000 * t) == x
  {
  }

  lemma MultiplierHasInverse(x: u64)
    ensures Divide(Multiply(x)) == x
    ensures Multiply(Divide(x)) == x
  {
    ModularInverse(x, 0xc6a4a7935bd1e995, 0x5f7a0ea7e59b19bd, 0x4a15d006d409ab6f);
    ModularInverse(x, 0x5f7a0ea7e59b19bd, 0xc6a4a7935bd1e995, 0x4a15d006d409ab6f);
  }

  /** Shifting by 47 twice clears a 64-bit word, so the xor-shift undoes itself. */
  lemma XorShiftIsInvolution(x: u64)
    ensures XorShift(XorShift(x)) == x
  {
    var y := ShiftRight(x, 47);
    WordWidths();
    ShiftBound(x, 64, 47);
    ShiftBound(y, 17, 47);
    hide Xor, ShiftRight;
    ShiftOfXor(x, y, 47);
    XorZero(y);
    XorCancels(x, y);
  }

  /** MixKey is a bijection on words. */
  lemma MixKeyIsBijective(k: u64)
    ensures UnmixKey(MixKey(k)) == k
    ensures MixKey(UnmixKey(k)) == k
  {
    hide Multiply, Divide, XorShift;
    MultiplierHasInverse(k);
    MultiplierHasInverse(XorShift(Multiply(k)));
    MultiplierHasInverse(XorShift(Divide(k)));
    XorShiftIsInvolution(Multiply(k));
    XorShiftIsInvolution(Divide(k));
  }

  /** The running hash before a frame was absorbed, given the one after it. */
  function Unabsorb(hash: u64, pc: u64): u64 { Xor64(Divide(hash), MixKey(pc)) }

  lemma AbsorbIsBijective(hash: u64, pc: u64)
    ensures Unabsorb(Absorb(hash, pc), pc) == hash
    ensures Absorb(Unabsorb(hash, pc), pc) == hash
  {
    hide Multiply, Divide, MixKey, Xor;
    MultiplierHasInverse(Xor64(hash, MixKey(pc)));
    MultiplierHasInverse(hash);
    XorCancels(hash, MixKey(pc));
    XorCancels(Divide(hash), MixKey(pc));
  }

  // ---------------------------------------------------------------------------------------
  // For a fixed stack the hash is a bijection of the seed

  function Release(hash: u64, stack: seq<u64>): u64
    decreases |stack|
  {
    if stack == [] then hash else Unabsorb(Release(hash, stack[1..]), stack[0])
  }

  lemma {:induction false} ReleaseUndoesAbsorb(hash: u64, stack: seq<u64>)
    ensures Release(AbsorbAll(hash, stack), stack) == hash
    ensures AbsorbAll(Release(hash, stack), stack) == hash
    decreases |stack|
  {
    hide Absorb, Unabsorb;
    if stack != [] {
      ReleaseUndoesAbsorb(Absorb(hash, stack[0]), stack[1..]);
      ReleaseUndoesAbsorb(hash, stack[1..]);
      AbsorbIsBijective(hash, stack[0]);
      AbsorbIsBijective(Release(hash, stack[1..]), stack[0]);
    }
  }

  /** The one seed under which the stack has the given hash. */
  function SeedFor(hash: u64, stack: seq<u64>): u64 {
    Start(Release(hash, stack), |stack|)
  }

  lemma SeedIsBijective(stack: seq<u64>, seed: u64, hash: u64)
    ensures SeedFor(Hash(stack, seed), stack) == seed
    ensures Hash(stack, SeedFor(hash, stack)) == hash
  {
    hide Multiply, AbsorbAll, Release, Xor;
    ReleaseUndoesAbsorb(Start(seed, |stack|), stack);
    ReleaseUndoesAbsorb(hash, stack);
    XorCancels(seed, Multiply(Wrap64(|stack|)));
    XorCancels(Release(hash, stack), Multiply(Wrap64(|stack|)));
  }

  // ---------------------------------------------------------------------------------------
  // For a fixed seed and all other frames fixed, the hash is a bijection of one frame

  lemma {:induction false} AbsorbAllSplits(hash: u64, a: seq<u64>, b: seq<u64>)
    ensures AbsorbAll(hash, a + b) == AbsorbAll(AbsorbAll(hash, a), b)
    decreases |a|
  {
    hide Absorb;
    if a == [] {
      assert a + b == b;
    } else {
      assert (a + b)[1..] == a[1..] + b;
      AbsorbAllSplits(Absorb(hash, a[0]), a[1..], b);
    }
  }

  lemma HashThroughFrame(stack: seq<u64>, seed: u64, i: nat, pc: u64)
    requires i < |stack|
    ensures Hash(stack[i := pc], seed)
         == AbsorbAll(Absorb(AbsorbAll(Start(seed, |stack|), stack[..i]), pc), stack[i + 1..])
  {
    hide Absorb, Start;
    assert stack[i := pc] == stack[..i] + ([pc] + stack[i + 1..]);
    AbsorbAllSplits(Start(seed, |stack|), stack[..i], [pc] + stack[i + 1..]);
    assert ([pc] + stack[i + 1..])[1..] == stack[i + 1..];
  }

  /** The program counter that frame i must have for the stack to hash to the given value. */
  function FrameFor(hash: u64, stack: seq<u64>, seed: u64, i: nat): u64
    requires i < |stack|
  {
    UnmixKey(Xor64(Divide(Release(hash, stack[i + 1..])),
                   AbsorbAll(Start(seed, |stack|), stack[..i])))
  }

  lemma FrameIsBijective(stack: seq<u64>, seed: u64, i: nat, pc: u64, hash: u64)
    requires i < |stack|
    ensures FrameFor(Hash(stack[i := pc], seed), stack, seed, i) == pc
    ensures Hash(stack[i := FrameFor(hash, stack, seed, i)], seed) == hash
  {
    var before := AbsorbAll(Start(seed, |stack|), stack[..i]);
    var wanted := FrameFor(hash, stack, seed, i);
    HashThroughFrame(stack, seed, i, pc);
    HashThroughFrame(stack, seed, i, wanted);
    ReleaseUndoesAbsorb(Absorb(before, pc), stack[i + 1..]);
    ReleaseUndoesAbsorb(hash, stack[i + 1..]);
    KeyIsBijective(before, pc);
    KeyIsBijective(before, Release(hash, stack[i + 1..]));
    hide Hash, Absorb, AbsorbAll, Release, Start, Divide, UnmixKey, Xor64;
  }

  /** Absorbing can also be solved for the frame. */
  lemma KeyIsBijective(hash: u64, x: u64)
    ensures UnmixKey(Xor64(Divide(Absorb(hash, x)), hash)) == x
    ensures Absorb(hash, UnmixKey(Xor64(Divide(x), hash))) == x
  {
    hide Multiply, Divide, MixKey, UnmixKey, Xor;
    MultiplierHasInverse(Xor64(hash, MixKey(x)));
    XorCancels(hash, MixKey(x));
    MixKeyIsBijective(x);
    var key := Xor64(Divide(x), hash);
    MixKeyIsBijective(key);
    XorCancels(Divide(x), hash);
    MultiplierHasInverse(x);
  }

  /** Two stacks of the same length that differ in exactly one frame never collide. */
  lemma SingleFrameDifferenceSeparates(a: seq<u64>, b: seq<u64>, seed: u64, i: nat)
    requires i < |a| == |b|
    requires forall j :: 0 <= j < |a| && j != i ==> a[j] == b[j]
    requires a[i] != b[i]
    ensures Hash(a, seed) != Hash(b, seed)
  {
    hide Hash, FrameFor;
    assert b == a[i := b[i]] && a == a[i := a[i]];
    FrameIsBijective(a, seed, i, a[i], 0);
    FrameIsBijective(a, seed, i, b[i], 0);
  }
}
