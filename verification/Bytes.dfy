/** Little-endian words in a sequence of bytes, and overwriting part of one. */
module Bytes {
  import opened Words

  function Le32(v: u32): (s: seq<u8>)
    ensures |s| == 4
  {
    [v % 0x100, v / 0x100 % 0x100, v / 0x1_0000 % 0x100, v / 0x100_0000]
  }

  function Le64(v: u64): (s: seq<u8>)
    ensures |s| == 8
  {
    Le32(v % 0x1_0000_0000) + Le32(v / 0x1_0000_0000)
  }

  function Join(b0: u8, b1: u8, b2: u8, b3: u8): u32 {
    (b0 as int) + 0x100 * (b1 as int) + 0x1_0000 * (b2 as int) + 0x100_0000 * (b3 as int)
  }

  function Read32(mem: seq<u8>, off: nat): u32
    requires off + 4 <= |mem|
  {
    Join(mem[off], mem[off + 1], mem[off + 2], mem[off + 3])
  }

  function Read64(mem: seq<u8>, off: nat): u64
    requires off + 8 <= |mem|
  {
    Read32(mem, off) + 0x1_0000_0000 * Read32(mem, off + 4)
  }

  /** mem with data written at off. */
  function Splice(mem: seq<u8>, off: nat, data: seq<u8>): (r: seq<u8>)
    requires off + |data| <= |mem|
    ensures |r| == |mem|
    ensures forall i :: 0 <= i < |mem| ==>
              r[i] == if off <= i < off + |data| then data[i - off] else mem[i]
  {
    mem[..off] + data + mem[off + |data|..]
  }

  function Zeros(n: nat): (s: seq<u8>)
    ensures |s| == n
  {
    seq(n, _ => 0)
  }

  /** The two memories agree everywhere except perhaps in [lo, hi). */
  ghost predicate SameOutside(a: seq<u8>, b: seq<u8>, lo: int, hi: int) {
    |a| == |b| && forall i :: 0 <= i < |a| && !(lo <= i < hi) ==> a[i] == b[i]
  }

  lemma SameSlice(a: seq<u8>, b: seq<u8>, lo: int, hi: int, o: nat, n: nat)
    requires SameOutside(a, b, lo, hi) && o + n <= |a|
    requires hi <= o || o + n <= lo
    ensures a[o..o + n] == b[o..o + n]
  {
  }

  lemma Le32RoundTrip(v: u32)
    ensures Join(Le32(v)[0], Le32(v)[1], Le32(v)[2], Le32(v)[3]) == v
  {
    var q1, q2, q3 := v / 0x100, v / 0x1_0000, v / 0x100_0000;
    assert v == 0x100 * q1 + v % 0x100;
    assert q1 == 0x100 * q2 + q1 % 0x100;
    assert q2 == 0x100 * q3 + q2 % 0x100;
    assert q3 == q3 % 0x100;
  }

  /** Reading back a 32-bit word just written. */
  lemma ReadAfterWrite32(mem: seq<u8>, off: nat, v: u32)
    requires off + 4 <= |mem|
    ensures Read32(Splice(mem, off, Le32(v)), off) == v
  {
    Le32RoundTrip(v);
    var m := Splice(mem, off, Le32(v));
    assert m[off] == Le32(v)[0] && m[off + 1] == Le32(v)[1];
    assert m[off + 2] == Le32(v)[2] && m[off + 3] == Le32(v)[3];
  }

  lemma ReadAfterWrite64(mem: seq<u8>, off: nat, v: u64)
    requires off + 8 <= |mem|
    ensures Read64(Splice(mem, off, Le64(v)), off) == v
  {
    var lo, hi := v % 0x1_0000_0000, v / 0x1_0000_0000;
    var m := Splice(mem, off, Le64(v));
    hide Le32;
    assert m == Splice(Splice(mem, off, Le32(lo)), off + 4, Le32(hi));
    assert m == Splice(Splice(mem, off + 4, Le32(hi)), off, Le32(lo));
    ReadAfterWrite32(Splice(mem, off, Le32(lo)), off + 4, hi);
    ReadAfterWrite32(Splice(mem, off + 4, Le32(hi)), off, lo);
  }
}
