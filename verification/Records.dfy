/** The goroutine section of the output: records that carry the length of their data, and a reader
  * that finds them again. */
module Records {
  import opened Words
  import opened Bytes
  import opened Wrappers
  import opened Buffer
  import opened Framing
  import Murmur

  /** The header of a goroutine. Its data starts with the program counters of its stack, unless an
    * earlier record has the same stack; then stackBytes is 0. */
  datatype Record = Record(goid: u64, stackHash: u64, status: u32, stackBytes: u32, dataLen: u32)

  /** The wait reason and the wait time, between the status and the lengths, are zero. */
  function RecordBytes(r: Record): (s: seq<u8>)
    ensures |s| == GOROUTINE_HEADER
  {
    Le64(r.goid) + Le64(r.stackHash) + Le32(r.status) + Zeros(12) + Le32(r.stackBytes) + Le32(r.dataLen)
  }

  function RecordAt(mem: seq<u8>, off: nat): Record
    requires off + GOROUTINE_HEADER <= |mem|
  {
    Record(Read64(mem, off), Read64(mem, off + 8), Read32(mem, off + 16),
           Read32(mem, off + 32), Read32(mem, off + 36))
  }

  lemma RecordAfterWrite(mem: seq<u8>, off: nat, r: Record)
    requires off + GOROUTINE_HEADER <= |mem|
    ensures RecordAt(Splice(mem, off, RecordBytes(r)), off) == r
  {
    var m := Splice(mem, off, RecordBytes(r));
    hide Le32, Le64, Read32, Read64;
    assert m == Splice(m, off, Le64(r.goid));
    assert m == Splice(m, off + 8, Le64(r.stackHash));
    assert m == Splice(m, off + 16, Le32(r.status));
    assert m == Splice(m, off + 32, Le32(r.stackBytes));
    assert m == Splice(m, off + 36, Le32(r.dataLen));
    ReadAfterWrite64(m, off, r.goid);
    ReadAfterWrite64(m, off + 8, r.stackHash);
    ReadAfterWrite32(m, off + 16, r.status);
    ReadAfterWrite32(m, off + 32, r.stackBytes);
    ReadAfterWrite32(m, off + 36, r.dataLen);
  }

  lemma RecordIsLocal(a: seq<u8>, b: seq<u8>, off: nat)
    requires off + GOROUTINE_HEADER <= |a| && off + GOROUTINE_HEADER <= |b|
    requires forall i :: off <= i < off + GOROUTINE_HEADER ==> a[i] == b[i]
    ensures RecordAt(a, off) == RecordAt(b, off)
  {
  }

  // ---------------------------------------------------------------------------------------
  // Stacks

  /** Program counters as they are stored. */
  function StackBytes(pcs: seq<u64>): (s: seq<u8>)
    ensures |s| == 8 * |pcs|
  {
    seq(8 * |pcs|, i requires 0 <= i < 8 * |pcs| => Le64(pcs[i / 8])[i % 8])
  }

  function StackAt(mem: seq<u8>, off: nat, n: nat): (pcs: seq<u64>)
    requires off + 8 * n <= |mem|
    ensures |pcs| == n
  {
    seq(n, i requires 0 <= i < n => Read64(mem, off + 8 * i))
  }

  lemma StackAfterWrite(mem: seq<u8>, off: nat, pcs: seq<u64>)
    requires off + 8 * |pcs| <= |mem|
    ensures StackAt(Splice(mem, off, StackBytes(pcs)), off, |pcs|) == pcs
  {
    hide Le64, Read64, Splice, StackBytes;
    var m := Splice(mem, off, StackBytes(pcs));
    forall i | 0 <= i < |pcs| ensures Read64(m, off + 8 * i) == pcs[i] {
      WordOfStack(mem, off, pcs, i);
      ReadAfterWrite64(m, off + 8 * i, pcs[i]);
    }
  }

  lemma WordOfStack(mem: seq<u8>, off: nat, pcs: seq<u64>, i: nat)
    requires off + 8 * |pcs| <= |mem| && i < |pcs|
    ensures var m := Splice(mem, off, StackBytes(pcs)); m == Splice(m, off + 8 * i, Le64(pcs[i]))
  {
    hide Le64;
    var m := Splice(mem, off, StackBytes(pcs));
    forall k | 0 <= k < 8 ensures m[off + 8 * i + k] == Le64(pcs[i])[k] {
      assert (8 * i + k) / 8 == i && (8 * i + k) % 8 == k;
      assert m[off + (8 * i + k)] == StackBytes(pcs)[8 * i + k];
    }
  }

  lemma StackIsLocal(a: seq<u8>, b: seq<u8>, off: nat, n: nat)
    requires off + 8 * n <= |a| && off + 8 * n <= |b|
    requires forall i :: off <= i < off + 8 * n ==> a[i] == b[i]
    ensures StackAt(a, off, n) == StackAt(b, off, n)
  {
    forall i | 0 <= i < n ensures Read64(a, off + 8 * i) == Read64(b, off + 8 * i) {}
  }

  // ---------------------------------------------------------------------------------------
  // Records

  ghost predicate Framed(mem: seq<u8>, lo: nat, hi: nat) {
    exists fs :: FramesAt(mem, lo, hi, fs)
  }

  /** The data of a record: the stack, if there is one, has the hash that the record gives; and if
    * the records are framed, the rest is a sequence of frames. */
  ghost predicate BodyAt(mem: seq<u8>, at: nat, r: Record, framed: bool) {
    && at + r.dataLen <= |mem|
    && r.stackBytes <= r.dataLen
    && r.stackBytes % 8 == 0
    && (r.stackBytes > 0 ==> Murmur.Hash(StackAt(mem, at, r.stackBytes / 8), 0) == r.stackHash)
    && (framed ==> Framed(mem, at + r.stackBytes, at + r.dataLen))
  }

  function RecordSize(r: Record): nat { GOROUTINE_HEADER + r.dataLen }

  /** The records rs lie in [lo, hi), each behind the other. */
  ghost predicate RecordsAt(mem: seq<u8>, lo: nat, hi: nat, rs: seq<Record>, framed: bool)
    decreases |rs|
  {
    if rs == [] then lo == hi
    else
      && lo + GOROUTINE_HEADER <= |mem|
      && RecordAt(mem, lo) == rs[0]
      && BodyAt(mem, lo + GOROUTINE_HEADER, rs[0], framed)
      && RecordsAt(mem, lo + RecordSize(rs[0]), hi, rs[1..], framed)
  }

  function RecordsSize(rs: seq<Record>): nat
    decreases |rs|
  {
    if rs == [] then 0 else RecordSize(rs[0]) + RecordsSize(rs[1..])
  }

  /** Reads records by stepping over each by its data length, until exactly hi. */
  function ReadRecords(mem: seq<u8>, lo: nat, hi: nat): Option<seq<Record>>
    decreases hi - lo
  {
    if lo == hi then Some([])
    else if lo + GOROUTINE_HEADER > hi || hi > |mem| then None
    else
      var r := RecordAt(mem, lo);
      match ReadRecords(mem, lo + RecordSize(r), hi)
      case None => None
      case Some(rest) => Some([r] + rest)
  }

  lemma {:induction false} RecordsEnd(mem: seq<u8>, lo: nat, hi: nat, rs: seq<Record>, framed: bool)
    requires RecordsAt(mem, lo, hi, rs, framed)
    ensures hi == lo + RecordsSize(rs)
    decreases |rs|
  {
    hide RecordAt, BodyAt;
    if rs != [] { RecordsEnd(mem, lo + RecordSize(rs[0]), hi, rs[1..], framed); }
  }

  /** The reader recovers the records, and lands exactly on their end. */
  lemma {:induction false} ReadRecordsFinds(mem: seq<u8>, lo: nat, hi: nat, rs: seq<Record>, framed: bool)
    requires hi <= |mem| && RecordsAt(mem, lo, hi, rs, framed)
    ensures ReadRecords(mem, lo, hi) == Some(rs)
    decreases |rs|
  {
    hide RecordAt, BodyAt;
    RecordsEnd(mem, lo, hi, rs, framed);
    if rs != [] {
      ReadRecordsFinds(mem, lo + RecordSize(rs[0]), hi, rs[1..], framed);
      assert [rs[0]] + rs[1..] == rs;
    }
  }

  lemma {:induction false} RecordsAppend(mem: seq<u8>, lo: nat, mid: nat, rs: seq<Record>, r: Record, framed: bool)
    requires RecordsAt(mem, lo, mid, rs, framed)
    requires mid + GOROUTINE_HEADER <= |mem| && RecordAt(mem, mid) == r
    requires BodyAt(mem, mid + GOROUTINE_HEADER, r, framed)
    ensures RecordsAt(mem, lo, mid + RecordSize(r), rs + [r], framed)
    decreases |rs|
  {
    hide RecordAt, BodyAt;
    if rs == [] {
      assert [r][1..] == [];
    } else {
      assert (rs + [r])[1..] == rs[1..] + [r];
      RecordsAppend(mem, lo + RecordSize(rs[0]), mid, rs[1..], r, framed);
    }
  }

  lemma BodyBelow(a: seq<u8>, b: seq<u8>, at: nat, r: Record, framed: bool)
    requires BodyAt(a, at, r, framed) && at + r.dataLen <= |b|
    requires forall i :: at <= i < at + r.dataLen && i < |a| ==> a[i] == b[i]
    ensures BodyAt(b, at, r, framed)
  {
    if framed {
      var fs :| FramesAt(a, at + r.stackBytes, at + r.dataLen, fs);
      FramesBelow(a, b, at + r.stackBytes, at + r.dataLen, fs);
    }
    hide FramesAt;
    StackIsLocal(a, b, at, r.stackBytes / 8);
    hide StackAt;
  }

  /** Records depend on their own bytes only. */
  lemma {:induction false} RecordsBelow(a: seq<u8>, b: seq<u8>, lo: nat, hi: nat, rs: seq<Record>, framed: bool)
    requires RecordsAt(a, lo, hi, rs, framed) && hi <= |b|
    requires forall i :: lo <= i < hi && i < |a| ==> a[i] == b[i]
    ensures RecordsAt(b, lo, hi, rs, framed)
    decreases |rs|
  {
    hide BodyAt;
    RecordsEnd(a, lo, hi, rs, framed);
    if rs != [] {
      var next := lo + RecordSize(rs[0]);
      RecordsEnd(a, next, hi, rs[1..], framed);
      RecordIsLocal(a, b, lo);
      hide RecordAt;
      BodyBelow(a, b, lo + GOROUTINE_HEADER, rs[0], framed);
      RecordsBelow(a, b, next, hi, rs[1..], framed);
    }
  }

  // ---------------------------------------------------------------------------------------
  // Shared stacks

  /** A record has no stack exactly when an earlier one has the stack with its hash. */
  ghost predicate Deduplicated(rs: seq<Record>) {
    forall i :: 0 <= i < |rs| ==> (rs[i].stackBytes == 0 <==> HasStack(rs[..i], rs[i].stackHash))
  }

  ghost predicate HasStack(rs: seq<Record>, hash: u64) {
    exists j :: 0 <= j < |rs| && rs[j].stackHash == hash && rs[j].stackBytes > 0
  }

  lemma HasStackGrows(rs: seq<Record>, r: Record, hash: u64)
    ensures HasStack(rs + [r], hash) <==> HasStack(rs, hash) || (r.stackHash == hash && r.stackBytes > 0)
  {
    var s := rs + [r];
    if HasStack(rs, hash) {
      var j :| 0 <= j < |rs| && rs[j].stackHash == hash && rs[j].stackBytes > 0;
      assert s[j] == rs[j];
    }
    if r.stackHash == hash && r.stackBytes > 0 { assert s[|rs|] == r; }
  }

  lemma DeduplicatedGrows(rs: seq<Record>, r: Record)
    requires Deduplicated(rs) && (r.stackBytes == 0 <==> HasStack(rs, r.stackHash))
    ensures Deduplicated(rs + [r])
  {
    hide HasStack;
    var s := rs + [r];
    forall i | 0 <= i < |s| ensures s[i].stackBytes == 0 <==> HasStack(s[..i], s[i].stackHash) {
      if i < |rs| {
        assert s[..i] == rs[..i];
      } else {
        assert s[..i] == rs;
      }
    }
  }
}
