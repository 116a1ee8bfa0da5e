/** What the buffer operations do to the bytes, when nothing overflows. */
module BufferFacts {
  import opened Words
  import opened Bytes
  import opened Wrappers
  import opened Worklist
  import opened Buffer

  /** The header stored at an offset. */
  function HeaderAt(mem: seq<u8>, off: nat): QueueEntry
    requires off + ENTRY_HEADER <= |mem|
  {
    QueueEntry(Read32(mem, off), Read32(mem, off + 4), Read64(mem, off + 8))
  }

  lemma HeaderAfterWrite(mem: seq<u8>, off: nat, e: QueueEntry)
    requires off + ENTRY_HEADER <= |mem|
    ensures HeaderAt(Splice(mem, off, EntryBytes(e)), off) == e
  {
    var m := Splice(mem, off, EntryBytes(e));
    hide Le32, Le64, Read32, Read64;
    assert m == Splice(Splice(mem, off + 4, Le32(e.len) + Le64(e.addr)), off, Le32(e.typ));
    assert m == Splice(Splice(mem, off, Le32(e.typ) + Le32(0) + Le64(e.addr)), off + 4, Le32(e.len));
    assert m == Splice(Splice(mem, off, Le32(e.typ) + Le32(e.len)), off + 8, Le64(e.addr));
    ReadAfterWrite32(Splice(mem, off + 4, Le32(e.len) + Le64(e.addr)), off, e.typ);
    ReadAfterWrite32(Splice(mem, off, Le32(e.typ) + Le32(0) + Le64(e.addr)), off + 4, e.len);
    ReadAfterWrite64(Splice(mem, off, Le32(e.typ) + Le32(e.len)), off + 8, e.addr);
  }

  /** Headers are determined by their sixteen bytes. */
  lemma HeaderIsLocal(a: seq<u8>, b: seq<u8>, off: nat)
    requires off + ENTRY_HEADER <= |a| && off + ENTRY_HEADER <= |b|
    requires forall i :: off <= i < off + ENTRY_HEADER ==> a[i] == b[i]
    ensures HeaderAt(a, off) == HeaderAt(b, off)
  {
  }

  /** Flagging the type of a header leaves its length and address. */
  lemma HeaderAfterFlag(mem: seq<u8>, off: nat, e: QueueEntry)
    requires off + ENTRY_HEADER <= |mem| && HeaderAt(mem, off) == e
    ensures HeaderAt(Splice(mem, off, Le32(Flagged(e.typ))), off) == e.(typ := Flagged(e.typ))
  {
    var m := Splice(mem, off, Le32(Flagged(e.typ)));
    ReadAfterWrite32(mem, off, Flagged(e.typ));
    hide Le32;
  }

  /** The entry as it appears in the output: flagged if its data could not be read. */
  function Recorded(e: QueueEntry, ok: bool): QueueEntry {
    if ok then e else e.(typ := Flagged(e.typ))
  }

  /** Sizes below 2^30 do not wrap around when they are added to an offset. */
  predicate Small(n: u32) { n < 0x4000_0000 }

  lemma ZeroIsLocal(b: Buf, off: u32, n: u32)
    requires b.ZeroSafe(off, n)
    ensures b.Zero(off, n) == b.(mem := b.Zero(off, n).mem)
    ensures SameOutside(b.mem, b.Zero(off, n).mem, off, off + n)
  {
    hide Wrap32;
  }

  lemma DereferenceIsLocal(b: Buf, m: Memory, off: u32, addr: u64, n: u32)
    requires b.ZeroSafe(off, n)
    ensures var (b', _) := b.Dereference(m, off, addr, n);
            b' == b.(mem := b'.mem) && SameOutside(b.mem, b'.mem, off, off + n)
  {
    ZeroIsLocal(b, off, n);
    hide Wrap32, Buf.Zero, Fetch;
  }

  lemma ReserveFits(b: Buf, e: QueueEntry)
    requires b.Ok() && Small(e.len) && b.ReserveSafe(e.len)
    requires !b.Reserve(e).0.full
    ensures var (b', r) := b.Reserve(e);
            && r == Some(b.len + ENTRY_HEADER)
            && b'.Ok() && |b'.mem| == |b.mem|
            && b'.len == b.len + EntrySize(e.len)
            && b.len + ENTRY_HEADER + e.len <= b'.len
            && SameOutside(b.mem, b'.mem, b.len, b.len + ENTRY_HEADER)
            && HeaderAt(b'.mem, b.len) == e
  {
    SmallSize(b.len, e.len);
    HeaderAfterWrite(b.mem, b.len, e);
    hide HeaderAt, EntryBytes, Wrap32, Pad8, EntrySize;
  }

  lemma SmallSize(len: nat, n: u32)
    requires len < 0x8000_0000 && Small(n)
    ensures n <= Pad8(n) < n + 8 && Pad8(n) % 8 == 0
    ensures Wrap32(len + EntrySize(n)) == len + EntrySize(n)
  {
  }

  /** An entry written when there is room is appended with its padding, its header is the entry,
    * flagged if it could not be read, and its data is the memory it refers to, or zero. */
  lemma WriteEntryFits(b: Buf, mem: Memory, e: QueueEntry)
    requires b.Ok() && Small(e.len) && b.WriteEntrySafe(mem, e)
    requires !b.WriteEntry(mem, e).0.full
    ensures var (b', r) := b.WriteEntry(mem, e);
            var data := b.len + ENTRY_HEADER;
            && b'.Ok() && |b'.mem| == |b.mem|
            && b'.len == b.len + EntrySize(e.len)
            && data + e.len <= b'.len
            && SameOutside(b.mem, b'.mem, b.len, data + e.len)
            && HeaderAt(b'.mem, b.len) == Recorded(e, r.Some?)
            && r == (if Readable(mem, e.addr, e.len) then Some(data) else None)
            && b'.mem[data..data + e.len]
                 == (if r.Some? then Fetch(mem, e.addr, e.len) else Zeros(e.len))
  {
    hide HeaderAt, EntryBytes;
    ReserveFits(b, e);
    var (b1, r1) := b.Reserve(e);
    var data := b.len + ENTRY_HEADER;
    var (b2, ok) := b1.Dereference(mem, data, e.addr, e.len);
    assert HeaderAt(b2.mem, b.len) == e by { HeaderIsLocal(b1.mem, b2.mem, b.len); }
    assert b2.mem[data..data + e.len] == (if ok then Fetch(mem, e.addr, e.len) else Zeros(e.len));
    if !ok {
      FlagBytes(b2.mem, b.len, e);
      var (b', _) := b.WriteEntry(mem, e);
      assert b'.mem[data..data + e.len] == b2.mem[data..data + e.len];
    }
  }

  lemma FlagBytes(mem: seq<u8>, off: nat, e: QueueEntry)
    requires off + ENTRY_HEADER <= |mem| && HeaderAt(mem, off) == e
    ensures Read32(mem, off) == e.typ
    ensures HeaderAt(Splice(mem, off, Le32(Flagged(e.typ))), off) == Recorded(e, false)
  {
    HeaderAfterFlag(mem, off, e);
  }
}
