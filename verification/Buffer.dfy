/** The output buffer as a value: a backing array of fixed capacity, the length in use, and the
  * overflow flag. Offsets are 32-bit, with wrap-around.
  *
  * The program assumes of its callers that the offsets and lengths they pass lie inside the
  * backing array. Each operation that relies on this has a companion predicate, named ...Safe,
  * that says exactly when it stays inside; outside it the program panics or writes foreign
  * memory, and the stack machine reports a fault.
  */
module Buffer {
  import opened Words
  import opened Bytes
  import opened Wrappers
  import opened Worklist

  const SNAPSHOT_HEADER := 56
  const GOROUTINE_HEADER := 40
  const ENTRY_HEADER := 16
  const FRAME_HEADER := 8
  /** Marks, in the type of an entry, that its data could not be read. */
  const UNREADABLE := 0x8000_0000

  /** Readable memory of the stopped process. */
  type Memory = map<u64, u8>

  function Address(addr: u64, i: nat): u64 { Wrap64(addr + i) }

  predicate Readable(mem: Memory, addr: u64, n: nat) {
    forall i :: 0 <= i < n ==> Address(addr, i) in mem
  }

  function Fetch(mem: Memory, addr: u64, n: nat): (s: seq<u8>)
    requires Readable(mem, addr, n)
    ensures |s| == n
  {
    seq(n, i requires 0 <= i < n => mem[Address(addr, i)])
  }

  /** Sets bit 31 of a type. */
  function Flagged(typ: u32): u32 {
    if typ < UNREADABLE then typ + UNREADABLE else typ
  }

  function EntryBytes(e: QueueEntry): (s: seq<u8>)
    ensures |s| == ENTRY_HEADER
  {
    Le32(e.typ) + Le32(e.len) + Le64(e.addr)
  }

  /** The bytes an entry takes: its header and its data, padded to a multiple of 8. */
  function EntrySize(dataLen: u32): nat { ENTRY_HEADER + Pad8(dataLen) }

  /** A refused reservation leaves the data offset at 0. */
  function DataOffset(r: Option<u32>): u32 {
    match r
    case Some(off) => off
    case None => 0
  }

  datatype Buf = Buf(mem: seq<u8>, len: nat, full: bool) {
    predicate Ok() {
      len <= |mem| < 0x8000_0000
    }

    predicate InRange(off: nat, n: nat) {
      off + n <= |mem|
    }

    function Write(off: nat, data: seq<u8>): Buf
      requires InRange(off, |data|)
    {
      this.(mem := Splice(mem, off, data))
    }

    function Truncate(off: nat): Buf
      requires off <= |mem|
    {
      this.(len := off)
    }

    /** Grows the length to at least minLen, or sets the overflow flag. */
    function EnsureLen(minLen: u32): (Buf, bool)
      requires Ok()
    {
      if minLen < len then (this, true)
      else if minLen > |mem| then (this.(full := true), false)
      else (this.(len := minLen), true)
    }

    predicate ZeroSafe(off: u32, n: u32) {
      Wrap32(off + n) > |mem| || InRange(off, n)
    }

    function Zero(off: u32, n: u32): Buf
      requires ZeroSafe(off, n)
    {
      if Wrap32(off + n) > |mem| then this else Write(off, Zeros(n))
    }

    /** Copies n bytes of memory to off; zeroes them if they cannot be read. */
    function Dereference(m: Memory, off: u32, addr: u64, n: u32): (Buf, bool)
      requires ZeroSafe(off, n)
    {
      if Wrap32(off + n) > |mem| then (this, false)
      else if Readable(m, addr, n) then (Write(off, Fetch(m, addr, n)), true)
      else (Zero(off, n), false)
    }

    predicate CopySafe(src: u32, dst: u32, n: u32) {
      || Wrap32(src + n) > |mem|
      || Wrap32(dst + n) > |mem|
      || n == 0
      || (src + n <= len && dst + n <= len)
    }

    function Copy(src: u32, dst: u32, n: u32): Buf
      requires Ok() && CopySafe(src, dst, n)
    {
      if Wrap32(src + n) > |mem| || Wrap32(dst + n) > |mem| || n == 0 then this
      else this.(mem := CopyForward(mem, src, dst, n))
    }

    /** The length the buffer needs for one more entry, in 32-bit arithmetic. */
    function LenWith(dataLen: u32): u32
      requires Ok()
    {
      Wrap32(len + EntrySize(dataLen))
    }

    predicate ReserveSafe(dataLen: u32)
      requires Ok()
    {
      LenWith(dataLen) > |mem| || InRange(len, ENTRY_HEADER)
    }

    /** Appends the header of an entry and room for its data; gives the offset of the data. */
    function Reserve(e: QueueEntry): (Buf, Option<u32>)
      requires Ok() && ReserveSafe(e.len)
    {
      var (b, ok) := EnsureLen(LenWith(e.len));
      if !ok then (b, None)
      else (b.Write(len, EntryBytes(e)), Some(len + ENTRY_HEADER))
    }

    /** The entry is dereferenced at the reserved offset, or at offset 0 if the reservation was
      * refused; if that fails the header before the offset is flagged. */
    predicate WriteEntrySafe(m: Memory, e: QueueEntry)
      requires Ok()
    {
      && ReserveSafe(e.len)
      && var (b, r) := Reserve(e);
         && b.ZeroSafe(DataOffset(r), e.len)
         && (!b.Dereference(m, DataOffset(r), e.addr, e.len).1 ==> r.Some?)
    }

    function WriteEntry(m: Memory, e: QueueEntry): (Buf, Option<u32>)
      requires Ok() && WriteEntrySafe(m, e)
    {
      var (b, r) := Reserve(e);
      var at := DataOffset(r);
      var (b', ok) := b.Dereference(m, at, e.addr, e.len);
      if ok then (b', Some(at))
      else (b'.Write(at - ENTRY_HEADER, Le32(Flagged(Read32(b'.mem, at - ENTRY_HEADER)))), None)
    }

    /** The length field of the entry whose data starts at the offset. */
    predicate EntryLenSafe(off: u32) {
      InRange(Wrap32(off - ENTRY_HEADER) + 4, 4)
    }

    function EntryLen(off: u32): u32
      requires EntryLenSafe(off)
    {
      Read32(mem, Wrap32(off - ENTRY_HEADER) + 4)
    }

    predicate FrameSafe(dataLen: u32)
      requires Ok()
    {
      || len + FRAME_HEADER + EntrySize(dataLen) + 8 > |mem|
      || (InRange(Wrap32(len + 24 + dataLen), 4) && InRange(Wrap32(len + 28 + dataLen), 4))
    }

    /** Appends a frame header and the entry of the frame: its data, the program and the depth.
      * Gives the offsets of the frame header and of the data. */
    function PrepareFrame(typ: u32, prog: u32, dataLen: u32, depth: u32): (Buf, Option<(u32, u32)>)
      requires Ok() && FrameSafe(dataLen)
    {
      var newLen := len + FRAME_HEADER + EntrySize(dataLen) + 8;
      if newLen > |mem| then (this.(full := true), None)
      else
        var b := this.(len := newLen)
          .Write(len, Le32(len + FRAME_HEADER) + Le32(0))
          .Write(len + FRAME_HEADER, EntryBytes(QueueEntry(typ, Wrap32(dataLen + 8), 0)))
          .Write(Wrap32(len + 24 + dataLen), Le32(prog))
          .Write(Wrap32(len + 28 + dataLen), Le32(depth));
        (b, Some((len, len + 24)))
    }

    /** Back-patches the length of a frame: everything appended after its header. */
    function ConcludeFrame(header: u32): Buf
      requires Ok() && InRange(header, 4)
    {
      Write(header, Le32(Wrap32(len - Read32(mem, header))))
    }
  }

  /** Byte by byte from the front, as the program copies. */
  function CopyForward(mem: seq<u8>, src: nat, dst: nat, n: nat): (r: seq<u8>)
    requires src + n <= |mem| && dst + n <= |mem|
    ensures |r| == |mem|
  {
    if n == 0 then mem
    else
      var m := CopyForward(mem, src, dst, n - 1);
      m[dst + n - 1 := m[src + n - 1]]
  }

  /** When the ranges do not overlap, a copy moves exactly the source bytes and nothing else. */
  lemma {:induction false} CopyOfDisjoint(mem: seq<u8>, src: nat, dst: nat, n: nat)
    requires src + n <= |mem| && dst + n <= |mem|
    requires src + n <= dst || dst + n <= src
    ensures CopyForward(mem, src, dst, n) == Splice(mem, dst, mem[src..src + n])
  {
    if n > 0 {
      CopyOfDisjoint(mem, src, dst, n - 1);
    }
  }

  /** A copy changes no byte outside its destination, even when the ranges overlap. */
  lemma {:induction false} CopyIsLocal(mem: seq<u8>, src: nat, dst: nat, n: nat)
    requires src + n <= |mem| && dst + n <= |mem|
    ensures SameOutside(mem, CopyForward(mem, src, dst, n), dst, dst + n)
  {
    if n > 0 { CopyIsLocal(mem, src, dst, n - 1); }
  }
}
