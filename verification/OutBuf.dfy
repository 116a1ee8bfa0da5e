/** The output buffer of the program: a backing array written in place. */
module OutBuffer {
  import opened Words
  import opened Bytes
  import opened Wrappers
  import opened Worklist
  import opened Buffer
  import opened Records
  import opened Unwinding
  import Snapshots

  class OutBuf {
    const out: array<u8>
    var len: nat
    var isFull: bool

    ghost function Value(): Buf
      reads this, out
    {
      Buf(out[..], len, isFull)
    }

    ghost predicate Valid()
      reads this, out
    {
      Value().Ok()
    }

    constructor (size: u32)
      requires size < 0x8000_0000
      ensures Valid() && fresh(out) && out.Length == size
      ensures Value() == Buf(Zeros(size), 0, false)
    {
      out := new u8[size](_ => 0);
      len, isFull := 0, false;
      new;
      assert out[..] == Zeros(size);
    }

    /** Stores data at an offset that lies inside the backing array. */
    method Put(off: nat, data: seq<u8>)
      requires Valid() && Value().InRange(off, |data|)
      modifies out
      ensures Value() == old(Value()).Write(off, data)
    {
      var i := 0;
      while i < |data|
        invariant 0 <= i <= |data|
        invariant forall k :: 0 <= k < out.Length ==>
                    out[k] == if off <= k < off + i then data[k - off] else old(out[k])
      {
        out[off + i] := data[i];
        i := i + 1;
      }
      assert out[..] == Splice(old(out[..]), off, data);
    }

    method Get32(off: nat) returns (v: u32)
      requires Valid() && Value().InRange(off, 4)
      ensures v == Read32(Value().mem, off)
    {
      v := Join(out[off], out[off + 1], out[off + 2], out[off + 3]);
    }

    method Get64(off: nat) returns (v: u64)
      requires Valid() && Value().InRange(off, 8)
      ensures v == Read64(Value().mem, off)
    {
      var lo := Get32(off);
      var hi := Get32(off + 4);
      v := (lo as int) + 0x1_0000_0000 * (hi as int);
    }

    method GetEntryLen(entryOffset: u32) returns (n: u32)
      requires Valid() && Value().EntryLenSafe(entryOffset)
      ensures n == Value().EntryLen(entryOffset)
    {
      n := Get32(Wrap32(entryOffset - ENTRY_HEADER) + 4);
    }

    method EnsureLen(minLen: u32) returns (ok: bool)
      requires Valid()
      modifies this
      ensures Valid()
      ensures (Value(), ok) == old(Value()).EnsureLen(minLen)
    {
      if minLen < len {
        return true;
      }
      if minLen > out.Length {
        isFull := true;
        return false;
      }
      len := minLen;
      ok := true;
    }

    method Truncate(offset: nat)
      requires Valid() && offset <= out.Length
      modifies this
      ensures Valid()
      ensures Value() == old(Value()).Truncate(offset)
    {
      len := offset;
    }

    method Zero(offset: u32, zeroLen: u32)
      requires Valid() && Value().ZeroSafe(offset, zeroLen)
      modifies out
      ensures Value() == old(Value()).Zero(offset, zeroLen)
    {
      if Wrap32(offset + zeroLen) > out.Length {
        return;
      }
      var i := 0;
      while i < zeroLen
        invariant 0 <= i <= zeroLen
        invariant out[..] == Splice(old(out[..]), offset, Zeros(i))
      {
        out[offset + i] := 0;
        assert Zeros(i + 1) == Zeros(i) + [0];
        i := i + 1;
      }
    }

    method Copy(src: u32, dst: u32, n: u32)
      requires Valid() && Value().CopySafe(src, dst, n)
      modifies out
      ensures Value() == old(Value()).Copy(src, dst, n)
    {
      if Wrap32(src + n) > out.Length {
        return;
      }
      if Wrap32(dst + n) > out.Length {
        return;
      }
      var i := 0;
      while i < n
        invariant 0 <= i <= n
        invariant n > 0 ==> out[..] == CopyForward(old(out[..]), src, dst, i)
        invariant n == 0 ==> out[..] == old(out[..])
      {
        out[dst + i] := out[src + i];
        i := i + 1;
      }
    }

    /** Copies memory of the stopped process into the buffer, or zeroes the range. */
    method Dereference(mem: Memory, offset: u32, addr: u64, n: u32) returns (ok: bool)
      requires Valid() && Value().ZeroSafe(offset, n)
      modifies out
      ensures (Value(), ok) == old(Value()).Dereference(mem, offset, addr, n)
    {
      if Wrap32(offset + n) > out.Length {
        return false;
      }
      if Readable(mem, addr, n) {
        Put(offset, Fetch(mem, addr, n));
        return true;
      }
      Zero(offset, n);
      ok := false;
    }

    method ReserveQueueEntry(entry: QueueEntry) returns (r: Option<u32>)
      requires Valid() && Value().ReserveSafe(entry.len)
      modifies this, out
      ensures Valid()
      ensures (Value(), r) == old(Value()).Reserve(entry)
      ensures old(len) <= len
    {
      var headerOffset := len;
      var newLen := Wrap32(headerOffset + Pad8(entry.len) + ENTRY_HEADER);
      var ok := EnsureLen(newLen);
      if !ok {
        return None;
      }
      Put(headerOffset, EntryBytes(entry));
      r := Some(headerOffset + ENTRY_HEADER);
    }

    /** Appends an entry with its data. If that would write outside the backing array, inside is false
      * and the array is as before; what the program then does to other memory is not modelled. */
    method WriteQueueEntry(mem: Memory, entry: QueueEntry) returns (r: Option<u32>, inside: bool)
      requires Valid()
      modifies this, out
      ensures Valid()
      ensures inside == old(Value()).WriteEntrySafe(mem, entry)
      ensures inside ==> (Value(), r) == old(Value()).WriteEntry(mem, entry)
      ensures !inside ==> Value() == old(Value())
      ensures old(len) <= len && (inside && r.Some? ==> Value().InRange(r.value, entry.len))
    {
      hide Wrap32, Le32, Read32, EntryBytes, Fetch, Zeros, Buf.LenWith, Splice;
      inside := CanWriteEntry(mem, entry);
      if !inside {
        return None, false;
      }
      var reserved := ReserveQueueEntry(entry);
      // The program does not test whether the reservation was refused.
      var dataOffset := DataOffset(reserved);
      var ok := Dereference(mem, dataOffset, entry.addr, entry.len);
      if !ok {
        var headerOffset := dataOffset - ENTRY_HEADER;
        var typ := Get32(headerOffset);
        Put(headerOffset, Le32(Flagged(typ)));
        return None, true;
      }
      r := Some(dataOffset);
    }

    method PrepareFrameData(typeID: u32, progID: u32, dataLen: u32, depth: u32)
      returns (r: Option<(u32, u32)>)
      requires Valid() && Value().FrameSafe(dataLen)
      modifies this, out
      ensures Valid()
      ensures (Value(), r) == old(Value()).PrepareFrame(typeID, progID, dataLen, depth)
    {
      hide Le32, Le64, Splice;
      var frameHeaderOffset := len;
      var newLen := len + FRAME_HEADER + ENTRY_HEADER + Pad8(dataLen) + 8;
      if newLen > out.Length {
        isFull := true;
        return None;
      }
      len := newLen;
      var queueEntryOffset := frameHeaderOffset + FRAME_HEADER;
      Put(frameHeaderOffset, Le32(queueEntryOffset) + Le32(0));
      Put(queueEntryOffset, EntryBytes(QueueEntry(typeID, Wrap32(dataLen + 8), 0)));
      var offset := queueEntryOffset + ENTRY_HEADER;
      Put(Wrap32(offset + dataLen), Le32(progID));
      Put(Wrap32(offset + dataLen + 4), Le32(depth));
      r := Some((frameHeaderOffset, offset));
    }

    method ConcludeFrameData(frameHeader: u32)
      requires Valid() && Value().InRange(frameHeader, 4)
      modifies out
      ensures Value() == old(Value()).ConcludeFrame(frameHeader)
    {
      var start := Get32(frameHeader);
      Put(frameHeader, Le32(Wrap32(len - start)));
    }

    /** Makes room for the header of the snapshot; gives its offset. */
    method WriteSnapshotHeader() returns (r: Option<u32>)
      requires Valid()
      modifies this
      ensures Valid()
      ensures old(len) + SNAPSHOT_HEADER > out.Length ==> r.None? && Value() == old(Value()).(full := true)
      ensures old(len) + SNAPSHOT_HEADER <= out.Length ==>
                r == Some(old(len)) && Value() == old(Value()).(len := old(len) + SNAPSHOT_HEADER)
    {
      var offset := len;
      var newLen := len + SNAPSHOT_HEADER;
      if newLen > out.Length {
        isFull := true;
        return None;
      }
      len := newLen;
      r := Some(offset);
    }

    /** Makes room for the header of a goroutine; gives its offset. */
    method WriteGoroutineHeader() returns (r: Option<u32>)
      requires Valid()
      modifies this
      ensures Valid()
      ensures (Value(), r.Some?) == old(Value()).EnsureLen(Wrap32(old(len) + GOROUTINE_HEADER))
      ensures r.Some? ==> r.value == old(len) && old(len) + GOROUTINE_HEADER <= out.Length
    {
      var offset := len;
      var newLen := Wrap32(offset + GOROUTINE_HEADER);
      var ok := EnsureLen(newLen);
      r := if ok then Some(offset) else None;
    }

    method WriteStack(stack: seq<u64>) returns (r: Option<u32>)
      requires Valid() && |stack| <= MAX_FRAMES
      modifies this, out
      ensures Valid()
      ensures (Value(), r.Some?) == Snapshots.WriteStack(old(Value()), stack)
      ensures r.Some? ==> r.value == 8 * |stack|
    {
      hide StackBytes;
      var offset := len;
      var byteLen := 8 * |stack|;
      var newLen := Wrap32(offset + byteLen);
      var ok := EnsureLen(newLen);
      if !ok {
        return None;
      }
      Put(offset, StackBytes(stack));
      r := Some(byteLen);
    }

    // -------------------------------------------------------------------------------------
    // Whether an operation stays inside the backing array

    method CanReserve(dataLen: u32) returns (safe: bool)
      requires Valid()
      ensures safe == Value().ReserveSafe(dataLen)
    {
      safe := Wrap32(len + EntrySize(dataLen)) > out.Length || len + ENTRY_HEADER <= out.Length;
    }

    method CanCopy(src: u32, dst: u32, n: u32) returns (safe: bool)
      requires Valid()
      ensures safe == Value().CopySafe(src, dst, n)
    {
      safe := Wrap32(src + n) > out.Length || Wrap32(dst + n) > out.Length || n == 0
           || (src + n <= len && dst + n <= len);
    }

    method CanPrepareFrame(dataLen: u32) returns (safe: bool)
      requires Valid()
      ensures safe == Value().FrameSafe(dataLen)
    {
      safe := len + FRAME_HEADER + EntrySize(dataLen) + 8 > out.Length
           || (Wrap32(len + 24 + dataLen) + 4 <= out.Length && Wrap32(len + 28 + dataLen) + 4 <= out.Length);
    }

    /** Whether writing an entry stays inside: its header, its data at the reserved offset or at 0,
      * and the header before that offset if the data cannot be read. */
    method CanWriteEntry(mem: Memory, entry: QueueEntry) returns (safe: bool)
      requires Valid()
      ensures safe == Value().WriteEntrySafe(mem, entry)
    {
      var reservable := CanReserve(entry.len);
      if !reservable {
        return false;
      }
      var end := Wrap32(len + EntrySize(entry.len));
      var refused := end >= len && end > out.Length;
      var at := if refused then 0 else len + ENTRY_HEADER;
      if Wrap32(at + entry.len) <= out.Length && at + entry.len > out.Length {
        return false;
      }
      var readable := Wrap32(at + entry.len) <= out.Length && Readable(mem, entry.addr, entry.len);
      safe := readable || !refused;
    }
  }
}
