/** Runs that stay above where they started: what was written before them survives, even when they
  * overflow the output. */
module Containment {
  import opened Words
  import opened Bytes
  import opened Wrappers
  import opened Worklist
  import opened Buffer
  import opened BufferFacts
  import opened Machine
  import opened MachineFrame
  import opened Runs
  import opened Alignment
  import opened Expression
  import opened ContextWalk
  import opened FramedRun
  import CaptureMask
  import opened D = Decoder

  /** The bytes below lo are those of base, and the output still reaches up to lo. */
  ghost predicate Kept(base: seq<u8>, m: State, lo: nat) {
    && m.Ok()
    && |base| == |m.buf.mem|
    && lo <= m.buf.len
    && forall i :: 0 <= i < lo && i < |base| ==> m.buf.mem[i] == base[i]
  }

  // ---------------------------------------------------------------------------------------
  // Refused entries

  /** There is no room for an entry with so much data. */
  predicate Refused(b: Buf, dataLen: u32)
    requires b.Ok()
  {
    b.LenWith(dataLen) > |b.mem|
  }

  /** An entry that was not refused does not wrap around past the backing array. */
  predicate Accommodated(b: Buf, dataLen: u32)
    requires b.Ok()
  {
    && !Refused(b, dataLen)
    && b.InRange(b.len, ENTRY_HEADER)
    && (Wrap32(b.len + ENTRY_HEADER + dataLen) > |b.mem| || b.InRange(b.len + ENTRY_HEADER, dataLen))
  }

  lemma SmallIsAccommodated(b: Buf, dataLen: u32)
    requires b.Ok() && Small(dataLen)
    ensures Accommodated(b, dataLen) <==> !Refused(b, dataLen)
  {
    SmallSize(b.len, dataLen);
  }

  /** When writing an entry stays inside the backing array: when there is room for it, or when it was
    * refused but its data fits the array from offset 0 on and can be read. */
  lemma WriteStaysInsideIff(b: Buf, mem: Memory, e: QueueEntry)
    requires b.Ok()
    ensures b.WriteEntrySafe(mem, e)
            <==> Accommodated(b, e.len)
                 || (Refused(b, e.len) && e.len <= |b.mem| && Readable(mem, e.addr, e.len))
  {
    hide Buf.LenWith, Splice, Fetch, Pad8, Readable, EntryBytes;
    WrapSmall(e.len);
    hide Wrap32;
  }

  /** A refused entry that is too large for the array, or cannot be read, is flagged at the header
    * before offset 0: in 32-bit arithmetic, almost 4 GiB behind the start of the array. One that fits
    * the array has its length zeroed from the start of the output on before that. */
  lemma RefusedEntryLeavesArray(b: Buf, mem: Memory, e: QueueEntry)
    requires b.Ok() && Refused(b, e.len) && !(e.len <= |b.mem| && Readable(mem, e.addr, e.len))
    ensures b.ReserveSafe(e.len) && b.Reserve(e).1.None?
    ensures var b1 := b.Reserve(e).0;
            var header := Wrap32(DataOffset(b.Reserve(e).1) - ENTRY_HEADER);
            && b1.ZeroSafe(0, e.len) && !b1.Dereference(mem, 0, e.addr, e.len).1
            && header == 0xffff_fff0 && !b1.InRange(header, 4)
            && b1.Dereference(mem, 0, e.addr, e.len).0
               == b.(mem := if e.len <= |b.mem| then Splice(b.mem, 0, Zeros(e.len)) else b.mem, full := true)
    ensures !b.WriteEntrySafe(mem, e)
  {
    hide Buf.LenWith, Splice, Fetch, Pad8, Readable, EntryBytes;
    WriteStaysInsideIff(b, mem, e);
    WrapSmall(e.len);
  }

  /** The program does not notice that a reservation was refused: it goes on at offset 0, and
    * overwrites the start of the output with the data of the entry. */
  lemma RefusedEntryOverwritesStart(b: Buf, mem: Memory, e: QueueEntry)
    requires b.Ok() && Refused(b, e.len) && e.len <= |b.mem| && Readable(mem, e.addr, e.len)
    ensures b.WriteEntrySafe(mem, e)
    ensures b.WriteEntry(mem, e) == (b.(mem := Splice(b.mem, 0, Fetch(mem, e.addr, e.len)), full := true), Some(0))
  {
    hide Buf.LenWith, Splice, Fetch, Pad8, Readable;
    WriteStaysInsideIff(b, mem, e);
    WrapSmall(e.len);
    hide Wrap32;
  }

  /** Every other entry leaves alone what is below the length. */
  lemma AcceptedEntryIsLocal(b: Buf, mem: Memory, e: QueueEntry)
    requires b.Ok() && Accommodated(b, e.len)
    ensures b.WriteEntrySafe(mem, e)
    ensures SameBelow(b.mem, b.WriteEntry(mem, e).0.mem, b.len)
    ensures b.WriteEntry(mem, e).0.full == b.full
  {
    hide Buf.LenWith, Fetch, Pad8, Wrap32, Le32, Le64, EntryBytes;
    WriteStaysInsideIff(b, mem, e);
    var (b1, r) := b.Reserve(e);
    DereferenceIsLocal(b1, mem, b.len + ENTRY_HEADER, e.addr, e.len);
    hide Splice, Buf.Dereference;
  }

  /** Memory from addr on in which every byte is v. */
  function Filled(addr: u64, n: nat, v: u8): Memory {
    map i | 0 <= i < n :: Address(addr, i) := v
  }

  lemma FilledIsReadable(addr: u64, n: nat, v: u8)
    ensures Readable(Filled(addr, n, v), addr, n)
    ensures forall i :: 0 <= i < n ==> Fetch(Filled(addr, n, v), addr, n)[i] == v
  {
    hide Address;
  }

  /** Writing an entry stays inside the backing array and leaves alone what was written before it. */
  ghost predicate Local(b: Buf, mem: Memory, e: QueueEntry)
    requires b.Ok()
  {
    b.WriteEntrySafe(mem, e) && SameBelow(b.mem, b.WriteEntry(mem, e).0.mem, b.len)
  }

  /** An entry is local whatever the memory of the process, exactly when there is room for it or it
    * has no data. Nothing is gained by knowing that its data can be read. */
  lemma EntriesAreLocalIff(b: Buf, e: QueueEntry)
    requires b.Ok()
    ensures (forall mem: Memory :: Local(b, mem, e))
            <==> Accommodated(b, e.len) || (Refused(b, e.len) && e.len == 0)
    ensures b.len > 0 ==>
              ((forall mem: Memory :: Readable(mem, e.addr, e.len) ==> Local(b, mem, e))
               <==> Accommodated(b, e.len) || (Refused(b, e.len) && e.len == 0))
  {
    hide Buf.WriteEntry, Buf.WriteEntrySafe, Refused, Accommodated, Readable;
    forall mem: Memory | Accommodated(b, e.len) ensures Local(b, mem, e) {
      AcceptedEntryIsLocal(b, mem, e);
    }
    forall mem: Memory | Refused(b, e.len) && e.len == 0 ensures Local(b, mem, e) {
      NothingIsReadable(mem, e.addr);
      RefusedEntryOverwritesStart(b, mem, e);
    }
    if !Accommodated(b, e.len) && !(Refused(b, e.len) && e.len == 0) {
      assert !Local(b, map[], e) by { NothingToRead(e.addr, e.len); WriteStaysInsideIff(b, map[], e); }
      if b.len > 0 { ReadableCanFail(b, e); }
    }
  }

  lemma NothingIsReadable(mem: Memory, addr: u64)
    ensures Readable(mem, addr, 0)
  {
  }

  lemma NothingToRead(addr: u64, n: nat)
    ensures n > 0 ==> !Readable(map[], addr, n)
  {
    var mem: Memory := map[];
    if n > 0 { assert Address(addr, 0) !in mem; }
  }

  lemma ReadableCanFail(b: Buf, e: QueueEntry)
    requires b.Ok() && b.len > 0 && !Accommodated(b, e.len) && !(Refused(b, e.len) && e.len == 0)
    ensures exists mem: Memory :: Readable(mem, e.addr, e.len) && !Local(b, mem, e)
  {
    hide Buf.WriteEntry, Buf.WriteEntrySafe, Accommodated, Readable;
    var v := if b.mem[0] == 0 then 1 else 0;
    var mem := Filled(e.addr, e.len, v);
    FilledIsReadable(e.addr, e.len, v);
    WriteStaysInsideIff(b, mem, e);
    if Refused(b, e.len) && e.len <= |b.mem| {
      RefusedEntryOverwritesStart(b, mem, e);
      assert b.WriteEntry(mem, e).0.mem[0] != b.mem[0];
    }
    assert !Local(b, mem, e);
  }

  // ---------------------------------------------------------------------------------------
  // Whether an instruction is refused an entry

  predicate WritesEntry(op: Op) {
    op.EnqueueSubroutine? || op.DereferencePtr? || op.PrepareGoContext?
  }

  /** The entry that EnqueueSubroutine writes. */
  function SubroutineEntry(env: Env, m: State): QueueEntry
    requires m.buf.InRange(m.offset, 8)
  {
    QueueEntry(env.unresolvedSubroutine, 8, Read64(m.buf.mem, m.offset))
  }

  function PointerEntry(m: State, bias: u32, n: u32): QueueEntry
    requires m.buf.InRange(m.offset, 8)
  {
    QueueEntry(0, n, Wrap64(Read64(m.buf.mem, m.offset) + bias))
  }

  function ContextEntry(m: State, n: u32, typ: u32): QueueEntry
    requires m.buf.InRange(m.offset + 8, 8)
  {
    QueueEntry(typ, n, Read64(m.buf.mem, m.offset + 8))
  }

  /** The object of the next link of a context walk, and the buffer it is written to; none if the walk
    * ends before it writes one. */
  function LinkEntry(env: Env, m: State): Option<(Buf, QueueEntry)>
    requires m.Ok()
  {
    if m.contextMask == 0 || !m.buf.InRange(m.offset, 16) || Read64(m.buf.mem, m.offset) == 0 then None
    else
      var (b, ok) := LoadType(env, m.buf, m.offset);
      var id := LinkType(env, b, m.offset);
      if !ok || id.None? then None
      else Some((b, QueueEntry(id.value, env.typeInfo[id.value].byteLen, Read64(b.mem, m.offset + 8))))
  }

  /** There is no room for the object of a link that the walk visits. */
  ghost predicate WalkRefused(env: Env, m: State, budget: nat)
    requires m.Ok()
    decreases budget
  {
    hide WalkLink, LinkEntry;
    budget > 0 &&
    (|| (var e := LinkEntry(env, m); e.Some? && e.value.0.Ok() && Refused(e.value.0, e.value.1.len))
     || (WalkLink(env, m).More? && WalkRefused(env, WalkLink(env, m).m, budget - 1)))
  }

  /** The state in which the walk of a context starts, if its object was written and can be read. */
  ghost function ContextStart(env: Env, m: State, n: u32, typ: u32, count: u8): (r: Option<State>)
    requires m.Ok()
    ensures r.Some? ==> r.value.Ok()
  {
    hide Buf.WriteEntry, Buf.WriteEntrySafe;
    if !m.buf.InRange(m.offset + 8, 8) then None
    else
      var e := ContextEntry(m, n, typ);
      var (work, isNew) := m.work.ShouldRecord(e.addr, typ);
      if !isNew || !m.buf.WriteEntrySafe(env.memory, e) then None
      else
        WriteEntryOk(m.buf, env.memory, e);
        var (b, r) := m.buf.WriteEntry(env.memory, e);
        if r.None? || !b.ZeroSafe(r.value, n) then None
        else Some(m.(work := work, buf := b.Zero(r.value, n), contextOffset := r.value,
                     contextMask := CaptureMask.Initial(count)))
  }

  /** Whether there is no room for an entry that the instruction writes: for the one it writes first,
    * or for the object of a link of a context walk. Nothing is said about whether it can be read. */
  ghost predicate EntryRefused(env: Env, m: State, op: Op)
    requires m.Ok()
  {
    match op
    case EnqueueSubroutine => m.buf.InRange(m.offset, 8) && Refused(m.buf, 8)
    case DereferencePtr(bias, n) =>
      m.buf.InRange(m.offset, 8) && PointerEntry(m, bias, n).addr != 0 && Refused(m.buf, n)
    case PrepareGoContext(n, typ, count) =>
      && m.buf.InRange(m.offset + 8, 8)
      && m.work.ShouldRecord(ContextEntry(m, n, typ).addr, typ).1
      && (Refused(m.buf, n)
          || (var start := ContextStart(env, m, n, typ, count);
              start.Some? && WalkRefused(env, start.value, env.walkBudget)))
    case _ => false
  }

  /** Whether an entry that the instruction writes leaves the backing array. */
  ghost predicate EntryLeaves(env: Env, m: State, op: Op)
    requires m.Ok()
  {
    match op
    case EnqueueSubroutine =>
      m.buf.InRange(m.offset, 8) && !m.buf.WriteEntrySafe(env.memory, SubroutineEntry(env, m))
    case DereferencePtr(bias, n) =>
      && m.buf.InRange(m.offset, 8) && PointerEntry(m, bias, n).addr != 0
      && !m.buf.WriteEntrySafe(env.memory, PointerEntry(m, bias, n))
    case PrepareGoContext(n, typ, count) =>
      && m.buf.InRange(m.offset + 8, 8)
      && m.work.ShouldRecord(ContextEntry(m, n, typ).addr, typ).1
      && (!m.buf.WriteEntrySafe(env.memory, ContextEntry(m, n, typ))
          || (var start := ContextStart(env, m, n, typ, count);
              start.Some? && WalkLeaves(env, start.value, env.walkBudget)))
    case _ => false
  }

  ghost predicate WalkLeaves(env: Env, m: State, budget: nat)
    requires m.Ok()
    decreases budget
  {
    hide WalkLink, LinkEntry;
    budget > 0 &&
    (|| (var e := LinkEntry(env, m);
         e.Some? && e.value.0.Ok() && !e.value.0.WriteEntrySafe(env.memory, e.value.1))
     || (WalkLink(env, m).More? && WalkLeaves(env, WalkLink(env, m).m, budget - 1)))
  }

  // ---------------------------------------------------------------------------------------
  // Without a refusal no entry leaves the array, and no overflow is recorded

  lemma {:induction false} WalkStaysInside(env: Env, m: State, n: u32, budget: nat)
    requires m.Ok() && TypesFit(env, n) && !WalkRefused(env, m, budget)
    ensures !WalkLeaves(env, m, budget)
    decreases budget
  {
    hide WalkLink, LoadType, Read64, Buf.WriteEntrySafe, Refused;
    if budget > 0 {
      var e := LinkEntry(env, m);
      if e.Some? && e.value.0.Ok() {
        assert TypeFits(env.typeInfo[e.value.1.typ], n);
        SmallIsAccommodated(e.value.0, e.value.1.len);
        AcceptedEntryIsLocal(e.value.0, env.memory, e.value.1);
      }
      if WalkLink(env, m).More? { WalkStaysInside(env, WalkLink(env, m).m, n, budget - 1); }
    }
  }

  /** An orderly instruction that is refused no entry writes none outside the backing array. */
  lemma EntriesStayInside(env: Env, m: State, op: Op, l: Layout, open: bool)
    requires m.Ok() && Orderly(env, m, op, l, open) && !EntryRefused(env, m, op)
    ensures !EntryLeaves(env, m, op)
  {
    hide Buf.WriteEntrySafe, Buf.WriteEntry, Refused, Accommodated, WalkRefused, WalkLeaves, ContextStart, Read64,
         Layout.DataAt;
    match op {
      case EnqueueSubroutine =>
        if m.buf.InRange(m.offset, 8) {
          SmallIsAccommodated(m.buf, 8);
          AcceptedEntryIsLocal(m.buf, env.memory, SubroutineEntry(env, m));
        }
      case DereferencePtr(bias, n) =>
        if m.buf.InRange(m.offset, 8) && !Refused(m.buf, n) {
          SmallIsAccommodated(m.buf, n);
          AcceptedEntryIsLocal(m.buf, env.memory, PointerEntry(m, bias, n));
        }
      case PrepareGoContext(n, typ, count) => ContextStaysInside(env, m, n, typ, count);
      case _ =>
    }
  }

  lemma ContextStaysInside(env: Env, m: State, n: u32, typ: u32, count: u8)
    requires m.Ok() && TypesFit(env, n) && !EntryRefused(env, m, PrepareGoContext(n, typ, count))
    ensures !EntryLeaves(env, m, PrepareGoContext(n, typ, count))
  {
    hide Buf.WriteEntrySafe, Buf.WriteEntry, Refused, Accommodated, WalkRefused, WalkLeaves, ContextStart, Read64;
    if m.buf.InRange(m.offset + 8, 8) && !Refused(m.buf, n) {
      SmallIsAccommodated(m.buf, n);
      AcceptedEntryIsLocal(m.buf, env.memory, ContextEntry(m, n, typ));
      var start := ContextStart(env, m, n, typ, count);
      if start.Some? && !WalkRefused(env, start.value, env.walkBudget) {
        WalkStaysInside(env, start.value, n, env.walkBudget);
      }
    }
  }

  /** An entry for which there is room is no overflow. */
  lemma UnrefusedKeepsFlag(b: Buf, mem: Memory, e: QueueEntry)
    requires b.Ok() && b.WriteEntrySafe(mem, e) && !Refused(b, e.len)
    ensures b.WriteEntry(mem, e).0.full == b.full
  {
    hide Buf.LenWith, Fetch, Pad8, Wrap32, Le32, Le64, EntryBytes, Zeros, Splice, Read32;
  }

  /** Offering values does not touch the flag. */
  lemma OfferKeepsFlag(env: Env, m: State, impl: ContextImpl)
    requires m.Ok()
    ensures var r := OfferValue(env, m, impl); r.Next? ==> r.m.buf.full == m.buf.full
  {
    hide ResolveAny, Wrap32, RecordContextValue;
    forall m1: State, spec: ContextValue, v: Known, expected: u32 | m1.Ok()
      ensures var r := RecordContextValue(m1, spec, v, expected); r.Next? ==> r.m.buf.full == m1.buf.full
    {
      RecordKeepsFlag(m1, spec, v, expected);
    }
  }

  lemma RecordKeepsFlag(m: State, spec: ContextValue, v: Known, expected: u32)
    requires m.Ok()
    ensures var r := RecordContextValue(m, spec, v, expected); r.Next? ==> r.m.buf.full == m.buf.full
  {
    hide CaptureMask.Has, CaptureMask.Clear, Le64, Work.Push, Wrap32, Splice;
  }

  lemma {:induction false} WalkKeepsFlag(env: Env, m: State, budget: nat)
    requires m.Ok() && !WalkRefused(env, m, budget)
    ensures var r := Walk(env, m, budget); r.Stop? ==> r.m.buf.full == m.buf.full
    decreases budget
  {
    hide WalkLink;
    if budget > 0 {
      LinkKeepsFlag(env, m);
      if WalkLink(env, m).More? { WalkKeepsFlag(env, WalkLink(env, m).m, budget - 1); }
    }
  }

  lemma LinkKeepsFlag(env: Env, m: State)
    requires m.Ok()
    requires var e := LinkEntry(env, m); e.Some? && e.value.0.Ok() ==> !Refused(e.value.0, e.value.1.len)
    ensures var r := WalkLink(env, m); !r.Broken? ==> r.m.buf.full == m.buf.full
  {
    hide LoadType, Read64, Buf.WriteEntry, Buf.WriteEntrySafe, OfferValue, Refused;
    if m.contextMask != 0 && m.buf.InRange(m.offset, 8) {
      LoadTypeIsLocal(env, m.buf, m.offset);
      var e := LinkEntry(env, m);
      if e.Some? && e.value.0.WriteEntrySafe(env.memory, e.value.1) {
        var b := e.value.0;
        UnrefusedKeepsFlag(b, env.memory, e.value.1);
        WriteEntryOk(b, env.memory, e.value.1);
        var (b', r) := b.WriteEntry(env.memory, e.value.1);
        if r.Some? {
          OfferKeepsFlag(env, m.(buf := b', offset := r.value), env.typeInfo[e.value.1.typ].contextImpl.value);
        }
      }
    }
  }

  /** An instruction that writes entries and is refused none records no overflow. */
  lemma WriterKeepsFlag(env: Env, depth: u32, m: State, op: Op)
    requires m.Ok() && !m.buf.full && WritesEntry(op) && !EntryRefused(env, m, op)
    ensures var r := Exec(env, depth, m, op); !r.Crash? ==> !r.m.buf.full
  {
    hide Buf.WriteEntrySafe, Buf.WriteEntry, Refused, Walk, WalkRefused, Search, Read64, Le64, Work.Push;
    if op.EnqueueSubroutine? {
      if m.buf.InRange(m.offset, 8) && m.buf.WriteEntrySafe(env.memory, SubroutineEntry(env, m)) {
        UnrefusedKeepsFlag(m.buf, env.memory, SubroutineEntry(env, m));
      }
    } else if op.DereferencePtr? {
      DataIs(env, depth, m, op);
      if m.buf.InRange(m.offset, 8) {
        var e := PointerEntry(m, op.bias, op.byteLen);
        if e.addr != 0 && m.buf.WriteEntrySafe(env.memory, e) { UnrefusedKeepsFlag(m.buf, env.memory, e); }
      }
    } else {
      ContextKeepsFlag(env, m, op.dataByteLen, op.typeID, op.captureCount);
    }
  }

  lemma ContextKeepsFlag(env: Env, m: State, n: u32, typ: u32, count: u8)
    requires m.Ok() && !m.buf.full && !EntryRefused(env, m, PrepareGoContext(n, typ, count))
    ensures var r := ExecGoContext(env, m, n, typ, count); !r.Crash? ==> !r.m.buf.full
  {
    hide Buf.WriteEntrySafe, Buf.WriteEntry, Refused, Walk, WalkRefused, Read64, CaptureMask.Initial;
    if m.buf.InRange(m.offset + 8, 8) {
      var e := ContextEntry(m, n, typ);
      if m.work.ShouldRecord(e.addr, typ).1 && m.buf.WriteEntrySafe(env.memory, e) {
        UnrefusedKeepsFlag(m.buf, env.memory, e);
        WriteEntryOk(m.buf, env.memory, e);
        var start := ContextStart(env, m, n, typ, count);
        if start.Some? { WalkKeepsFlag(env, start.value, env.walkBudget); }
      }
    }
  }

  // ---------------------------------------------------------------------------------------
  // One instruction

  /** Every other instruction that overflows the output changes nothing else and fails the run. */
  lemma OverflowIsClean(env: Env, depth: u32, m: State, op: Op)
    requires m.Ok() && !m.buf.full && !EntryRefused(env, m, op)
    ensures var r := Exec(env, depth, m, op);
            !r.Crash? && r.m.buf.full ==> r.Done? && !r.ok && r.m.buf == m.buf.(full := true)
  {
    hide ExecGoContext, ExecSubroutine, ExecDereferencePtr, ExecControl, ExecHMapHeader, ExecInterface,
         ExecEmptyInterface, EntryRefused;
    if WritesEntry(op) {
      WriterKeepsFlag(env, depth, m, op);
    } else if IsControl(op) {
      ControlKeepsBuffer(env, m, op);
    } else if IsEnqueue(op) {
      EnqueueKeepsFlag(env, m, op);
    } else if IsData(op) {
      DataOverflow(env, depth, m, op);
    }
  }

  lemma ControlKeepsBuffer(env: Env, m: State, op: Op)
    requires m.Ok() && IsControl(op)
    ensures var r := ExecControl(env, m, op); !r.Crash? ==> r.m.buf == m.buf
  {
  }

  lemma EnqueueKeepsFlag(env: Env, m: State, op: Op)
    requires m.Ok() && IsEnqueue(op) && !op.EnqueueSubroutine?
    ensures var r := ExecEnqueue(env, m, op); !r.Crash? ==> r.m.buf.full == m.buf.full
  {
    hide Work.Push, Read64, Wrap32, Buckets;
    match op {
      case EnqueueHMapHeader(t, n, a, b, c, d) =>
        HMapFrame(env, m, t, n, a, b, c, d);
        hide Keeps;
      case _ =>
    }
  }

  lemma DataOverflow(env: Env, depth: u32, m: State, op: Op)
    requires m.Ok() && !m.buf.full && IsData(op) && !op.DereferencePtr?
    ensures var r := ExecData(env, depth, m, op);
            !r.Crash? && r.m.buf.full ==> r.Done? && !r.ok && r.m.buf == m.buf.(full := true)
  {
    hide Pad8, Read64, Read32, EntryBytes, Le32, Le64, Splice, Fetch, Zeros, CopyForward, Wrap32, Wrap64;
  }

  /** An orderly instruction that is not refused an entry stays above the layout. */
  lemma ExecStaysAbove(base: seq<u8>, env: Env, depth: u32, m: State, op: Op, l: Layout, open: bool)
    requires Section(base, m, l, open) && Orderly(env, m, op, l, open) && !EntryRefused(env, m, op)
    ensures var r := Exec(env, depth, m, op);
            !r.Crash? ==> Kept(base, r.m, l.lo) && (r.m.buf.full ==> r.Done? && !r.ok)
  {
    hide Exec, LaidOut, Orderly, OpenAfter, LayoutAfter;
    SectionKeeps(base, m, l, open);
    OverflowIsClean(env, depth, m, op);
    SectionExec(base, env, depth, m, op, l, open);
    var r := Exec(env, depth, m, op);
    if !r.Crash? && !r.m.buf.full {
      SectionKeeps(base, r.m, LayoutAfter(env, m, op, r.m, l), OpenAfter(env, m, op, open));
      LayoutStaysThere(env, m, op, r.m, l);
    }
  }

  lemma SectionKeeps(base: seq<u8>, m: State, l: Layout, open: bool)
    requires Section(base, m, l, open)
    ensures Kept(base, m, l.lo) && !m.buf.full
  {
    hide LaidOut;
  }

  lemma LayoutStaysThere(env: Env, m: State, op: Op, m': State, l: Layout)
    ensures LayoutAfter(env, m, op, m', l).lo == l.lo
  {
    hide Read64;
  }

  // ---------------------------------------------------------------------------------------
  // A whole run

  /** No instruction of a run is refused an entry. */
  ghost predicate Unrefused(env: Env, depth: u32, m: State, fuel: nat)
    requires m.Ok()
    decreases fuel
  {
    hide Step, EntryRefused, Decode;
    fuel == 0 ||
    match Current(env, m)
    case None => true
    case Some(op) =>
      && Fetched(env, m).Ok()
      && !EntryRefused(env, Fetched(env, m), op)
      && match Step(env, depth, m)
         case Next(m') => Unrefused(env, depth, m', fuel - 1)
         case _ => true
  }

  /** A run whose data goes where data belongs, and which is refused no entry. */
  ghost predicate Contained(env: Env, depth: u32, m: State, l: Layout, open: bool, fuel: nat)
    requires m.Ok()
  {
    OrderlyRun(env, depth, m, l, open, fuel) && Unrefused(env, depth, m, fuel)
  }

  /** A contained run leaves what was there before it, even if it overflows the output; then it fails. */
  lemma {:induction false} RunStaysAbove(base: seq<u8>, env: Env, depth: u32, m: State, l: Layout, open: bool,
                                         fuel: nat)
    requires Section(base, m, l, open) && Contained(env, depth, m, l, open, fuel)
    ensures var r := Iterate(env, depth, m, fuel);
            r.Done? ==> Kept(base, r.m, l.lo) && (r.m.buf.full ==> !r.ok)
    decreases fuel
  {
    hide Step, Exec, Decode, Section, Kept, Orderly, LayoutAfter, OpenAfter, EntryRefused;
    SectionOk(base, m, l, open);
    SectionKeeps(base, m, l, open);
    if fuel > 0 {
      var r := Step(env, depth, m);
      if Current(env, m).None? {
        NoInstruction(env, depth, m);
      } else {
        var op := Current(env, m).value;
        assert Section(base, Fetched(env, m), l, open) by { FetchedSection(base, env, m, l, open); }
        ExecStaysAbove(base, env, depth, Fetched(env, m), op, l, open);
        StepExecutes(env, depth, m);
        SectionStep(base, env, depth, m, op, l, open);
        if r.Next? {
          LayoutStaysThere(env, Fetched(env, m), op, r.m, l);
          RunStaysAbove(base, env, depth, r.m, LayoutAfter(env, Fetched(env, m), op, r.m, l),
                        OpenAfter(env, Fetched(env, m), op, open), fuel - 1);
        }
      }
    }
  }

  lemma FetchedSection(base: seq<u8>, env: Env, m: State, l: Layout, open: bool)
    requires Section(base, m, l, open)
    ensures Section(base, Fetched(env, m), l, open)
  {
    hide LaidOut, Decode;
  }

  /** No instruction of a run writes an entry outside the backing array. */
  ghost predicate WritesInside(env: Env, depth: u32, m: State, fuel: nat)
    requires m.Ok()
    decreases fuel
  {
    hide Step, EntryLeaves, Decode;
    fuel == 0 ||
    match Current(env, m)
    case None => true
    case Some(op) =>
      && Fetched(env, m).Ok()
      && !EntryLeaves(env, Fetched(env, m), op)
      && match Step(env, depth, m)
         case Next(m') => WritesInside(env, depth, m', fuel - 1)
         case _ => true
  }

  /** In a contained run every entry is written inside the backing array, readable or not. */
  lemma {:induction false} ContainedWritesInside(env: Env, depth: u32, m: State, l: Layout, open: bool, fuel: nat)
    requires m.Ok() && Contained(env, depth, m, l, open, fuel)
    ensures WritesInside(env, depth, m, fuel)
    decreases fuel
  {
    hide Step, Decode, Orderly, LayoutAfter, OpenAfter, EntryRefused, EntryLeaves;
    if fuel > 0 && Current(env, m).Some? {
      var op, m1 := Current(env, m).value, Fetched(env, m);
      EntriesStayInside(env, m1, op, l, open);
      var r := Step(env, depth, m);
      if r.Next? {
        ContainedWritesInside(env, depth, r.m, LayoutAfter(env, m1, op, r.m, l), OpenAfter(env, m1, op, open),
                              fuel - 1);
      }
    }
  }
}
