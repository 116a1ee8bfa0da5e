/** When the length of the output buffer is a multiple of 8.
  *
  * Outside an open expression the length is meant to be a multiple of 8. Two instructions can
  * break this, and the theorem says exactly when: reading a frame slot or a register past the end
  * of the buffer while no expression is open, and opening an expression inside another one whose
  * scratch area ends unaligned. */
module Alignment {
  import opened Words
  import opened Bytes
  import opened Wrappers
  import opened Worklist
  import opened Buffer
  import opened Machine
  import opened MachineFrame
  import opened Runs
  import opened D = Decoder

  predicate Aligned(m: State, open: bool) {
    m.Ok() && m.resultsEnd % 8 == 0 && (!open ==> m.buf.len % 8 == 0)
  }

  /** The pointer of a dereference is null or cannot be read. */
  predicate PointerFails(env: Env, m: State, bias: u32, byteLen: u32)
    requires m.Ok()
  {
    m.buf.InRange(m.offset, 8) &&
    var addr := Wrap64(Read64(m.buf.mem, m.offset) + bias);
    var e := QueueEntry(0, byteLen, addr);
    addr == 0 || (m.buf.WriteEntrySafe(env.memory, e) && m.buf.WriteEntry(env.memory, e).1.None?)
  }

  /** Whether an expression is open after an instruction. */
  predicate OpenAfter(env: Env, m: State, op: Op, open: bool)
    requires m.Ok()
  {
    match op
    case PrepareExprEval => true
    case SaveExprResult(_, _) => false
    case DereferencePtr(b, n) => open && !PointerFails(env, m, b, n)
    case _ => open
  }

  /** The buffer grows to end just behind a slot of n bytes at the offset, off a boundary. */
  predicate GrowsUnaligned(m: State, n: u32) {
    m.buf.len < Wrap32(m.offset + n) <= |m.buf.mem| && Wrap32(m.offset + n) % 8 != 0
  }

  predicate Misaligns(m: State, op: Op, open: bool) {
    match op
    case DereferenceCFAOffset(_, n, _) => !open && GrowsUnaligned(m, n)
    case CopyFromRegister(_, n) => !open && GrowsUnaligned(m, n)
    case PrepareExprEval => open && m.buf.len % 8 != 0
    case _ => false
  }

  lemma LenWithAligned(b: Buf, n: u32)
    requires b.Ok() && b.len % 8 == 0
    ensures b.LenWith(n) % 8 == 0
  {
    PadAligned(n);
    hide Pad8, Wrap32;
    SumAligned(b.len, Pad8(n));
    WrapKeepsAlignment(b.len + EntrySize(n));
  }

  lemma SumAligned(a: nat, b: nat)
    requires a % 8 == 0 && b % 8 == 0
    ensures (a + (ENTRY_HEADER + b)) % 8 == 0
  {
  }

  lemma PadAligned(n: u32)
    ensures Pad8(n) % 8 == 0
  {
    if n % 8 != 0 { WrapKeepsAlignment(n + (8 - n % 8)); }
  }

  lemma WrapKeepsAlignment(k: int)
    requires k % 8 == 0
    ensures Wrap32(k) % 8 == 0
  {
    var q, t := k / 0x1_0000_0000, k / 8;
    assert k == 8 * t;
    assert Wrap32(k) == k - 0x1_0000_0000 * q;
    assert Wrap32(k) == 8 * (t - 0x2000_0000 * q);
  }

  lemma WriteEntryLen(b: Buf, mem: Memory, e: QueueEntry)
    requires b.Ok() && b.WriteEntrySafe(mem, e)
    ensures var b' := b.WriteEntry(mem, e).0;
            b'.Ok() && |b'.mem| == |b.mem| && (b'.len == b.len || b'.len == b.LenWith(e.len))
  {
  }

  lemma SubroutineLen(env: Env, m: State)
    requires m.Ok()
    ensures var r := ExecSubroutine(env, m);
            !r.Crash? ==>
              && r.m.resultsEnd == m.resultsEnd
              && (r.m.buf.len == m.buf.len || r.m.buf.len == m.buf.LenWith(8))
  {
    hide Buf.WriteEntry, Buf.WriteEntrySafe, Search, Buf.LenWith;
    if m.buf.InRange(m.offset, 8) {
      var e := QueueEntry(env.unresolvedSubroutine, 8, Read64(m.buf.mem, m.offset));
      if m.buf.WriteEntrySafe(env.memory, e) { WriteEntryLen(m.buf, env.memory, e); }
    }
  }

  lemma ContextLen(env: Env, m: State, dataLen: u32, typ: u32, count: u8)
    requires m.Ok()
    ensures var r := ExecGoContext(env, m, dataLen, typ, count);
            !r.Crash? ==> r.m.buf.len == m.buf.len || r.m.buf.len == m.buf.LenWith(dataLen)
  {
    hide Buf.WriteEntry, Buf.WriteEntrySafe, ContextBody, Buf.LenWith, Read64;
    if m.buf.InRange(m.offset + 8, 8) {
      var addr := Read64(m.buf.mem, m.offset + 8);
      var e := QueueEntry(typ, dataLen, addr);
      if m.buf.WriteEntrySafe(env.memory, e) {
        WriteEntryLen(m.buf, env.memory, e);
        var (b, r) := m.buf.WriteEntry(env.memory, e);
        if r.Some? {
          ContextBodyLen(env, m.(work := m.work.ShouldRecord(addr, typ).0, buf := b), r.value, dataLen, count);
        }
      }
    }
  }

  /** The walk is truncated away. */
  lemma ContextBodyLen(env: Env, m: State, o: u32, dataLen: u32, count: u8)
    requires m.Ok()
    ensures var r := ContextBody(env, m, o, dataLen, count); !r.Crash? ==> r.m.buf.len == m.buf.len
  {
    hide Walk;
  }

  /** The instructions that neither end nor open an expression leave the length alone, or lengthen
    * it by whole entries. */
  lemma EnqueueLen(env: Env, m: State, op: Op)
    requires m.Ok() && IsEnqueue(op)
    ensures var r := ExecEnqueue(env, m, op);
            !r.Crash? ==> SameFrame(m, r.m) && (r.m.buf.len == m.buf.len || r.m.buf.len == m.buf.LenWith(8))
  {
    hide WorkGrows, Buf.LenWith, ExecSubroutine, ExecHMapHeader, Work.Push, Read64, Le64, Wrap32, Fetch, Splice;
    if op.EnqueueSubroutine? {
      SubroutineFrame(env, m);
      SubroutineLen(env, m);
    } else if op.EnqueueHMapHeader? {
      HMapFrame(env, m, op.bucketsArrayType, op.bucketByteLen, op.flagsOffset, op.bOffset, op.bucketsOffset,
                op.oldBucketsOffset);
    }
  }

  lemma ControlLen(env: Env, m: State, op: Op)
    requires m.Ok() && IsControl(op)
    ensures var r := ExecControl(env, m, op); !r.Crash? ==> r.m.buf == m.buf && r.m.resultsEnd == m.resultsEnd
  {
    hide Wrap32;
  }

  /** From an aligned state, an instruction leads to an aligned state exactly when it is not one of
    * the two that misalign. */
  lemma AlignmentIsKept(env: Env, depth: u32, m: State, op: Op, open: bool)
    requires Aligned(m, open)
    ensures var r := Exec(env, depth, m, op);
            !r.Crash? ==> (Aligned(r.m, OpenAfter(env, m, op, open)) <==> !Misaligns(m, op, open))
  {
    hide ExecControl, ExecGoContext, ExecEnqueue, WorkGrows, Buf.LenWith, ExecDereferencePtr, PointerFails, ExecData,
         Wrap32;
    if !open { LenWithAligned(m.buf, 8); }
    if IsControl(op) {
      ControlLen(env, m, op);
    } else if IsEnqueue(op) {
      EnqueueLen(env, m, op);
    } else if op.DereferencePtr? {
      DereferenceAligned(env, m, op.bias, op.byteLen, open);
      assert Exec(env, depth, m, op) == ExecDereferencePtr(env, m, op.bias, op.byteLen) by {
        DataIs(env, depth, m, op);
      }
    } else if IsData(op) {
      DataAligned(env, depth, m, op, open);
    } else {
      ContextFrame(env, m, op.dataByteLen, op.typeID, op.captureCount);
      ContextLen(env, m, op.dataByteLen, op.typeID, op.captureCount);
      if !open { LenWithAligned(m.buf, op.dataByteLen); }
    }
  }

  lemma DataIs(env: Env, depth: u32, m: State, op: Op)
    requires m.Ok() && op.DereferencePtr?
    ensures ExecData(env, depth, m, op) == ExecDereferencePtr(env, m, op.bias, op.byteLen)
  {
    hide ExecDereferencePtr;
  }

  lemma DereferenceAligned(env: Env, m: State, bias: u32, byteLen: u32, open: bool)
    requires Aligned(m, open)
    ensures var r := ExecDereferencePtr(env, m, bias, byteLen);
            !r.Crash? ==> Aligned(r.m, open && !PointerFails(env, m, bias, byteLen))
  {
    hide Buf.WriteEntry, Buf.WriteEntrySafe, Buf.LenWith, Read64;
    if m.buf.InRange(m.offset, 8) {
      var e := QueueEntry(0, byteLen, Wrap64(Read64(m.buf.mem, m.offset) + bias));
      if m.buf.WriteEntrySafe(env.memory, e) {
        WriteEntryLen(m.buf, env.memory, e);
        if !open { LenWithAligned(m.buf, byteLen); }
      }
    }
  }

  lemma DataAligned(env: Env, depth: u32, m: State, op: Op, open: bool)
    requires Aligned(m, open) && IsData(op) && !op.DereferencePtr?
    ensures var r := ExecData(env, depth, m, op);
            !r.Crash? ==> (Aligned(r.m, OpenAfter(env, m, op, open)) <==> !Misaligns(m, op, open))
  {
    hide Pad8, Buf.LenWith, Read64, Read32, EntryBytes, Le32, Le64, Splice, Fetch, Zeros, CopyForward;
    if op.PrepareFrameData? {
      FrameAligned(env, depth, m, op, open);
    } else if op.PreparePointeeData? {
      if !open { LenWithAligned(m.buf, m.chased.len); }
      PointeeAligned(env, m, open);
    }
  }

  lemma FrameAligned(env: Env, depth: u32, m: State, op: Op, open: bool)
    requires Aligned(m, open) && op.PrepareFrameData?
    ensures var r := ExecPrepareFrame(m, depth, op.progID, op.dataByteLen, op.typeID);
            !r.Crash? ==> Aligned(r.m, open)
  {
    PadAligned(op.dataByteLen);
    hide Pad8, EntryBytes, Le32, Splice, Wrap32;
    if !open {
      SumAligned(m.buf.len, Pad8(op.dataByteLen));
      AddSixteen(m.buf.len + (ENTRY_HEADER + Pad8(op.dataByteLen)));
    }
    var r := ExecPrepareFrame(m, depth, op.progID, op.dataByteLen, op.typeID);
    assert r.Next? ==> r.m.buf.len == m.buf.len + (ENTRY_HEADER + Pad8(op.dataByteLen)) + 16;
  }

  lemma AddSixteen(a: nat)
    requires a % 8 == 0
    ensures (a + 16) % 8 == 0
  {
  }

  lemma PointeeAligned(env: Env, m: State, open: bool)
    requires Aligned(m, open) && (!open ==> m.buf.LenWith(m.chased.len) % 8 == 0)
    ensures var r := ExecPreparePointee(m); !r.Crash? ==> Aligned(r.m, open)
  {
    hide Pad8, EntryBytes, Buf.LenWith, Splice, Zeros;
  }

  // ---------------------------------------------------------------------------------------
  // Whole runs

  /** Whether an expression is open after k steps. */
  ghost predicate OpenAt(env: Env, depth: u32, m: State, open: bool, k: nat)
    requires m.Ok()
  {
    if k == 0 then open
    else match StateAfter(env, depth, m, k - 1)
      case None => false
      case Some(m1) =>
        Current(env, m1).Some? && Fetched(env, m1).Ok() &&
        OpenAfter(env, Fetched(env, m1), Current(env, m1).value, OpenAt(env, depth, m, open, k - 1))
  }

  /** Step i is not one of the two that misalign. */
  ghost predicate KeepsAlignment(env: Env, depth: u32, m: State, open: bool, i: nat)
    requires m.Ok()
  {
    match StateAfter(env, depth, m, i)
    case None => true
    case Some(m1) =>
      Current(env, m1).Some? ==>
        !Misaligns(Fetched(env, m1), Current(env, m1).value, OpenAt(env, depth, m, open, i))
  }

  /** In every state of a run without a misaligning instruction, the length is a multiple of 8
    * unless an expression is open. */
  lemma {:induction false} EveryStateIsAligned(env: Env, depth: u32, m: State, open: bool, k: nat)
    requires Aligned(m, open)
    requires forall i :: 0 <= i < k ==> KeepsAlignment(env, depth, m, open, i)
    ensures var r := StateAfter(env, depth, m, k); r.Some? ==> Aligned(r.value, OpenAt(env, depth, m, open, k))
    decreases k
  {
    hide Step, Exec, OpenAfter, Misaligns, Decode;
    if k > 0 {
      EveryStateIsAligned(env, depth, m, open, k - 1);
      var r := StateAfter(env, depth, m, k - 1);
      if r.Some? && StateAfter(env, depth, m, k).Some? {
        assert KeepsAlignment(env, depth, m, open, k - 1);
        StepHasInstruction(env, depth, r.value);
        StepExecutes(env, depth, r.value);
        AlignmentIsKept(env, depth, Fetched(env, r.value), Current(env, r.value).value,
                        OpenAt(env, depth, m, open, k - 1));
      }
    }
  }

  lemma StepHasInstruction(env: Env, depth: u32, m: State)
    requires m.Ok() && !Step(env, depth, m).Crash?
    ensures Current(env, m).Some?
  {
    hide Exec;
  }
}
