/** The stack machine of the program: fields updated in place by each instruction, over the output
  * buffer, the worklist and the decoder. Every method is proved to do what the corresponding
  * function of the machine on values does. */
module StackMachines {
  import opened Words
  import opened Bytes
  import opened Wrappers
  import opened WL = Worklist
  import opened Buffer
  import opened OutBuffer
  import opened CaptureMask
  import opened Machine
  import opened D = Decoder

  /** How an instruction, or a run, ended: going on, returning a result, or faulting. */
  datatype Signal = Continue | Returned(ok: bool) | Faulted(fault: Fault)

  datatype LinkSignal = Stopped | MoreLinks | LinkFaulted(fault: Fault)

  class StackMachine {
    const env: Env
    const decoder: OpDecoder
    const b: OutBuf
    const q: WL.Queue

    var stack: seq<u32>
    var offset: u32
    var cfa: u64
    var frameHeader: Option<u32>
    var exprResultsOffset: u32
    var exprResultsEndOffset: u32
    var exprType: ExprType
    var rootAddr: u64
    var chasedEntry: QueueEntry
    var goContextOffset: u32
    var goContextCaptureBitmask: u64

    ghost function Value(): State
      reads this, decoder, b, b.out, q, q.q
    {
      State(decoder.pc, stack, offset, cfa, frameHeader, exprResultsOffset, exprResultsEndOffset, exprType,
            rootAddr, chasedEntry, goContextOffset, goContextCaptureBitmask, b.Value(), q.State())
    }

    ghost predicate Valid()
      reads this, decoder, b, b.out, q, q.Repr
    {
      && decoder.opBuf == env.prog
      && b.Valid() && q.Valid()
      && this !in q.Repr && decoder !in q.Repr && b !in q.Repr && b.out !in q.Repr
      && exprResultsEndOffset <= b.out.Length
    }

    /** The machine is in the state, and has the signal, that the outcome says. */
    ghost predicate Does(s: Signal, r: Outcome)
      reads this, decoder, b, b.out, q, q.q
    {
      match r
      case Next(m) => s.Continue? && Value() == m
      case Done(ok, m) => s == Returned(ok) && Value() == m
      case Crash(fault) => s == Faulted(fault)
    }

    constructor (env: Env, b: OutBuf, q: WL.Queue)
      requires b.Valid() && q.Valid() && b !in q.Repr && b.out !in q.Repr
      ensures Valid() && this.env == env && this.b == b && this.q == q
      ensures fresh(this) && fresh(decoder)
      ensures Value() == State(0, [], 0, 0, None, 0, 0, ExprType.Frame, 0, QueueEntry(0, 0, 0), 0, 0, b.Value(),
                               q.State())
    {
      this.env, this.b, this.q := env, b, q;
      decoder := new OpDecoder(env.prog);
      stack, offset, cfa, frameHeader := [], 0, 0, None;
      exprResultsOffset, exprResultsEndOffset, exprType, rootAddr := 0, 0, Frame, 0;
      chasedEntry, goContextOffset, goContextCaptureBitmask := QueueEntry(0, 0, 0), 0, 0;
    }

    // -------------------------------------------------------------------------------------
    // Control

    method Jump(pc: u32) returns (s: Signal)
      requires Valid()
      modifies decoder
      ensures Valid() && Does(s, SetPC(env, old(Value()), pc))
    {
      var ok := decoder.SetPC(pc);
      s := if ok then Continue else Returned(false);
    }

    method ExecuteReturn() returns (s: Signal)
      requires Valid()
      modifies this, decoder
      ensures Valid() && Does(s, ExecReturn(env, old(Value())))
    {
      if |stack| == 0 {
        return Returned(true);
      }
      var ok := decoder.SetPC(stack[|stack| - 1]);
      if !ok {
        return Returned(false);
      }
      stack := stack[..|stack| - 1];
      s := Continue;
    }

    method Control(op: Op) returns (s: Signal)
      requires Valid() && IsControl(op)
      modifies this, decoder
      ensures Valid() && Does(s, ExecControl(env, old(Value()), op))
    {
      if op.Invalid? || op.Call? || op.CondJump? || op.Jump? || op.Return? || op.Illegal? || op.Nothing? {
        s := Transfer(op);
      } else if op.PushSliceLen? {
        s := PushSliceLen(op.elemByteLen);
      } else {
        s := StackOp(op);
      }
    }

    method Transfer(op: Op) returns (s: Signal)
      requires Valid()
      requires op.Invalid? || op.Call? || op.CondJump? || op.Jump? || op.Return? || op.Illegal? || op.Nothing?
      modifies this, decoder
      ensures Valid() && Does(s, ExecControl(env, old(Value()), op))
    {
      s := Continue;
      match op
      case Invalid => s := Returned(false);
      case Call(pc) => {
        stack := stack + [decoder.pc];
        s := Jump(pc);
      }
      case CondJump(pc) => {
        if |stack| == 0 { return Faulted(StackFault); }
        if stack[|stack| - 1] != 0 { s := Jump(pc); }
      }
      case Jump(pc) => s := Jump(pc);
      case Return => s := ExecuteReturn();
      case Illegal => s := Faulted(IllegalFault);
      case Nothing(_) =>
    }

    method PushSliceLen(n: u32) returns (s: Signal)
      requires Valid()
      modifies this
      ensures Valid() && Does(s, ExecPushSliceLen(old(Value()), n))
    {
      hide Wrap32, Read32, Quotient;
      if Wrap32(offset - ENTRY_HEADER) + 8 > b.out.Length {
        return Faulted(BufferFault);
      }
      var entryLen := b.GetEntryLen(offset);
      if n == 0 {
        return Faulted(DivideFault);
      }
      stack := stack + [Quotient(entryLen, n)];
      s := Continue;
    }

    method StackOp(op: Op) returns (s: Signal)
      requires Valid()
      requires op.Decrement? || op.Pop? || op.PushImm? || op.PushOffset? || op.SetOffset? || op.AdvanceOffset?
      modifies this
      ensures Valid() && Does(s, ExecControl(env, old(Value()), op))
    {
      hide Wrap32;
      s := Continue;
      if op.PushImm? {
        stack := stack + [op.value];
      } else if op.PushOffset? {
        stack := stack + [offset];
      } else if op.AdvanceOffset? {
        offset := Wrap32(offset + op.increment);
      } else if |stack| == 0 {
        s := Faulted(StackFault);
      } else if op.Decrement? {
        var top: int := stack[|stack| - 1];
        stack := stack[|stack| - 1 := Wrap32(top - 1)];
      } else if op.Pop? {
        stack := stack[..|stack| - 1];
      } else {
        offset := stack[|stack| - 1];
      }
    }

    // -------------------------------------------------------------------------------------
    // Enqueueing referenced objects

    method ResolveEface(off: u32) returns (e: Option<Resolved>)
      requires Valid() && b.Value().InRange(off, 16)
      ensures e == ResolveEmptyInterface(env, b.Value(), off)
    {
      var typ := b.Get64(off);
      if typ == 0 {
        return None;
      }
      var data := b.Get64(off + 8);
      e := Some(Resolved(data, env.RuntimeType(typ)));
    }

    method EnqueueEmptyInterface() returns (s: Signal)
      requires Valid()
      modifies b.out, q.Repr
      ensures Valid() && fresh(q.Repr - old(q.Repr))
      ensures Does(s, ExecEmptyInterface(env, old(Value())))
    {
      hide Read64, Le64, Work.Push;
      if offset + 16 > b.out.Length {
        return Faulted(BufferFault);
      }
      s := Continue;
      var e := ResolveEface(offset);
      if e.None? {
        return;
      }
      b.Put(offset, Le64(e.value.runtimeType));
      var typeId := env.TypeId(e.value.runtimeType);
      if typeId == 0 {
        return;
      }
      q.Push(e.value.addr, typeId, 0);
    }

    method EnqueueInterface() returns (s: Signal)
      requires Valid()
      modifies b.out, q.Repr
      ensures Valid() && fresh(q.Repr - old(q.Repr))
      ensures Does(s, ExecInterface(env, old(Value())))
    {
      hide Read64, Le64, Work.Push, Buf.Dereference, Wrap32;
      if offset + 8 > b.out.Length {
        return Faulted(BufferFault);
      }
      s := Continue;
      var itab: int := b.Get64(offset);
      if itab == 0 {
        return;
      }
      var ok := b.Dereference(env.memory, offset, Wrap64(itab + 8), 8);
      if ok {
        s := EnqueueLoadedInterface();
      }
    }

    /** Enqueues the data of an interface whose type was loaded at the offset. */
    method EnqueueLoadedInterface() returns (s: Signal)
      requires Valid() && b.Value().InRange(offset, 8)
      modifies b.out, q.Repr
      ensures Valid() && fresh(q.Repr - old(q.Repr))
      ensures Does(s, ExecLoadedInterface(env, old(Value())))
    {
      hide Read64, Le64, Work.Push, Wrap32;
      s := Continue;
      var typeAddr := b.Get64(offset);
      var runtimeType := env.RuntimeType(typeAddr);
      b.Put(offset, Le64(runtimeType));
      var typeId := env.TypeId(runtimeType);
      if typeId == 0 {
        return;
      }
      if offset + 16 > b.out.Length {
        return Faulted(BufferFault);
      }
      var data := b.Get64(offset + 8);
      q.Push(data, typeId, 0);
    }

    /** Reads a word and enqueues the object it points to. */
    method EnqueueAt(off: u32, typ: u32, dataLen: u32) returns (s: Signal)
      requires Valid()
      modifies q.Repr
      ensures Valid() && fresh(q.Repr - old(q.Repr))
      ensures s == if b.Value().InRange(off, 8) then Continue else Faulted(BufferFault)
      ensures s.Continue? ==> Value() == Enqueue(old(Value()), Read64(b.Value().mem, off), typ, dataLen)
    {
      hide Read64, Work.Push;
      if off + 8 > b.out.Length {
        return Faulted(BufferFault);
      }
      var addr := b.Get64(off);
      q.Push(addr, typ, dataLen);
      s := Continue;
    }

    method EnqueueSliceHeader(arrayType: u32, elemByteLen: u32) returns (s: Signal)
      requires Valid()
      modifies q.Repr
      ensures Valid() && fresh(q.Repr - old(q.Repr))
      ensures Does(s, ExecSliceHeader(old(Value()), arrayType, elemByteLen))
    {
      hide Read64, Work.Push, Wrap32;
      if Wrap32(offset + 8) + 8 > b.out.Length {
        return Faulted(BufferFault);
      }
      var len := b.Get64(Wrap32(offset + 8));
      if !(Positive(len) && elemByteLen > 0) {
        return Continue;
      }
      s := EnqueueAt(offset, arrayType, Wrap32(len * elemByteLen));
    }

    method EnqueueStringHeader(dataType: u32) returns (s: Signal)
      requires Valid()
      modifies q.Repr
      ensures Valid() && fresh(q.Repr - old(q.Repr))
      ensures Does(s, ExecStringHeader(old(Value()), dataType))
    {
      hide Read64, Work.Push, Wrap32;
      if Wrap32(offset + 8) + 8 > b.out.Length {
        return Faulted(BufferFault);
      }
      var len := b.Get64(Wrap32(offset + 8));
      if !Positive(len) {
        return Continue;
      }
      s := EnqueueAt(offset, dataType, Wrap32(len));
    }

    /** Enqueues new and old buckets at once. */
    method EnqueueHMapHeader(typ: u32, bucketLen: u32, flagsAt: u8, bAt: u8, newAt: u8, oldAt: u8) returns (s: Signal)
      requires Valid()
      modifies this, q.Repr
      ensures Valid() && fresh(q.Repr - old(q.Repr))
      ensures Does(s, ExecHMapHeader(old(Value()), typ, bucketLen, flagsAt, bAt, newAt, oldAt))
    {
      hide Read64, Wrap32, BucketsEnqueued;
      if |stack| == 0 {
        return Faulted(StackFault);
      }
      ClearTop();
      s := EnqueueHMap(Wrap32(offset + flagsAt), Wrap32(offset + bAt), Wrap32(offset + newAt), Wrap32(offset + oldAt),
                       typ, bucketLen);
    }

    method EnqueueHMap(flagsOff: u32, bOff: u32, newOff: u32, oldOff: u32, typ: u32, bucketLen: u32) returns (s: Signal)
      requires Valid()
      modifies q.Repr
      ensures Valid() && fresh(q.Repr - old(q.Repr))
      ensures Does(s, HMapEnqueued(old(Value()), flagsOff, bOff, newOff, oldOff, typ, bucketLen))
    {
      hide Read64, BucketsEnqueued;
      var size := b.out.Length;
      if flagsOff + 1 > size || bOff + 1 > size || newOff + 8 > size || oldOff + 8 > size {
        return Faulted(BufferFault);
      }
      var flags, logBuckets := b.out[flagsOff], b.out[bOff];
      var bucketsAddr := b.Get64(newOff);
      var oldBucketsAddr := b.Get64(oldOff);
      EnqueueBuckets(bucketsAddr, oldBucketsAddr, flags / 8 % 2 == 1, logBuckets, typ, bucketLen);
      s := Continue;
    }

    method ClearTop()
      requires Valid() && stack != []
      modifies this
      ensures Valid() && Value() == ReplaceTop(old(Value()), 0)
      ensures offset == old(offset)
    {
      stack := stack[|stack| - 1 := 0];
    }

    method EnqueueBuckets(addr: u64, oldAddr: u64, sameSizeGrow: bool, logBuckets: u8, typ: u32, bucketLen: u32)
      requires Valid()
      modifies q.Repr
      ensures Valid() && fresh(q.Repr - old(q.Repr))
      ensures Value() == BucketsEnqueued(old(Value()), addr, oldAddr, sameSizeGrow, logBuckets, typ, bucketLen)
    {
      hide Work.Push, Wrap32, Buckets;
      var numBuckets := Buckets(logBuckets);
      if addr != 0 {
        q.Push(addr, typ, Wrap32(numBuckets * bucketLen));
      }
      if oldAddr != 0 {
        if !sameSizeGrow {
          numBuckets := numBuckets / 2;
        }
        q.Push(oldAddr, typ, Wrap32(numBuckets * bucketLen));
      }
    }

    method EnqueueSwissMap(tables: u32, group: u32, ptrAt: u8, lenAt: u8) returns (s: Signal)
      requires Valid()
      modifies q.Repr
      ensures Valid() && fresh(q.Repr - old(q.Repr))
      ensures Does(s, ExecSwissMap(old(Value()), tables, group, ptrAt, lenAt))
    {
      hide Read64, Work.Push, Wrap32;
      var p, l := Wrap32(offset + ptrAt), Wrap32(offset + lenAt);
      if p + 8 > b.out.Length || l + 8 > b.out.Length {
        return Faulted(BufferFault);
      }
      var dirLen: int := b.Get64(l);
      if Positive(dirLen) {
        s := EnqueueAt(p, tables, Wrap32(8 * dirLen));
      } else {
        s := EnqueueAt(p, group, 0);
      }
    }

    method EnqueueSwissMapGroups(groups: u32, groupLen: u32, dataAt: u8, maskAt: u8) returns (s: Signal)
      requires Valid()
      modifies q.Repr
      ensures Valid() && fresh(q.Repr - old(q.Repr))
      ensures Does(s, ExecSwissMapGroups(old(Value()), groups, groupLen, dataAt, maskAt))
    {
      hide Read64, Work.Push, Wrap32;
      var d, k := Wrap32(offset + dataAt), Wrap32(offset + maskAt);
      if d + 8 > b.out.Length || k + 8 > b.out.Length {
        return Faulted(BufferFault);
      }
      var lengthMask: int := b.Get64(k);
      s := EnqueueAt(d, groups, Wrap32(groupLen * Wrap32(lengthMask + 1)));
    }

    /** The first known entry pc that is not below x, by bisection. */
    method SearchEntryPc(x: u64) returns (i: nat)
      ensures i == Search(env.subroutinePcs, x, 0, |env.subroutinePcs|)
    {
      var lo, hi := 0, |env.subroutinePcs|;
      while lo < hi
        invariant 0 <= lo <= hi <= |env.subroutinePcs|
        invariant Search(env.subroutinePcs, x, lo, hi) == Search(env.subroutinePcs, x, 0, |env.subroutinePcs|)
      {
        var h := (lo + hi) / 2;
        if x <= env.subroutinePcs[h] {
          hi := h;
        } else {
          lo := h + 1;
        }
      }
      i := lo;
    }

    method EnqueueSubroutine() returns (s: Signal)
      requires Valid()
      modifies b, b.out, q.Repr
      ensures Valid() && fresh(q.Repr - old(q.Repr))
      ensures Does(s, ExecSubroutine(env, old(Value())))
    {
      hide Read64, Buf.WriteEntry, Buf.WriteEntrySafe, ClassifySubroutine;
      if offset + 8 > b.out.Length {
        return Faulted(BufferFault);
      }
      var truncateTarget := b.len;
      var addr := b.Get64(offset);
      var entry := QueueEntry(env.unresolvedSubroutine, 8, addr);
      var off, inside := b.WriteQueueEntry(env.memory, entry);
      if !inside {
        return Faulted(BufferFault);
      }
      if off.None? {
        return Continue;
      }
      s := Classify(off.value, addr, truncateTarget);
    }

    method RelocateEntryPc(off: u32) returns (entryPc: u64)
      requires Valid() && b.Value().InRange(off, 8)
      modifies b.out
      ensures Valid() && b.len == old(b.len)
      ensures entryPc == Wrap64(Read64(old(Value()).buf.mem, off) - env.bssAddrShift)
      ensures Value() == old(Value()).(buf := old(Value()).buf.Write(off, Le64(entryPc)))
    {
      hide Read64, Le64, Wrap64;
      var word: int := b.Get64(off);
      entryPc := Wrap64(word - env.bssAddrShift);
      b.Put(off, Le64(entryPc));
    }

    /** The subroutine type is known: the entry just written is dropped, and the object is queued. */
    method EnqueueInstead(addr: u64, typ: u32, truncateTarget: nat)
      requires Valid() && truncateTarget <= b.len
      modifies b, q.Repr
      ensures Valid() && fresh(q.Repr - old(q.Repr))
      ensures Value() == Enqueue(old(Value()).(buf := old(Value()).buf.Truncate(truncateTarget)), addr, typ, 0)
    {
      hide Work.Push;
      b.Truncate(truncateTarget);
      q.Push(addr, typ, 0);
    }

    method Classify(off: u32, addr: u64, truncateTarget: nat) returns (s: Signal)
      requires Valid() && b.Value().InRange(off, 8) && truncateTarget <= b.len
      modifies b, b.out, q.Repr
      ensures Valid() && fresh(q.Repr - old(q.Repr))
      ensures Does(s, ClassifySubroutine(env, old(Value()), off, addr, truncateTarget))
    {
      hide Read64, Le64, Work.Push, Search, Wrap64, Splice, Enqueue;
      var entryPc := RelocateEntryPc(off);
      var i := SearchEntryPc(entryPc);
      if i < |env.subroutinePcs| && env.subroutinePcs[i] == entryPc {
        if i >= |env.subroutineTypes| {
          return Faulted(IndexFault);
        }
        EnqueueInstead(addr, env.subroutineTypes[i], truncateTarget);
      }
      s := Continue;
    }

    method Enqueueing(op: Op) returns (s: Signal)
      requires Valid() && IsEnqueue(op)
      modifies this, b, b.out, q.Repr
      ensures Valid() && fresh(q.Repr - old(q.Repr))
      ensures Does(s, ExecEnqueue(env, old(Value()), op))
    {
      hide ExecEmptyInterface, ExecInterface, ExecPointer, ExecSliceHeader, ExecStringHeader, ExecHMapHeader,
           ExecSwissMap, ExecSwissMapGroups, ExecSubroutine;
      match op
      case EnqueueEmptyInterface => s := EnqueueEmptyInterface();
      case EnqueueInterface => s := EnqueueInterface();
      case EnqueuePointer(t) => s := EnqueuePointer(t);
      case EnqueueSliceHeader(t, n) => s := EnqueueSliceHeader(t, n);
      case EnqueueStringHeader(t) => s := EnqueueStringHeader(t);
      case EnqueueHMapHeader(t, n, a, b, c, d) => s := EnqueueHMapHeader(t, n, a, b, c, d);
      case EnqueueSwissMap(t, g, a, b) => s := EnqueueSwissMap(t, g, a, b);
      case EnqueueSwissMapGroups(g, n, a, b) => s := EnqueueSwissMapGroups(g, n, a, b);
      case EnqueueSubroutine => s := EnqueueSubroutine();
    }

    method EnqueuePointer(elemType: u32) returns (s: Signal)
      requires Valid()
      modifies q.Repr
      ensures Valid() && fresh(q.Repr - old(q.Repr))
      ensures Does(s, ExecPointer(old(Value()), elemType))
    {
      hide Read64, Work.Push;
      if elemType == 0 {
        return Returned(false);
      }
      s := EnqueueAt(offset, elemType, 0);
    }

    // -------------------------------------------------------------------------------------
    // Frames and expressions

    method DereferenceCFAOffset(slot: u32, byteLen: u32, pointerBias: u32) returns (s: Signal)
      requires Valid()
      modifies b, b.out
      ensures Valid() && Does(s, ExecDereferenceCFA(env, old(Value()), slot, byteLen, pointerBias))
    {
      hide Wrap32, Wrap64, Buf.Dereference;
      var signed: int := if slot < 0x8000_0000 then slot else slot - 0x1_0000_0000;
      var srcAddr := Wrap64(cfa + signed + pointerBias);
      var ok := b.EnsureLen(Wrap32(offset + byteLen));
      if !ok {
        return Returned(false);
      }
      if Wrap32(offset + byteLen) <= b.out.Length && offset + byteLen > b.out.Length {
        return Faulted(BufferFault);
      }
      var read := b.Dereference(env.memory, offset, srcAddr, byteLen);
      s := Continue;
    }

    method CopyFromRegister(byteSize: u8) returns (s: Signal)
      requires Valid()
      modifies b, b.out
      ensures Valid() && Does(s, ExecCopyRegister(old(Value()), byteSize))
    {
      hide Wrap32, Buf.Zero;
      var ok := b.EnsureLen(Wrap32(offset + byteSize));
      if !ok {
        return Returned(false);
      }
      if Wrap32(offset + byteSize) <= b.out.Length && offset + byteSize > b.out.Length {
        return Faulted(BufferFault);
      }
      b.Zero(offset, byteSize);
      s := Continue;
    }

    method PrepareExprEval() returns (s: Signal)
      requires Valid()
      modifies this, b.out
      ensures Valid() && Does(s, ExecPrepareExpr(old(Value())))
    {
      hide Le64;
      exprResultsEndOffset := b.len;
      offset := b.len;
      if exprType == Pointer {
        if offset + 8 > b.out.Length {
          return Faulted(BufferFault);
        }
        b.Put(offset, Le64(rootAddr));
      }
      s := Continue;
    }

    method SaveExprResult(resultOffset: u32, byteLen: u32) returns (s: Signal)
      requires Valid()
      modifies this, b, b.out
      ensures Valid() && Does(s, ExecSaveResult(old(Value()), resultOffset, byteLen))
    {
      hide Wrap32, Buf.Copy, Buf.CopySafe;
      var dst := Wrap32(exprResultsOffset + resultOffset);
      var safe := b.CanCopy(offset, dst, byteLen);
      if !safe {
        return Faulted(BufferFault);
      }
      b.Copy(offset, dst, byteLen);
      offset := dst;
      b.Truncate(exprResultsEndOffset);
      s := Continue;
    }

    method DereferencePtr(bias: u32, byteLen: u32) returns (s: Signal)
      requires Valid()
      modifies this, decoder, b, b.out
      ensures Valid() && Does(s, ExecDereferencePtr(env, old(Value()), bias, byteLen))
    {
      hide Read64, Wrap64, Buf.WriteEntry, Buf.WriteEntrySafe, ExecReturn;
      if offset + 8 > b.out.Length {
        return Faulted(BufferFault);
      }
      var word: int := b.Get64(offset);
      var addr := Wrap64(word + bias);
      var r := None;
      if addr != 0 {
        var entry := QueueEntry(0, byteLen, addr);
        var inside;
        r, inside := b.WriteQueueEntry(env.memory, entry);
        if !inside {
          return Faulted(BufferFault);
        }
      }
      if r.None? {
        b.Truncate(exprResultsEndOffset);
        s := ExecuteReturn();
        return;
      }
      offset := r.value;
      s := Continue;
    }

    method ZeroFill(byteLen: u32) returns (s: Signal)
      requires Valid()
      modifies b.out
      ensures Valid() && Does(s, ExecZeroFill(old(Value()), byteLen))
    {
      hide Wrap32, Buf.Zero;
      if Wrap32(offset + byteLen) <= b.out.Length && offset + byteLen > b.out.Length {
        return Faulted(BufferFault);
      }
      b.Zero(offset, byteLen);
      s := Continue;
    }

    method SetPresenceBit(bitOffset: u32) returns (s: Signal)
      requires Valid()
      modifies b.out
      ensures Valid() && Does(s, ExecPresenceBit(old(Value()), bitOffset))
    {
      hide Wrap32, SetBit;
      var at := Wrap32(exprResultsOffset + bitOffset / 8);
      if at + 1 > b.out.Length {
        return Faulted(BufferFault);
      }
      var byte := b.out[at];
      b.Put(at, [SetBit(byte, bitOffset % 8)]);
      s := Continue;
    }

    method PreparePointeeData() returns (s: Signal)
      requires Valid()
      modifies this, b, b.out
      ensures Valid() && Does(s, ExecPreparePointee(old(Value())))
    {
      hide Buf.Reserve, Buf.ReserveSafe, ExecStartPointee;
      var safe := b.CanReserve(chasedEntry.len);
      if !safe {
        return Faulted(BufferFault);
      }
      var r := b.ReserveQueueEntry(chasedEntry);
      if r.None? {
        return Returned(false);
      }
      s := StartPointee(r.value);
    }

    /** Takes the reserved entry as the result of the evaluations to come, and clears it. */
    method StartPointee(off: u32) returns (s: Signal)
      requires Valid()
      modifies this, b.out
      ensures Valid() && Does(s, ExecStartPointee(old(Value()), off))
    {
      hide Wrap32, Buf.Zero;
      if Wrap32(off + chasedEntry.len) <= b.out.Length && off + chasedEntry.len > b.out.Length {
        return Faulted(BufferFault);
      }
      b.Zero(off, chasedEntry.len);
      SetRoot(off);
      s := Continue;
    }

    method SetRoot(off: u32)
      requires Valid()
      modifies this
      ensures Valid()
      ensures Value() == old(Value()).(exprType := Pointer, resultsOffset := off, rootAddr := old(chasedEntry).addr,
                                       offset := off)
    {
      exprType := Pointer;
      exprResultsOffset := off;
      rootAddr := chasedEntry.addr;
      offset := off;
    }

    method PrepareFrameData(progID: u32, dataByteLen: u32, typeID: u32, depth: u32) returns (s: Signal)
      requires Valid()
      modifies this, b, b.out
      ensures Valid() && Does(s, ExecPrepareFrame(old(Value()), depth, progID, dataByteLen, typeID))
    {
      hide Buf.PrepareFrame, Buf.FrameSafe;
      var safe := b.CanPrepareFrame(dataByteLen);
      if !safe {
        return Faulted(BufferFault);
      }
      var r := b.PrepareFrameData(typeID, progID, dataByteLen, depth);
      if r.None? {
        return Returned(false);
      }
      OpenFrame(r.value.0, r.value.1);
      s := Continue;
    }

    method OpenFrame(header: u32, data: u32)
      requires Valid()
      modifies this
      ensures Valid()
      ensures Value() == old(Value()).(frameHeader := Some(header), exprType := ExprType.Frame, resultsOffset := data,
                                       offset := data)
    {
      frameHeader := Some(header);
      exprType := Frame;
      exprResultsOffset := data;
      offset := data;
    }

    method ConcludeFrameData() returns (s: Signal)
      requires Valid()
      modifies b.out
      ensures Valid() && Does(s, ExecConcludeFrame(old(Value())))
    {
      hide Buf.ConcludeFrame;
      if frameHeader.None? {
        return Faulted(NilFault);
      }
      if frameHeader.value + 4 > b.out.Length {
        return Faulted(BufferFault);
      }
      b.ConcludeFrameData(frameHeader.value);
      s := Continue;
    }

    method Evaluating(op: Op, depth: u32) returns (s: Signal)
      requires Valid() && IsData(op)
      modifies this, decoder, b, b.out
      ensures Valid() && Does(s, ExecData(env, depth, old(Value()), op))
    {
      hide ExecDereferenceCFA, ExecCopyRegister, ExecPrepareExpr, ExecSaveResult, ExecDereferencePtr, ExecZeroFill,
           ExecPresenceBit, ExecPreparePointee, ExecPrepareFrame, ExecConcludeFrame;
      match op
      case DereferenceCFAOffset(o, n, bias) => s := DereferenceCFAOffset(o, n, bias);
      case CopyFromRegister(_, n) => s := CopyFromRegister(n);
      case PrepareExprEval => s := PrepareExprEval();
      case SaveExprResult(o, n) => s := SaveExprResult(o, n);
      case DereferencePtr(bias, n) => s := DereferencePtr(bias, n);
      case ZeroFill(n) => s := ZeroFill(n);
      case SetPresenceBit(bit) => s := SetPresenceBit(bit);
      case PreparePointeeData => s := PreparePointeeData();
      case PrepareFrameData(p, n, t) => s := PrepareFrameData(p, n, t, depth);
      case ConcludeFrameData => s := ConcludeFrameData();
    }

    // -------------------------------------------------------------------------------------
    // Go contexts

    method ResolveAnyType(off: u32) returns (v: Option<Known>)
      requires Valid() && b.Value().InRange(off, 16)
      ensures v == ResolveAny(env, b.Value(), off)
    {
      var e := ResolveEface(off);
      if e.None? || e.value.runtimeType == 0 {
        return None;
      }
      var typeId := env.TypeId(e.value.runtimeType);
      if typeId == 0 || typeId !in env.typeInfo {
        return None;
      }
      v := Some(Known(e.value, typeId, env.typeInfo[typeId]));
    }

    method RecordGoContextValue(spec: ContextValue, value: Known, expectedType: u32) returns (s: Signal)
      requires Valid()
      modifies this, b.out, q.Repr
      ensures Valid() && fresh(q.Repr - old(q.Repr))
      ensures Does(s, RecordContextValue(old(Value()), spec, value, expectedType))
    {
      hide Has, Clear, Le64, Work.Push, Wrap32, Splice, Enqueue;
      s := Continue;
      // The value may be captured already.
      if !Has(goContextCaptureBitmask, spec.index) {
        return;
      }
      var at, at8 := Wrap32(goContextOffset + spec.offset), Wrap32(goContextOffset + spec.offset + 8);
      if at + 8 > b.out.Length || at8 + 8 > b.out.Length {
        return Faulted(BufferFault);
      }
      goContextCaptureBitmask := Clear(goContextCaptureBitmask, spec.index);
      b.Put(at, Le64(value.e.addr));
      b.Put(at8, Le64(value.e.runtimeType));
      if expectedType != 0 && expectedType != value.typeId {
        return;
      }
      var t := spec.typ;
      if t == 0 {
        t := value.typeId;
      }
      PushObject(value.e.addr, t);
    }

    method PushObject(addr: u64, typ: u32)
      requires Valid()
      modifies q.Repr
      ensures Valid() && fresh(q.Repr - old(q.Repr))
      ensures Value() == Enqueue(old(Value()), addr, typ, 0)
    {
      hide Work.Push;
      q.Push(addr, typ, 0);
    }

    method OfferByKeyType(impl: ContextImpl, v: Known) returns (s: Signal)
      requires Valid()
      modifies this, b.out, q.Repr
      ensures Valid() && fresh(q.Repr - old(q.Repr))
      ensures Does(s, OfferByKey(env, old(Value()), impl, v))
    {
      hide RecordContextValue, ResolveAny, Wrap32;
      s := Continue;
      if impl.keyOffset.None? {
        return;
      }
      var at := Wrap32(offset + impl.keyOffset.value);
      if at + 16 > b.out.Length {
        return Faulted(BufferFault);
      }
      var k := ResolveAnyType(at);
      if k.None? || k.value.info.contextKey.None? {
        return;
      }
      if k.value.info.contextKeyValueType.None? {
        return Faulted(NilFault);
      }
      s := RecordGoContextValue(k.value.info.contextKey.value, v, k.value.info.contextKeyValueType.value);
    }

    method OfferLinkValue(impl: ContextImpl) returns (s: Signal)
      requires Valid()
      modifies this, b.out, q.Repr
      ensures Valid() && fresh(q.Repr - old(q.Repr))
      ensures Does(s, OfferValue(env, old(Value()), impl))
    {
      hide OfferKnown, ResolveAny, Wrap32;
      s := Continue;
      if impl.valueOffset.None? {
        return;
      }
      var at := Wrap32(offset + impl.valueOffset.value);
      if at + 16 > b.out.Length {
        return Faulted(BufferFault);
      }
      var v := ResolveAnyType(at);
      if v.None? {
        return;
      }
      s := OfferKnownValue(impl, v.value);
    }

    method OfferKnownValue(impl: ContextImpl, v: Known) returns (s: Signal)
      requires Valid()
      modifies this, b.out, q.Repr
      ensures Valid() && fresh(q.Repr - old(q.Repr))
      ensures Does(s, OfferKnown(env, old(Value()), impl, v))
    {
      hide RecordContextValue, OfferByKey;
      s := OfferByOwnType(v);
      if !s.Faulted? {
        s := OfferByKeyType(impl, v);
      }
    }

    method OfferByOwnType(v: Known) returns (s: Signal)
      requires Valid()
      modifies this, b.out, q.Repr
      ensures Valid() && fresh(q.Repr - old(q.Repr))
      ensures Does(s, match v.info.contextValue
                      case Some(spec) => RecordContextValue(old(Value()), spec, v, 0)
                      case None => Next(old(Value())))
    {
      hide RecordContextValue;
      s := Continue;
      if v.info.contextValue.Some? {
        s := RecordGoContextValue(v.info.contextValue.value, v, 0);
      }
    }

    /** The machine is in the state that the link says, and the walk goes on or not. */
    ghost predicate Follows(s: LinkSignal, r: Link)
      reads this, decoder, b, b.out, q, q.q
    {
      match r
      case Stop(m) => s.Stopped? && Value() == m
      case More(m) => s.MoreLinks? && Value() == m
      case Broken(fault) => s == LinkFaulted(fault)
    }

    method VisitContext(impl: ContextImpl) returns (s: LinkSignal)
      requires Valid()
      modifies this, b.out, q.Repr
      ensures Valid() && fresh(q.Repr - old(q.Repr))
      ensures Follows(s, VisitLink(env, old(Value()), impl))
    {
      hide OfferValue, Wrap32;
      var r := OfferLinkValue(impl);
      if r.Faulted? {
        return LinkFaulted(r.fault);
      }
      if impl.contextOffset.None? {
        return Stopped;
      }
      offset := Wrap32(offset + impl.contextOffset.value);
      s := MoreLinks;
    }

    method CopyContext(typeId: u32) returns (s: LinkSignal)
      requires Valid() && typeId in env.typeInfo && env.typeInfo[typeId].contextImpl.Some?
      modifies this, b, b.out, q.Repr
      ensures Valid() && fresh(q.Repr - old(q.Repr))
      ensures Follows(s, CopyLink(env, old(Value()), typeId))
    {
      hide Read64, Buf.WriteEntry, Buf.WriteEntrySafe, VisitLink;
      if offset + 16 > b.out.Length {
        return LinkFaulted(BufferFault);
      }
      var data := b.Get64(offset + 8);
      var entry := QueueEntry(typeId, env.typeInfo[typeId].byteLen, data);
      var off, inside := b.WriteQueueEntry(env.memory, entry);
      if !inside {
        return LinkFaulted(BufferFault);
      }
      if off.None? {
        offset := 0;
        return Stopped;
      }
      offset := off.value;
      s := VisitContext(env.typeInfo[typeId].contextImpl.value);
    }

    /** Replaces the interface table at the offset by the address of the type it is for. */
    method LoadContextType() returns (ok: bool)
      requires Valid() && Value().buf.InRange(offset, 8)
      modifies b.out
      ensures Valid()
      ensures var (buf, loaded) := LoadType(env, old(Value()).buf, offset);
              ok == loaded && Value() == old(Value()).(buf := buf)
    {
      hide Read64, Buf.Dereference, Wrap64;
      var itab: int := b.Get64(offset);
      ok := b.Dereference(env.memory, offset, Wrap64(itab + 8), 8);
    }

    method FollowContext() returns (s: LinkSignal)
      requires Valid()
      modifies this, b, b.out, q.Repr
      ensures Valid() && fresh(q.Repr - old(q.Repr))
      ensures Follows(s, WalkLink(env, old(Value())))
    {
      hide Read64, LoadType, CopyLink;
      if goContextCaptureBitmask == 0 {
        return Stopped;
      }
      if offset + 8 > b.out.Length {
        return LinkFaulted(BufferFault);
      }
      var itab: int := b.Get64(offset);
      if itab == 0 {
        return Stopped;
      }
      var ok := LoadContextType();
      if !ok {
        return Stopped;
      }
      var typeAddr := b.Get64(offset);
      var typeId := env.TypeId(env.RuntimeType(typeAddr));
      if typeId == 0 || typeId !in env.typeInfo || env.typeInfo[typeId].contextImpl.None? {
        return Stopped;
      }
      s := CopyContext(typeId);
    }

    /** Follows the chain of contexts until it ends, everything was captured, or the budget of links
      * is used up; the program itself has no such budget. */
    method WalkContexts() returns (s: LinkSignal)
      requires Valid()
      modifies this, b, b.out, q.Repr
      ensures Valid() && fresh(q.Repr - old(q.Repr))
      ensures Follows(s, Walk(env, old(Value()), env.walkBudget))
    {
      hide WalkLink;
      var left := env.walkBudget;
      while left > 0
        invariant 0 <= left <= env.walkBudget
        invariant Valid() && fresh(q.Repr - old(q.Repr))
        invariant Walk(env, Value(), left) == Walk(env, old(Value()), env.walkBudget)
      {
        s := FollowContext();
        if !s.MoreLinks? {
          return;
        }
        left := left - 1;
      }
      s := LinkFaulted(WalkFault);
    }

    method ClearContext(o: u32, dataLen: u32, count: u8)
      requires Valid() && Value().buf.ZeroSafe(o, dataLen)
      modifies this, b.out
      ensures Valid()
      ensures Value() == old(Value()).(buf := old(Value()).buf.Zero(o, dataLen), contextOffset := o,
                                       contextMask := Initial(count))
    {
      hide Initial, Wrap32, Buf.Zero;
      b.Zero(o, dataLen);
      goContextOffset := o;
      goContextCaptureBitmask := Initial(count);
    }

    method CaptureContext(o: u32, dataLen: u32, count: u8) returns (s: Signal)
      requires Valid()
      modifies this, b, b.out, q.Repr
      ensures Valid() && fresh(q.Repr - old(q.Repr))
      ensures Does(s, ContextBody(env, old(Value()), o, dataLen, count))
    {
      hide Walk, Initial, Wrap32, Buf.Zero;
      if Wrap32(o + dataLen) <= b.out.Length && o + dataLen > b.out.Length {
        return Faulted(BufferFault);
      }
      ClearContext(o, dataLen, count);
      // The walk fetches data into the buffer that is truncated away afterwards.
      var truncateTarget := b.len;
      var w := WalkContexts();
      if w.LinkFaulted? {
        return Faulted(w.fault);
      }
      b.Truncate(truncateTarget);
      s := Continue;
    }

    method PrepareGoContext(dataLen: u32, typ: u32, count: u8) returns (s: Signal)
      requires Valid()
      modifies this, b, b.out, q.Repr
      ensures Valid() && fresh(q.Repr - old(q.Repr))
      ensures Does(s, ExecGoContext(env, old(Value()), dataLen, typ, count))
    {
      hide Read64, Buf.WriteEntry, Buf.WriteEntrySafe, ContextBody, Wrap32, Work.ShouldRecord;
      var dataAt := offset + 8;
      if dataAt + 8 > b.out.Length {
        return Faulted(BufferFault);
      }
      var addr := b.Get64(dataAt);
      // The address of the first object behind the interface is the address of the synthetic
      // context object.
      var record := q.ShouldRecord(addr, typ);
      if !record {
        return Continue;
      }
      var entry := QueueEntry(typ, dataLen, addr);
      var o, inside := b.WriteQueueEntry(env.memory, entry);
      if !inside {
        return Faulted(BufferFault);
      }
      if o.None? {
        return Continue;
      }
      s := CaptureContext(o.value, dataLen, count);
    }

    // -------------------------------------------------------------------------------------
    // Runs

    method Execute(op: Op, depth: u32) returns (s: Signal)
      requires Valid()
      modifies this, decoder, b, b.out, q.Repr
      ensures Valid() && fresh(q.Repr - old(q.Repr))
      ensures Does(s, Exec(env, depth, old(Value()), op))
    {
      hide ExecControl, ExecEnqueue, ExecData, ExecGoContext;
      if IsControl(op) {
        s := Control(op);
      } else if IsEnqueue(op) {
        s := Enqueueing(op);
      } else if IsData(op) {
        s := Evaluating(op, depth);
      } else {
        s := PrepareGoContext(op.dataByteLen, op.typeID, op.captureCount);
      }
    }

    /** Decodes the instruction at the pc; none if it does not lie inside the program. */
    method FetchOp() returns (op: Option<Op>)
      requires Valid()
      modifies decoder
      ensures Valid()
      ensures match Decode(env.prog, old(decoder.pc))
              case None => op.None?
              case Some((o, next)) => op == Some(o) && Value() == old(Value()).(pc := next)
    {
      hide Operands;
      if decoder.pc >= |decoder.opBuf| {
        return None;
      }
      var code := decoder.PopOpCode();
      if decoder.pc + OperandSize(code) > |decoder.opBuf| {
        return None;
      }
      var o := decoder.DecodeOperands(code);
      op := Some(o);
    }

    method TakeStep(depth: u32) returns (s: Signal)
      requires Valid()
      modifies this, decoder, b, b.out, q.Repr
      ensures Valid() && fresh(q.Repr - old(q.Repr))
      ensures Does(s, Step(env, depth, old(Value())))
    {
      hide Exec, Decode;
      var op := FetchOp();
      if op.None? {
        return Faulted(DecodeFault);
      }
      s := Execute(op.value, depth);
    }

    /** Runs the program from pc until it returns, fails, or has used up its fuel. */
    method Run(pc: u32, cfa: u64, depth: u32, offset: u32) returns (s: Signal)
      requires Valid()
      modifies this, decoder, b, b.out, q.Repr
      ensures Valid() && fresh(q.Repr - old(q.Repr))
      ensures Does(s, Machine.Run(env, old(Value()), pc, cfa, depth, offset))
    {
      hide Iterate;
      var ok := decoder.SetPC(pc);
      if !ok {
        return Returned(false);
      }
      this.cfa := cfa;
      this.offset := offset;
      s := RunFromHere(depth);
    }

    method RunFromHere(depth: u32) returns (s: Signal)
      requires Valid()
      modifies this, decoder, b, b.out, q.Repr
      ensures Valid() && fresh(q.Repr - old(q.Repr))
      ensures Does(s, Iterate(env, depth, old(Value()), FUEL))
    {
      hide Step, Iterate;
      var i := 0;
      while i < FUEL
        invariant 0 <= i <= FUEL
        invariant Valid() && fresh(q.Repr - old(q.Repr))
        invariant Iterate(env, depth, Value(), FUEL - i) == Iterate(env, depth, old(Value()), FUEL)
      {
        IterateOnce(env, depth, Value(), FUEL - i);
        s := TakeStep(depth);
        if !s.Continue? {
          return;
        }
        i := i + 1;
      }
      IterateOnce(env, depth, Value(), 0);
      s := Returned(false);
    }
  }
}
