/** The stack machine as a step function on values.
  *
  * A step either continues, ends the run with its result, or faults. A fault stands for a panic
  * of the program, or for a read or write outside the backing array of the output buffer.
  */
module Machine {
  import opened Words
  import opened Bytes
  import opened Wrappers
  import opened Worklist
  import opened Buffer
  import opened CaptureMask
  import opened D = Decoder

  // ---------------------------------------------------------------------------------------
  // The snapshot program and the stopped process

  /** How a type that implements context.Context stores its parent, key and value. */
  datatype ContextImpl = ContextImpl(contextOffset: Option<u32>, keyOffset: Option<u32>, valueOffset: Option<u32>)

  /** Where a captured context value goes: its index in the mask, its offset, and its type. */
  datatype ContextValue = ContextValue(index: u32, offset: u32, typ: u32)

  datatype TypeInfo = TypeInfo(
    enqueuePc: u32,
    byteLen: u32,
    serializeBeforeEnqueue: bool,
    contextImpl: Option<ContextImpl>,
    contextKey: Option<ContextValue>,
    contextKeyValueType: Option<u32>,
    contextValue: Option<ContextValue>)

  /** The length of a program fits a signed 32-bit word, as that of any message field does. */
  type Program = p: seq<u8> | |p| < 0x8000_0000

  datatype Env = Env(
    prog: Program,
    memory: Memory,
    typesStart: u64,
    typesEnd: u64,
    typeIds: map<u64, u32>,
    typeInfo: map<u32, TypeInfo>,
    subroutinePcs: seq<u64>,
    subroutineTypes: seq<u32>,
    unresolvedSubroutine: u32,
    bssAddrShift: u64,
    walkBudget: nat)   // the number of links after which a context walk is given up
  {
    /** The offset of a type descriptor in the types section, 0 if it lies elsewhere. */
    function RuntimeType(addr: u64): u64 {
      if addr < typesStart || addr >= typesEnd then 0 else addr - typesStart
    }

    function TypeId(runtimeType: u64): u32 {
      if runtimeType in typeIds then typeIds[runtimeType] else 0
    }
  }

  /** The least index in [lo, hi) at which x <= a[i], by bisection, or hi. */
  function Search(a: seq<u64>, x: u64, lo: nat, hi: nat): (i: nat)
    requires lo <= hi <= |a|
    ensures lo <= i <= hi
    decreases hi - lo
  {
    if lo == hi then lo
    else
      var h := (lo + hi) / 2;
      if x <= a[h] then Search(a, x, lo, h) else Search(a, x, h + 1, hi)
  }

  // ---------------------------------------------------------------------------------------
  // The state

  datatype ExprType = Frame | Pointer

  datatype State = State(
    pc: u32,
    stack: seq<u32>,
    offset: u32,
    cfa: u64,
    frameHeader: Option<u32>,
    resultsOffset: u32,
    resultsEnd: u32,
    exprType: ExprType,
    rootAddr: u64,
    chased: QueueEntry,
    contextOffset: u32,
    contextMask: u64,
    buf: Buf,
    work: Work)
  {
    predicate Ok() {
      buf.Ok() && resultsEnd <= |buf.mem|
    }
  }

  datatype Fault = DecodeFault | StackFault | BufferFault | NilFault | IndexFault | DivideFault
                 | IllegalFault | WalkFault

  datatype Outcome = Next(m: State) | Done(ok: bool, m: State) | Crash(fault: Fault) {
    /** What the well-formedness of further steps needs of a step from m. */
    predicate Keeps(m: State) {
      this.Crash? || (this.m.Ok() && |this.m.buf.mem| == |m.buf.mem|)
    }
  }

  // ---------------------------------------------------------------------------------------
  // Control

  function SetPC(env: Env, m: State, pc: u32): Outcome {
    if pc >= |env.prog| then Done(false, m) else Next(m.(pc := pc))
  }

  function Top(m: State): u32
    requires m.stack != []
  {
    m.stack[|m.stack| - 1]
  }

  function ReplaceTop(m: State, v: u32): State
    requires m.stack != []
  {
    m.(stack := m.stack[|m.stack| - 1 := v])
  }

  function Push(m: State, v: u32): State { m.(stack := m.stack + [v]) }

  function ExecReturn(env: Env, m: State): (r: Outcome)
    requires m.Ok()
    ensures r.Keeps(m)
  {
    if m.stack == [] then Done(true, m)
    else if Top(m) >= |env.prog| then Done(false, m)
    else Next(m.(pc := Top(m), stack := m.stack[..|m.stack| - 1]))
  }

  function Quotient(a: u32, b: u32): u32
    requires b > 0
  {
    QuotientBound(a, b);
    a / b
  }

  function ExecPushSliceLen(m: State, elemByteLen: u32): (r: Outcome)
    requires m.Ok()
    ensures r.Keeps(m)
  {
    if !m.buf.EntryLenSafe(m.offset) then Crash(BufferFault)
    else if elemByteLen == 0 then Crash(DivideFault)
    else Next(Push(m, Quotient(m.buf.EntryLen(m.offset), elemByteLen)))
  }

  predicate IsControl(op: Op) {
    op.Invalid? || op.Call? || op.CondJump? || op.Decrement? || op.Jump? || op.Pop? || op.PushImm?
    || op.PushOffset? || op.PushSliceLen? || op.Return? || op.SetOffset? || op.AdvanceOffset?
    || op.Nothing? || op.Illegal?
  }

  function ExecControl(env: Env, m: State, op: Op): (r: Outcome)
    requires m.Ok() && IsControl(op)
    ensures r.Keeps(m)
  {
    match op
    case Invalid => Done(false, m)
    case Call(pc) => SetPC(env, Push(m, m.pc), pc)
    case CondJump(pc) =>
      if m.stack == [] then Crash(StackFault)
      else if Top(m) != 0 then SetPC(env, m, pc)
      else Next(m)
    case Decrement =>
      if m.stack == [] then Crash(StackFault) else Next(ReplaceTop(m, Wrap32(Top(m) - 1)))
    case Jump(pc) => SetPC(env, m, pc)
    case Pop =>
      if m.stack == [] then Crash(StackFault) else Next(m.(stack := m.stack[..|m.stack| - 1]))
    case PushImm(v) => Next(Push(m, v))
    case PushOffset => Next(Push(m, m.offset))
    case PushSliceLen(n) => ExecPushSliceLen(m, n)
    case Return => ExecReturn(env, m)
    case SetOffset => if m.stack == [] then Crash(StackFault) else Next(m.(offset := Top(m)))
    case AdvanceOffset(n) => Next(m.(offset := Wrap32(m.offset + n)))
    case Illegal => Crash(IllegalFault)
    case Nothing(_) => Next(m)
  }

  // ---------------------------------------------------------------------------------------
  // Enqueueing referenced objects

  function Enqueue(m: State, addr: u64, typ: u32, dataLen: u32): State {
    m.(work := m.work.Push(addr, typ, dataLen))
  }

  /** An interface value resolved to the address of its data and the runtime type of the data. */
  datatype Resolved = Resolved(addr: u64, runtimeType: u64)

  function ResolveEmptyInterface(env: Env, b: Buf, off: u32): Option<Resolved>
    requires b.InRange(off, 16)
  {
    var typ := Read64(b.mem, off);
    if typ == 0 then None
    else Some(Resolved(Read64(b.mem, off + 8), env.RuntimeType(typ)))
  }

  function ExecEmptyInterface(env: Env, m: State): (r: Outcome)
    requires m.Ok()
    ensures r.Keeps(m)
  {
    if !m.buf.InRange(m.offset, 16) then Crash(BufferFault)
    else match ResolveEmptyInterface(env, m.buf, m.offset)
      case None => Next(m)
      case Some(e) =>
        var m' := m.(buf := m.buf.Write(m.offset, Le64(e.runtimeType)));
        if env.TypeId(e.runtimeType) == 0 then Next(m')
        else Next(Enqueue(m', e.addr, env.TypeId(e.runtimeType), 0))
  }

  /** The interface table at the offset is replaced by the type it names, read from memory. */
  function LoadType(env: Env, b: Buf, off: u32): (Buf, bool)
    requires b.InRange(off, 8)
  {
    b.Dereference(env.memory, off, Wrap64(Read64(b.mem, off) + 8), 8)
  }

  function ExecInterface(env: Env, m: State): (r: Outcome)
    requires m.Ok()
    ensures r.Keeps(m)
  {
    if !m.buf.InRange(m.offset, 8) then Crash(BufferFault)
    else if Read64(m.buf.mem, m.offset) == 0 then Next(m)
    else
      var (b, ok) := LoadType(env, m.buf, m.offset);
      if !ok then Next(m.(buf := b)) else ExecLoadedInterface(env, m.(buf := b))
  }

  function ExecLoadedInterface(env: Env, m: State): (r: Outcome)
    requires m.Ok() && m.buf.InRange(m.offset, 8)
    ensures r.Keeps(m)
  {
    var runtimeType := env.RuntimeType(Read64(m.buf.mem, m.offset));
    var m' := m.(buf := m.buf.Write(m.offset, Le64(runtimeType)));
    if env.TypeId(runtimeType) == 0 then Next(m')
    else if !m.buf.InRange(m.offset, 16) then Crash(BufferFault)
    else Next(Enqueue(m', Read64(m'.buf.mem, m.offset + 8), env.TypeId(runtimeType), 0))
  }

  function ExecPointer(m: State, elemType: u32): (r: Outcome)
    requires m.Ok()
    ensures r.Keeps(m)
  {
    if elemType == 0 then Done(false, m)
    else if !m.buf.InRange(m.offset, 8) then Crash(BufferFault)
    else Next(Enqueue(m, Read64(m.buf.mem, m.offset), elemType, 0))
  }

  /** A Go int read from the buffer is positive. */
  predicate Positive(v: u64) { 0 < v < 0x8000_0000_0000_0000 }

  function ExecSliceHeader(m: State, arrayType: u32, elemByteLen: u32): (r: Outcome)
    requires m.Ok()
    ensures r.Keeps(m)
  {
    if !m.buf.InRange(Wrap32(m.offset + 8), 8) then Crash(BufferFault)
    else
      var n := Read64(m.buf.mem, Wrap32(m.offset + 8));
      if !(Positive(n) && elemByteLen > 0) then Next(m)
      else if !m.buf.InRange(m.offset, 8) then Crash(BufferFault)
      else Next(Enqueue(m, Read64(m.buf.mem, m.offset), arrayType, Wrap32(n * elemByteLen)))
  }

  function ExecStringHeader(m: State, dataType: u32): (r: Outcome)
    requires m.Ok()
    ensures r.Keeps(m)
  {
    if !m.buf.InRange(Wrap32(m.offset + 8), 8) then Crash(BufferFault)
    else
      var n := Read64(m.buf.mem, Wrap32(m.offset + 8));
      if !Positive(n) then Next(m)
      else if !m.buf.InRange(m.offset, 8) then Crash(BufferFault)
      else Next(Enqueue(m, Read64(m.buf.mem, m.offset), dataType, Wrap32(n)))
  }

  /** uint32(1 << b): zero once the bit is shifted out. */
  function Buckets(b: u8): u32 {
    assert b < 32 ==> Pow2(b) <= 0x8000_0000 by {
      Pow2Grows(b, 31);
      Pow2Plus16(15);
      Pow2Plus4(11);
      Pow2Plus4(7);
      Pow2Plus4(3);
      assert Pow2(3) == 8;
    }
    if b < 32 then Pow2(b) else 0
  }

  /** Enqueues the bucket array of a map and, while the map grows, the old one. */
  function ExecHMapHeader(m0: State, typ: u32, bucketLen: u32, flagsAt: u8, bAt: u8, newAt: u8, oldAt: u8): (r: Outcome)
    requires m0.Ok()
    ensures r.Keeps(m0)
  {
    if m0.stack == [] then Crash(StackFault)
    else
      var m := ReplaceTop(m0, 0);
      HMapEnqueued(m, Wrap32(m.offset + flagsAt), Wrap32(m.offset + bAt), Wrap32(m.offset + newAt),
                   Wrap32(m.offset + oldAt), typ, bucketLen)
  }

  function HMapEnqueued(m: State, flags: u32, b: u32, new_: u32, old_: u32, typ: u32, bucketLen: u32): (r: Outcome)
    requires m.Ok()
    ensures r.Keeps(m)
  {
    if !(m.buf.InRange(flags, 1) && m.buf.InRange(b, 1) && m.buf.InRange(new_, 8) && m.buf.InRange(old_, 8))
    then Crash(BufferFault)
    else
      Next(BucketsEnqueued(m, Read64(m.buf.mem, new_), Read64(m.buf.mem, old_),
                           m.buf.mem[flags] / 8 % 2 == 1, m.buf.mem[b], typ, bucketLen))
  }

  function BucketsEnqueued(m: State, addr: u64, oldAddr: u64, sameSizeGrow: bool, logBuckets: u8, typ: u32,
                           bucketLen: u32): (m': State)
    ensures m' == m.(work := m'.work)
  {
    var n := Buckets(logBuckets);
    var m1 := if addr == 0 then m else Enqueue(m, addr, typ, Wrap32(n * bucketLen));
    var oldN := if sameSizeGrow then n else n / 2;
    if oldAddr == 0 then m1 else Enqueue(m1, oldAddr, typ, Wrap32(oldN * bucketLen))
  }

  function ExecSwissMap(m: State, tables: u32, group: u32, ptrAt: u8, lenAt: u8): (r: Outcome)
    requires m.Ok()
    ensures r.Keeps(m)
  {
    var p, l := Wrap32(m.offset + ptrAt), Wrap32(m.offset + lenAt);
    if !(m.buf.InRange(p, 8) && m.buf.InRange(l, 8)) then Crash(BufferFault)
    else
      var dir, n := Read64(m.buf.mem, p), Read64(m.buf.mem, l);
      Next(if Positive(n) then Enqueue(m, dir, tables, Wrap32(8 * n)) else Enqueue(m, dir, group, 0))
  }

  function ExecSwissMapGroups(m: State, groups: u32, groupLen: u32, dataAt: u8, maskAt: u8): (r: Outcome)
    requires m.Ok()
    ensures r.Keeps(m)
  {
    var d, k := Wrap32(m.offset + dataAt), Wrap32(m.offset + maskAt);
    if !(m.buf.InRange(d, 8) && m.buf.InRange(k, 8)) then Crash(BufferFault)
    else Next(Enqueue(m, Read64(m.buf.mem, d), groups, Wrap32(groupLen * Wrap32(Read64(m.buf.mem, k) + 1))))
  }

  /** Appends the entry pc of a subroutine; if the pc belongs to a known subroutine type, the entry
    * is dropped again and the subroutine is enqueued with that type. */
  function ExecSubroutine(env: Env, m: State): (r: Outcome)
    requires m.Ok()
    ensures r.Keeps(m)
  {
    if !m.buf.InRange(m.offset, 8) then Crash(BufferFault)
    else
      var addr := Read64(m.buf.mem, m.offset);
      var entry := QueueEntry(env.unresolvedSubroutine, 8, addr);
      if !m.buf.WriteEntrySafe(env.memory, entry) then Crash(BufferFault)
      else
        var (b, r) := m.buf.WriteEntry(env.memory, entry);
        if r.None? then Next(m.(buf := b))
        else ClassifySubroutine(env, m.(buf := b), r.value, addr, m.buf.len)
  }

  /** Relocates the entry pc stored at the offset and looks it up among the known ones. */
  function ClassifySubroutine(env: Env, m: State, off: u32, addr: u64, start: nat): (r: Outcome)
    requires m.Ok() && m.buf.InRange(off, 8) && start <= m.buf.len
    ensures r.Keeps(m)
  {
    var entryPc := Wrap64(Read64(m.buf.mem, off) - env.bssAddrShift);
    var b := m.buf.Write(off, Le64(entryPc));
    var i := Search(env.subroutinePcs, entryPc, 0, |env.subroutinePcs|);
    if i < |env.subroutinePcs| && env.subroutinePcs[i] == entryPc then
      if i >= |env.subroutineTypes| then Crash(IndexFault)
      else Next(Enqueue(m.(buf := b.Truncate(start)), addr, env.subroutineTypes[i], 0))
    else Next(m.(buf := b))
  }

  predicate IsEnqueue(op: Op) {
    op.EnqueueEmptyInterface? || op.EnqueueInterface? || op.EnqueuePointer? || op.EnqueueSliceHeader?
    || op.EnqueueStringHeader? || op.EnqueueHMapHeader? || op.EnqueueSwissMap?
    || op.EnqueueSwissMapGroups? || op.EnqueueSubroutine?
  }

  function ExecEnqueue(env: Env, m: State, op: Op): (r: Outcome)
    requires m.Ok() && IsEnqueue(op)
    ensures r.Keeps(m)
  {
    match op
    case EnqueueEmptyInterface => ExecEmptyInterface(env, m)
    case EnqueueInterface => ExecInterface(env, m)
    case EnqueuePointer(t) => ExecPointer(m, t)
    case EnqueueSliceHeader(t, n) => ExecSliceHeader(m, t, n)
    case EnqueueStringHeader(t) => ExecStringHeader(m, t)
    case EnqueueHMapHeader(t, n, a, b, c, d) => ExecHMapHeader(m, t, n, a, b, c, d)
    case EnqueueSwissMap(t, g, a, b) => ExecSwissMap(m, t, g, a, b)
    case EnqueueSwissMapGroups(g, n, a, b) => ExecSwissMapGroups(m, g, n, a, b)
    case EnqueueSubroutine => ExecSubroutine(env, m)
  }

  // ---------------------------------------------------------------------------------------
  // Frames and expressions

  function ExecDereferenceCFA(env: Env, m: State, offset: u32, byteLen: u32, bias: u32): (r: Outcome)
    requires m.Ok()
    ensures r.Keeps(m)
  {
    var signed := if offset < 0x8000_0000 then offset else offset - 0x1_0000_0000;
    var src := Wrap64(m.cfa + signed + bias);
    var (b, ok) := m.buf.EnsureLen(Wrap32(m.offset + byteLen));
    if !ok then Done(false, m.(buf := b))
    else if !b.ZeroSafe(m.offset, byteLen) then Crash(BufferFault)
    else Next(m.(buf := b.Dereference(env.memory, m.offset, src, byteLen).0))
  }

  /** Registers are not available; their place is zeroed. */
  function ExecCopyRegister(m: State, byteSize: u8): (r: Outcome)
    requires m.Ok()
    ensures r.Keeps(m)
  {
    var (b, ok) := m.buf.EnsureLen(Wrap32(m.offset + byteSize));
    if !ok then Done(false, m.(buf := b))
    else if !b.ZeroSafe(m.offset, byteSize) then Crash(BufferFault)
    else Next(m.(buf := b.Zero(m.offset, byteSize)))
  }

  /** Opens an expression: its scratch area starts at the current length. */
  function ExecPrepareExpr(m: State): (r: Outcome)
    requires m.Ok()
    ensures r.Keeps(m)
  {
    var m' := m.(resultsEnd := m.buf.len, offset := m.buf.len);
    if m.exprType.Frame? then Next(m')
    else if !m.buf.InRange(m.buf.len, 8) then Crash(BufferFault)
    else Next(m'.(buf := m.buf.Write(m.buf.len, Le64(m.rootAddr))))
  }

  /** Closes an expression: its result is copied to its slot and the scratch area is dropped. */
  function ExecSaveResult(m: State, resultOffset: u32, byteLen: u32): (r: Outcome)
    requires m.Ok()
    ensures r.Keeps(m)
  {
    var dst := Wrap32(m.resultsOffset + resultOffset);
    if !m.buf.CopySafe(m.offset, dst, byteLen) then Crash(BufferFault)
    else Next(m.(buf := m.buf.Copy(m.offset, dst, byteLen).Truncate(m.resultsEnd), offset := dst))
  }

  /** Appends the object pointed to; if it cannot be read, closes the expression and returns. */
  function ExecDereferencePtr(env: Env, m: State, bias: u32, byteLen: u32): (r: Outcome)
    requires m.Ok()
    ensures r.Keeps(m)
  {
    if !m.buf.InRange(m.offset, 8) then Crash(BufferFault)
    else
      var addr := Wrap64(Read64(m.buf.mem, m.offset) + bias);
      var entry := QueueEntry(0, byteLen, addr);
      if addr == 0 then ExecReturn(env, m.(buf := m.buf.Truncate(m.resultsEnd)))
      else if !m.buf.WriteEntrySafe(env.memory, entry) then Crash(BufferFault)
      else
        var (b, r) := m.buf.WriteEntry(env.memory, entry);
        if r.None? then ExecReturn(env, m.(buf := b.Truncate(m.resultsEnd)))
        else Next(m.(buf := b, offset := r.value))
  }

  function ExecZeroFill(m: State, byteLen: u32): (r: Outcome)
    requires m.Ok()
    ensures r.Keeps(m)
  {
    if !m.buf.ZeroSafe(m.offset, byteLen) then Crash(BufferFault)
    else Next(m.(buf := m.buf.Zero(m.offset, byteLen)))
  }

  /** b with bit k set. */
  function SetBit(b: u8, k: nat): u8
    requires k < 8
  {
    Pow2Grows(k, 7);
    assert Pow2(3) == 8;
    Pow2Plus4(3);
    if b / Pow2(k) % 2 == 1 then b else (b + Pow2(k)) % 0x100
  }

  function ExecPresenceBit(m: State, bit: u32): (r: Outcome)
    requires m.Ok()
    ensures r.Keeps(m)
  {
    var at := Wrap32(m.resultsOffset + bit / 8);
    if !m.buf.InRange(at, 1) then Crash(BufferFault)
    else Next(m.(buf := m.buf.Write(at, [SetBit(m.buf.mem[at], bit % 8)])))
  }

  function ExecPreparePointee(m: State): (r: Outcome)
    requires m.Ok()
    ensures r.Keeps(m)
  {
    if !m.buf.ReserveSafe(m.chased.len) then Crash(BufferFault)
    else
      var (b, r) := m.buf.Reserve(m.chased);
      if r.None? then Done(false, m.(buf := b))
      else ExecStartPointee(m.(buf := b), r.value)
  }

  /** The reserved entry becomes the result of the evaluations to come, and is cleared. */
  function ExecStartPointee(m: State, off: u32): (r: Outcome)
    requires m.Ok()
    ensures r.Keeps(m)
  {
    if !m.buf.ZeroSafe(off, m.chased.len) then Crash(BufferFault)
    else Next(m.(exprType := Pointer, resultsOffset := off, rootAddr := m.chased.addr,
                 offset := off, buf := m.buf.Zero(off, m.chased.len)))
  }

  function ExecPrepareFrame(m: State, depth: u32, prog: u32, dataLen: u32, typ: u32): (r: Outcome)
    requires m.Ok()
    ensures r.Keeps(m)
  {
    if !m.buf.FrameSafe(dataLen) then Crash(BufferFault)
    else
      var (b, r) := m.buf.PrepareFrame(typ, prog, dataLen, depth);
      if r.None? then Done(false, m.(buf := b))
      else Next(m.(frameHeader := Some(r.value.0), exprType := Frame, resultsOffset := r.value.1,
                   offset := r.value.1, buf := b))
  }

  function ExecConcludeFrame(m: State): (r: Outcome)
    requires m.Ok()
    ensures r.Keeps(m)
  {
    match m.frameHeader
    case None => Crash(NilFault)
    case Some(header) =>
      if !m.buf.InRange(header, 4) then Crash(BufferFault)
      else Next(m.(buf := m.buf.ConcludeFrame(header)))
  }

  predicate IsData(op: Op) {
    op.DereferenceCFAOffset? || op.CopyFromRegister? || op.PrepareExprEval? || op.SaveExprResult?
    || op.DereferencePtr? || op.ZeroFill? || op.SetPresenceBit? || op.PreparePointeeData?
    || op.PrepareFrameData? || op.ConcludeFrameData?
  }

  function ExecData(env: Env, depth: u32, m: State, op: Op): (r: Outcome)
    requires m.Ok() && IsData(op)
    ensures r.Keeps(m)
  {
    match op
    case DereferenceCFAOffset(o, n, b) => ExecDereferenceCFA(env, m, o, n, b)
    case CopyFromRegister(_, n) => ExecCopyRegister(m, n)
    case PrepareExprEval => ExecPrepareExpr(m)
    case SaveExprResult(o, n) => ExecSaveResult(m, o, n)
    case DereferencePtr(b, n) => ExecDereferencePtr(env, m, b, n)
    case ZeroFill(n) => ExecZeroFill(m, n)
    case SetPresenceBit(b) => ExecPresenceBit(m, b)
    case PreparePointeeData => ExecPreparePointee(m)
    case PrepareFrameData(p, n, t) => ExecPrepareFrame(m, depth, p, n, t)
    case ConcludeFrameData => ExecConcludeFrame(m)
  }

  // ---------------------------------------------------------------------------------------
  // Go contexts

  /** An interface value of a type the program knows. */
  datatype Known = Known(e: Resolved, typeId: u32, info: TypeInfo)

  function ResolveAny(env: Env, b: Buf, off: u32): Option<Known>
    requires b.InRange(off, 16)
  {
    match ResolveEmptyInterface(env, b, off)
    case None => None
    case Some(e) =>
      var id := env.TypeId(e.runtimeType);
      if e.runtimeType == 0 || id == 0 || id !in env.typeInfo then None
      else Some(Known(e, id, env.typeInfo[id]))
  }

  /** Records a context value in its slot unless the slot was taken, and enqueues the object. */
  function RecordContextValue(m: State, spec: ContextValue, v: Known, expected: u32): (r: Outcome)
    requires m.Ok()
    ensures r.Keeps(m) && !r.Done?
  {
    if !Has(m.contextMask, spec.index) then Next(m)
    else
      var at, at8 := Wrap32(m.contextOffset + spec.offset), Wrap32(m.contextOffset + spec.offset + 8);
      if !(m.buf.InRange(at, 8) && m.buf.InRange(at8, 8)) then Crash(BufferFault)
      else
        var m' := m.(contextMask := Clear(m.contextMask, spec.index),
                     buf := m.buf.Write(at, Le64(v.e.addr)).Write(at8, Le64(v.e.runtimeType)));
        if expected != 0 && expected != v.typeId then Next(m')
        else Next(Enqueue(m', v.e.addr, if spec.typ == 0 then v.typeId else spec.typ, 0))
  }

  /** One link of the context chain either ends the walk or leads to the parent context. */
  datatype Link = Stop(m: State) | More(m: State) | Broken(fault: Fault) {
    predicate Keeps(m: State) {
      this.Broken? || (this.m.Ok() && |this.m.buf.mem| == |m.buf.mem|)
    }
  }

  /** The value of a link, offered first by its own type and then by the type of its key. */
  function OfferValue(env: Env, m: State, impl: ContextImpl): (r: Outcome)
    requires m.Ok()
    ensures r.Keeps(m) && !r.Done?
  {
    match impl.valueOffset
    case None => Next(m)
    case Some(vo) =>
      var at := Wrap32(m.offset + vo);
      if !m.buf.InRange(at, 16) then Crash(BufferFault)
      else match ResolveAny(env, m.buf, at) {
        case None => Next(m)
        case Some(v) => OfferKnown(env, m, impl, v)
      }
  }

  function OfferKnown(env: Env, m: State, impl: ContextImpl, v: Known): (r: Outcome)
    requires m.Ok()
    ensures r.Keeps(m) && !r.Done?
  {
    var r := match v.info.contextValue
      case Some(spec) => RecordContextValue(m, spec, v, 0)
      case None => Next(m);
    if r.Crash? then r else OfferByKey(env, r.m, impl, v)
  }

  function OfferByKey(env: Env, m: State, impl: ContextImpl, v: Known): (r: Outcome)
    requires m.Ok()
    ensures r.Keeps(m) && !r.Done?
  {
    match impl.keyOffset
    case None => Next(m)
    case Some(ko) =>
      var at := Wrap32(m.offset + ko);
      if !m.buf.InRange(at, 16) then Crash(BufferFault)
      else match ResolveAny(env, m.buf, at) {
        case None => Next(m)
        case Some(k) =>
          if k.info.contextKey.None? then Next(m)
          else if k.info.contextKeyValueType.None? then Crash(NilFault)
          else RecordContextValue(m, k.info.contextKey.value, v, k.info.contextKeyValueType.value)
      }
  }

  /** The type of the context whose interface is at the offset, with its type loaded there. */
  function LinkType(env: Env, b: Buf, off: u32): Option<u32>
    requires b.InRange(off, 8)
  {
    var id := env.TypeId(env.RuntimeType(Read64(b.mem, off)));
    if id == 0 || id !in env.typeInfo || env.typeInfo[id].contextImpl.None? then None else Some(id)
  }

  function WalkLink(env: Env, m: State): (r: Link)
    requires m.Ok()
    ensures r.Keeps(m)
  {
    if m.contextMask == 0 then Stop(m)
    else if !m.buf.InRange(m.offset, 8) then Broken(BufferFault)
    else if Read64(m.buf.mem, m.offset) == 0 then Stop(m)
    else
      var (b, ok) := LoadType(env, m.buf, m.offset);
      var id := LinkType(env, b, m.offset);
      if !ok || id.None? then Stop(m.(buf := b)) else CopyLink(env, m.(buf := b), id.value)
  }

  /** Copies the object of a link to the buffer and visits it. */
  function CopyLink(env: Env, m: State, id: u32): (r: Link)
    requires m.Ok() && id in env.typeInfo && env.typeInfo[id].contextImpl.Some?
    ensures r.Keeps(m)
  {
    if !m.buf.InRange(m.offset, 16) then Broken(BufferFault)
    else
      var entry := QueueEntry(id, env.typeInfo[id].byteLen, Read64(m.buf.mem, m.offset + 8));
      if !m.buf.WriteEntrySafe(env.memory, entry) then Broken(BufferFault)
      else
        var (b, r) := m.buf.WriteEntry(env.memory, entry);
        if r.None? then Stop(m.(buf := b, offset := 0))
        else VisitLink(env, m.(buf := b, offset := r.value), env.typeInfo[id].contextImpl.value)
  }

  /** A link whose object was copied to the buffer, at the offset. */
  function VisitLink(env: Env, m: State, impl: ContextImpl): (r: Link)
    requires m.Ok()
    ensures r.Keeps(m)
  {
    match OfferValue(env, m, impl)
    case Crash(fault) => Broken(fault)
    case Next(m2) =>
      if impl.contextOffset.None? then Stop(m2)
      else More(m2.(offset := Wrap32(m2.offset + impl.contextOffset.value)))
  }

  function Walk(env: Env, m: State, budget: nat): (r: Link)
    requires m.Ok()
    ensures r.Keeps(m) && !r.More?
    decreases budget
  {
    hide WalkLink;
    if budget == 0 then Broken(WalkFault)
    else match WalkLink(env, m)
      case More(m') => Walk(env, m', budget - 1)
      case r => r
  }

  function ExecGoContext(env: Env, m: State, dataLen: u32, typ: u32, count: u8): (r: Outcome)
    requires m.Ok()
    ensures r.Keeps(m)
  {
    if !m.buf.InRange(m.offset + 8, 8) then Crash(BufferFault)
    else
      var addr := Read64(m.buf.mem, m.offset + 8);
      var (work, fresh_) := m.work.ShouldRecord(addr, typ);
      var m1 := m.(work := work);
      var entry := QueueEntry(typ, dataLen, addr);
      if !fresh_ then Next(m1)
      else if !m.buf.WriteEntrySafe(env.memory, entry) then Crash(BufferFault)
      else
        var (b, r) := m.buf.WriteEntry(env.memory, entry);
        if r.None? then Next(m1.(buf := b))
        else ContextBody(env, m1.(buf := b), r.value, dataLen, count)
  }

  /** Clears the context object at o, walks the chain, and drops what the walk appended. */
  function ContextBody(env: Env, m: State, o: u32, dataLen: u32, count: u8): (r: Outcome)
    requires m.Ok()
    ensures r.Keeps(m)
  {
    if !m.buf.ZeroSafe(o, dataLen) then Crash(BufferFault)
    else
      var m1 := m.(buf := m.buf.Zero(o, dataLen), contextOffset := o, contextMask := Initial(count));
      match Walk(env, m1, env.walkBudget)
      case Broken(fault) => Crash(fault)
      case Stop(m2) => Next(m2.(buf := m2.buf.Truncate(m1.buf.len)))
  }

  // ---------------------------------------------------------------------------------------
  // Steps and runs

  /** Executes an instruction; the pc of the state is already behind it. */
  function Exec(env: Env, depth: u32, m: State, op: Op): (r: Outcome)
    requires m.Ok()
    ensures r.Keeps(m)
  {
    if IsControl(op) then ExecControl(env, m, op)
    else if IsEnqueue(op) then ExecEnqueue(env, m, op)
    else if IsData(op) then ExecData(env, depth, m, op)
    else ExecGoContext(env, m, op.dataByteLen, op.typeID, op.captureCount)
  }

  function Step(env: Env, depth: u32, m: State): (r: Outcome)
    requires m.Ok()
    ensures r.Keeps(m)
  {
    match Decode(env.prog, m.pc)
    case None => Crash(DecodeFault)
    case Some((op, next)) => Exec(env, depth, m.(pc := next), op)
  }

  /** At most fuel steps; a run that uses them up ends with false. */
  function Iterate(env: Env, depth: u32, m: State, fuel: nat): (r: Outcome)
    requires m.Ok()
    ensures r.Keeps(m) && !r.Next?
    decreases fuel
  {
    hide Step;
    if fuel == 0 then Done(false, m)
    else match Step(env, depth, m)
      case Next(m') => Iterate(env, depth, m', fuel - 1)
      case r => r
  }

  lemma IterateOnce(env: Env, depth: u32, m: State, fuel: nat)
    requires m.Ok()
    ensures fuel == 0 ==> Iterate(env, depth, m, fuel) == Done(false, m)
    ensures fuel > 0 ==>
              var r := Step(env, depth, m);
              Iterate(env, depth, m, fuel) == if r.Next? then Iterate(env, depth, r.m, fuel - 1) else r
  {
    hide Step;
  }

  const FUEL := 100000

  function Run(env: Env, m: State, pc: u32, cfa: u64, depth: u32, offset: u32): (r: Outcome)
    requires m.Ok()
    ensures r.Keeps(m) && !r.Next?
  {
    if pc >= |env.prog| then Done(false, m)
    else Iterate(env, depth, m.(pc := pc, cfa := cfa, offset := offset), FUEL)
  }
}
