/** A discipline for frame programs: at each instruction it is known whether a frame or an expression
  * is open, and where in the frame the offset is. Programs that follow it are orderly. */
module FrameTypes {
  import opened Words
  import opened Bytes
  import opened Wrappers
  import opened Worklist
  import opened Buffer
  import opened BufferFacts
  import opened Machine
  import opened MachineFrame
  import opened Alignment
  import opened Framing
  import opened FramedRun
  import opened Accounting
  import opened ContextWalk
  import opened D = Decoder

  /** Ready to open a frame; in a frame of n bytes, possibly with the offset known to be at a place in
    * it; or evaluating an expression for such a frame. */
  datatype Mode = Ready | Idle(n: u32, at: Option<nat>) | Open(n: u32)

  predicate Slot(mode: Mode, k: nat) {
    mode.Idle? && mode.at.Some? && mode.at.value + k <= mode.n
  }

  /** The mode after an instruction that goes on to the next; none if the discipline forbids it. */
  ghost function After(env: Env, mode: Mode, op: Op): Option<Mode> {
    match op
    case PrepareFrameData(_, n, _) => if mode.Ready? && n < 0x3fff_fff0 then Some(Idle(n, Some(0))) else None
    case ConcludeFrameData => if mode.Idle? then Some(Ready) else None
    case PrepareExprEval => if mode.Idle? then Some(Open(mode.n)) else None
    case SaveExprResult(o, k) => if mode.Open? && o + k <= mode.n then Some(Idle(mode.n, Some(o))) else None
    case DereferenceCFAOffset(_, k, _) => if (mode.Open? && Small(k)) || Slot(mode, k) then Some(mode) else None
    case CopyFromRegister(_, k) => if mode.Open? || Slot(mode, k) then Some(mode) else None
    case DereferencePtr(_, k) => if mode.Open? && Small(k) then Some(mode) else None
    case ZeroFill(k) => if mode.Open? || Slot(mode, k) then Some(mode) else None
    case SetPresenceBit(b) => if !mode.Ready? && b / 8 < mode.n then Some(mode) else None
    case EnqueueEmptyInterface => if Slot(mode, 8) then Some(mode) else None
    case EnqueueInterface => if Slot(mode, 8) then Some(mode) else None
    case EnqueueSubroutine => if mode.Idle? then Some(mode) else None
    case PrepareGoContext(k, _, _) => if Slot(mode, 16) && TypesFit(env, k) then Some(Idle(mode.n, None)) else None
    case AdvanceOffset(i) =>
      if mode.Open? then None
      else if mode.Ready? then Some(mode)
      else if mode.at.Some? && mode.at.value + i < 0x4000_0000 then Some(Idle(mode.n, Some(mode.at.value + i)))
      else Some(Idle(mode.n, None))
    case SetOffset => if mode.Open? then None else if mode.Ready? then Some(mode) else Some(Idle(mode.n, None))
    case PreparePointeeData => None
    case _ => Some(mode)
  }

  /** A frame of n bytes is open: its entry is the first after its header, and results go there. */
  ghost predicate FrameOpen(m: State, l: Layout, n: nat) {
    && n < 0x3fff_fff0
    && l.header == Some(l.FramesEnd()) && l.entries != [] && l.entries[0].len == n + 8
    && m.resultsOffset == l.FramesEnd() + 24 && l.FramesEnd() + 24 < 0x8000_0000
  }

  ghost predicate InMode(m: State, l: Layout, open: bool, mode: Mode) {
    match mode
    case Ready => Complete(l, open)
    case Idle(n, at) =>
      && !open && FrameOpen(m, l, n)
      && (at.Some? ==> at.value < 0x4000_0000 && m.offset == m.resultsOffset + at.value)
    case Open(n) => open && FrameOpen(m, l, n) && l.End() <= m.offset < 0x8000_0000
  }

  // ---------------------------------------------------------------------------------------
  // What the discipline allows is orderly

  /** The data of the frame's entry is data. */
  lemma FrameDataIsData(m: State, l: Layout, n: nat, o: nat, k: nat)
    requires FrameOpen(m, l, n) && o + k <= n
    ensures l.DataAt(m.resultsOffset + o, k)
  {
    var next := l.Tail() + EntrySize(l.entries[0].len);
    SmallSize(0, l.entries[0].len);
    AvoidsAbove(next, l.entries[1..], m.resultsOffset + o, k);
  }

  lemma ScratchIsData(l: Layout, off: nat, k: nat)
    requires l.End() <= off
    ensures l.DataAt(off, k)
  {
    AvoidsBelow(l.Tail(), l.entries, off, k);
  }

  lemma FrameFits(m: State, base: seq<u8>, l: Layout, n: nat)
    requires FrameOpen(m, l, n) && Section(base, m, l, false)
    ensures m.resultsOffset + n <= m.buf.len
  {
    hide LaidOut;
    SmallSize(0, l.entries[0].len);
    assert EntriesSize(l.entries) >= EntrySize(l.entries[0].len);
  }

  /** An instruction that the discipline allows is orderly. */
  lemma AllowedIsOrderly(base: seq<u8>, env: Env, m: State, op: Op, l: Layout, open: bool, mode: Mode)
    requires Section(base, m, l, open) && InMode(m, l, open, mode) && After(env, mode, op).Some?
    ensures Orderly(env, m, op, l, open)
  {
    hide Section, Layout.DataAt, TypesFit, FrameOpen, Layout.End, Orderly, After, Slot;
    match mode {
      case Ready => ReadyIsOrderly(env, m, op, l, open);
      case Open(n) => OpenIsOrderly(env, m, op, l, mode);
      case Idle(n, at) => FrameFits(m, base, l, n); IdleIsOrderly(env, m, op, l, mode);
    }
  }

  lemma ReadyIsOrderly(env: Env, m: State, op: Op, l: Layout, open: bool)
    requires Complete(l, open) && After(env, Ready, op).Some?
    ensures Orderly(env, m, op, l, open)
  {
    hide Layout.DataAt, TypesFit;
  }

  lemma OpenIsOrderly(env: Env, m: State, op: Op, l: Layout, mode: Mode)
    requires mode.Open? && InMode(m, l, true, mode) && After(env, mode, op).Some?
    ensures Orderly(env, m, op, l, true)
  {
    hide Layout.DataAt, TypesFit, FrameOpen, Layout.End;
    FrameIsLow(m, l, mode.n);
    if op.DereferenceCFAOffset? {
      ScratchIsData(l, m.offset, op.byteLen);
    } else if op.CopyFromRegister? {
      ScratchIsData(l, m.offset, op.byteSize);
    } else if op.ZeroFill? {
      ScratchIsData(l, m.offset, op.byteLen);
    } else if op.SaveExprResult? {
      FrameDataIsData(m, l, mode.n, op.resultOffset, op.byteLen);
    } else if op.SetPresenceBit? {
      BitIsData(m, l, mode.n, op.bitOffset);
    }
  }

  lemma IdleIsOrderly(env: Env, m: State, op: Op, l: Layout, mode: Mode)
    requires mode.Idle? && InMode(m, l, false, mode) && After(env, mode, op).Some?
    requires m.resultsOffset + mode.n <= m.buf.len
    ensures Orderly(env, m, op, l, false)
  {
    hide Layout.DataAt, TypesFit, FrameOpen, Layout.End;
    FrameIsLow(m, l, mode.n);
    if op.SetPresenceBit? {
      BitIsData(m, l, mode.n, op.bitOffset);
    } else if mode.at.Some? {
      SlotsAreData(m, l, mode);
    }
  }

  lemma FrameIsLow(m: State, l: Layout, n: nat)
    requires FrameOpen(m, l, n)
    ensures m.resultsOffset < 0x8000_0000 && n < 0x3fff_fff0 && l.header.Some?
  {
  }

  lemma BitIsData(m: State, l: Layout, n: nat, b: u32)
    requires FrameOpen(m, l, n) && b / 8 < n
    ensures l.DataAt(Wrap32(m.resultsOffset + b / 8), 1)
  {
    WrapSmall(m.resultsOffset + b / 8);
    FrameDataIsData(m, l, n, b / 8, 1);
  }

  lemma SlotsAreData(m: State, l: Layout, mode: Mode)
    requires InMode(m, l, false, mode) && mode.Idle? && mode.at.Some?
    ensures forall k: nat :: Slot(mode, k) ==> l.DataAt(m.offset, k)
    ensures Slot(mode, 16) ==> Slot(mode, 8)
  {
    hide Layout.DataAt;
    forall k: nat | Slot(mode, k) ensures l.DataAt(m.offset, k) {
      FrameDataIsData(m, l, mode.n, mode.at.value, k);
    }
  }

  // ---------------------------------------------------------------------------------------
  // One instruction

  /** An instruction that may go on elsewhere than behind itself, or not at all. */
  predicate Transfers(op: Op) {
    op.Invalid? || op.Illegal? || op.Jump? || op.CondJump? || op.Call? || op.Return?
  }

  /** What an instruction leaves of the frame. */
  ghost predicate FrameKept(m: State, l: Layout, m': State, l': Layout) {
    && m'.resultsOffset == m.resultsOffset
    && l'.lo == l.lo && l'.frames == l.frames && l'.header == l.header
    && l.entries <= l'.entries
  }

  lemma FrameStaysOpen(m: State, l: Layout, m': State, l': Layout, n: nat)
    requires FrameOpen(m, l, n) && FrameKept(m, l, m', l')
    ensures FrameOpen(m', l', n)
  {
    hide FramesSize;
  }

  lemma StackOpMode(env: Env, m: State, op: Op, l: Layout, open: bool, mode: Mode)
    requires m.Ok() && InMode(m, l, open, mode) && After(env, mode, op).Some? && IsControl(op) && !Transfers(op)
    ensures var r := ExecControl(env, m, op); r.Next? ==> InMode(r.m, l, open, After(env, mode, op).value)
  {
    hide FramesSize, EntriesSize;
    if op.AdvanceOffset? && mode.Idle? && mode.at.Some? && mode.at.value + op.increment < 0x4000_0000 {
      WrapSmall(m.offset + op.increment);
    }
    hide Wrap32;
  }

  /** Enqueueing leaves the frame, the offset and what is open. */
  lemma EnqueueKeepsOffset(env: Env, m: State, op: Op)
    requires m.Ok() && IsEnqueue(op)
    ensures var r := ExecEnqueue(env, m, op);
            r.Next? ==> r.m.offset == m.offset && r.m.resultsOffset == m.resultsOffset
  {
    hide Read64, Wrap32, Work.Push, Buf.WriteEntry, Buf.WriteEntrySafe, Buckets, Search, Le64;
    if op.EnqueueHMapHeader? {
      HMapIs(env, m, op);
      HMapFrame(env, m, op.bucketsArrayType, op.bucketByteLen, op.flagsOffset, op.bOffset, op.bucketsOffset,
                op.oldBucketsOffset);
      HMapOffset(m, op.bucketsArrayType, op.bucketByteLen, op.flagsOffset, op.bOffset, op.bucketsOffset,
                 op.oldBucketsOffset);
    }
  }

  lemma HMapIs(env: Env, m: State, op: Op)
    requires m.Ok() && op.EnqueueHMapHeader?
    ensures ExecEnqueue(env, m, op)
            == ExecHMapHeader(m, op.bucketsArrayType, op.bucketByteLen, op.flagsOffset, op.bOffset, op.bucketsOffset,
                              op.oldBucketsOffset)
  {
  }

  lemma HMapOffset(m: State, typ: u32, n: u32, a: u8, b: u8, c: u8, d: u8)
    requires m.Ok()
    ensures var r := ExecHMapHeader(m, typ, n, a, b, c, d); r.Next? ==> r.m.offset == m.offset
  {
    hide BucketsEnqueued, Read64, Wrap32;
  }

  lemma EnqueueMode(env: Env, m: State, op: Op, l: Layout, open: bool, mode: Mode)
    requires m.Ok() && InMode(m, l, open, mode) && After(env, mode, op).Some? && IsEnqueue(op)
    ensures var r := ExecEnqueue(env, m, op);
            r.Next? ==> InMode(r.m, LayoutAfter(env, m, op, r.m, l), open, After(env, mode, op).value)
  {
    EnqueueKeepsOffset(env, m, op);
    hide ExecEnqueue, FramesSize, EntriesSize, Read64, Readable, FrameOpen;
    var r := ExecEnqueue(env, m, op);
    if r.Next? {
      var l' := LayoutAfter(env, m, op, r.m, l);
      assert !op.EnqueueSubroutine? ==> l' == l;
      if !mode.Ready? { FrameStaysOpen(m, l, r.m, l', mode.n); }
    }
  }

  lemma PrepareMode(base: seq<u8>, depth: u32, m: State, prog: u32, n: u32, typ: u32, l: Layout)
    requires Section(base, m, l, false) && Complete(l, false) && n < 0x3fff_fff0
    ensures var r := ExecPrepareFrame(m, depth, prog, n, typ);
            r.Next? && !r.m.buf.full ==>
              InMode(r.m, l.(header := Some(m.buf.len), entries := [QueueEntry(typ, Wrap32(n + 8), 0)]), false,
                     Idle(n, Some(0)))
  {
    hide HeaderAt, Read32, Pad8, Buf.PrepareFrame, Buf.FrameSafe, FramesAt, EntriesAt, FramesSize;
    if m.buf.FrameSafe(n) {
      var (b, r) := m.buf.PrepareFrame(typ, prog, n, depth);
      if !b.full {
        FrameIsPrepared(m.buf, typ, prog, n, depth);
        FrameSizes(m.buf.len, n);
      }
    }
  }

  lemma ExprMode(base: seq<u8>, m: State, l: Layout, n: nat)
    requires Section(base, m, l, false) && FrameOpen(m, l, n)
    ensures var r := ExecPrepareExpr(m); r.Next? ==> FrameOpen(r.m, l, n) && l.End() == r.m.offset < 0x8000_0000
  {
    hide LaidOut, FramesSize, EntriesSize, Le64;
  }

  lemma SaveMode(m: State, l: Layout, n: nat, o: u32, k: u32)
    requires m.Ok() && FrameOpen(m, l, n) && o + k <= n
    ensures var r := ExecSaveResult(m, o, k); r.Next? ==> FrameOpen(r.m, l, n) && r.m.offset == r.m.resultsOffset + o
  {
    WrapSmall(m.resultsOffset + o);
    hide FramesSize, EntriesSize, Wrap32, CopyForward;
  }

  /** A pointer that was read: the offset moves to the object, behind everything else. */
  lemma PointerMode(base: seq<u8>, env: Env, m: State, bias: u32, k: u32, l: Layout, n: nat)
    requires Section(base, m, l, true) && FrameOpen(m, l, n) && Small(k) && !PointerFails(env, m, bias, k)
    ensures var r := ExecDereferencePtr(env, m, bias, k);
            r.Next? && !r.m.buf.full ==> FrameOpen(r.m, l, n) && l.End() <= r.m.offset < 0x8000_0000
  {
    hide LaidOut, Buf.WriteEntry, Buf.WriteEntrySafe, Read64, HeaderAt, Pad8, FramesSize, EntriesSize, ExecReturn,
         Readable;
    if m.buf.InRange(m.offset, 8) {
      var e := QueueEntry(0, k, Wrap64(Read64(m.buf.mem, m.offset) + bias));
      if e.addr != 0 && m.buf.WriteEntrySafe(env.memory, e) {
        var (b, r) := m.buf.WriteEntry(env.memory, e);
        if !b.full { WriteEntryFits(m.buf, env.memory, e); }
      }
    }
  }

  /** An instruction that writes at the offset leaves the offset. */
  lemma InPlace(env: Env, depth: u32, m: State, op: Op)
    requires m.Ok()
    requires op.DereferenceCFAOffset? || op.CopyFromRegister? || op.ZeroFill? || op.SetPresenceBit?
    ensures var r := ExecData(env, depth, m, op);
            r.Next? ==> r.m.offset == m.offset && r.m.resultsOffset == m.resultsOffset
  {
    hide Wrap32, Wrap64, Buf.Zero, Buf.Dereference;
  }

  lemma DataMode(base: seq<u8>, env: Env, depth: u32, m: State, op: Op, l: Layout, open: bool, mode: Mode)
    requires Section(base, m, l, open) && InMode(m, l, open, mode) && After(env, mode, op).Some? && IsData(op)
    requires !(op.DereferencePtr? && PointerFails(env, m, op.bias, op.byteLen))
    ensures var r := ExecData(env, depth, m, op);
            r.Next? && !r.m.buf.full ==>
              InMode(r.m, LayoutAfter(env, m, op, r.m, l), OpenAfter(env, m, op, open), After(env, mode, op).value)
  {
    hide Section, FramesSize, EntriesSize, PointerFails, ExecDereferencePtr, ExecPrepareFrame, ExecPrepareExpr,
         ExecSaveResult, ExecDereferenceCFA, ExecCopyRegister, ExecZeroFill, ExecPresenceBit, FrameOpen, Read64;
    SectionOk(base, m, l, open);
    if !mode.Ready? { FrameIsLow(m, l, mode.n); }
    if op.PrepareFrameData? {
      PrepareMode(base, depth, m, op.progID, op.dataByteLen, op.typeID, l);
    } else if op.ConcludeFrameData? {
    } else if op.PrepareExprEval? {
      ExprMode(base, m, l, mode.n);
    } else if op.SaveExprResult? {
      SaveMode(m, l, mode.n, op.resultOffset, op.byteLen);
    } else if op.DereferencePtr? {
      PointerMode(base, env, m, op.bias, op.byteLen, l, mode.n);
    } else {
      hide ExecData, After, InMode, LayoutAfter, OpenAfter;
      InPlaceMode(env, depth, m, op, l, open, mode);
    }
  }

  lemma InPlaceMode(env: Env, depth: u32, m: State, op: Op, l: Layout, open: bool, mode: Mode)
    requires m.Ok() && InMode(m, l, open, mode) && After(env, mode, op).Some?
    requires op.DereferenceCFAOffset? || op.CopyFromRegister? || op.ZeroFill? || op.SetPresenceBit?
    ensures var r := ExecData(env, depth, m, op);
            r.Next? ==>
              InMode(r.m, LayoutAfter(env, m, op, r.m, l), OpenAfter(env, m, op, open), After(env, mode, op).value)
  {
    hide ExecData, FrameOpen, Slot, Layout.End;
    InPlace(env, depth, m, op);
    var r := ExecData(env, depth, m, op);
    if r.Next? && !mode.Ready? { FrameStaysOpen(m, l, r.m, l, mode.n); }
  }

  lemma ContextMode(env: Env, m: State, op: Op, l: Layout, open: bool, mode: Mode)
    requires m.Ok() && InMode(m, l, open, mode) && After(env, mode, op).Some? && op.PrepareGoContext?
    ensures var r := ExecGoContext(env, m, op.dataByteLen, op.typeID, op.captureCount);
            r.Next? ==> InMode(r.m, LayoutAfter(env, m, op, r.m, l), open, After(env, mode, op).value)
  {
    ContextFrame(env, m, op.dataByteLen, op.typeID, op.captureCount);
    hide ExecGoContext, FramesSize, EntriesSize, Read64, Readable, FrameOpen, WorkGrows, TypesFit;
    var r := ExecGoContext(env, m, op.dataByteLen, op.typeID, op.captureCount);
    if r.Next? { FrameStaysOpen(m, l, r.m, LayoutAfter(env, m, op, r.m, l), mode.n); }
  }

  /** The mode after an instruction that the discipline allows. */
  lemma AllowedKeepsMode(base: seq<u8>, env: Env, depth: u32, m: State, op: Op, l: Layout, open: bool, mode: Mode)
    requires Section(base, m, l, open) && InMode(m, l, open, mode) && After(env, mode, op).Some?
    requires !Transfers(op) && !(op.DereferencePtr? && PointerFails(env, m, op.bias, op.byteLen))
    ensures var r := Exec(env, depth, m, op);
            r.Next? && !r.m.buf.full ==>
              InMode(r.m, LayoutAfter(env, m, op, r.m, l), OpenAfter(env, m, op, open), After(env, mode, op).value)
  {
    hide Section, InMode, After, LayoutAfter, PointerFails, ExecControl, ExecEnqueue, ExecData, ExecGoContext;
    SectionOk(base, m, l, open);
    if IsControl(op) {
      StackOpMode(env, m, op, l, open, mode);
      ControlLeavesLayout(env, m, op, l);
    } else if IsEnqueue(op) {
      EnqueueMode(env, m, op, l, open, mode);
    } else if IsData(op) {
      DataMode(base, env, depth, m, op, l, open, mode);
    } else {
      ContextMode(env, m, op, l, open, mode);
    }
  }

  lemma ControlLeavesLayout(env: Env, m: State, op: Op, l: Layout)
    requires IsControl(op)
    ensures forall m' :: LayoutAfter(env, m, op, m', l) == l
  {
  }
}
