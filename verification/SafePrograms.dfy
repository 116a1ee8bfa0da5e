/** Frame programs that never fault: they read and write only what lies inside the frame, its trailer,
  * or what an expression has loaded. */
module SafePrograms {
  import opened Words
  import opened Wrappers
  import opened Worklist
  import opened Buffer
  import opened BufferFacts
  import opened Machine
  import opened Runs
  import opened Alignment
  import opened Framing
  import opened FramedRun
  import opened FrameTypes
  import opened FramePrograms
  import Bytes
  import MachineFrame
  import TypedRuns
  import opened D = Decoder

  /** The frame's entry is longer than its data by the trailer, which may be read. */
  predicate Reads(mode: Mode, k: nat) {
    mode.Idle? && mode.at.Some? && mode.at.value + k <= mode.n + 8
  }

  /** What is known after an instruction that cannot fault: the mode, and how many bytes an open
    * expression has loaded at the offset. */
  ghost function SafeAfter(env: Env, mode: Mode, loaded: nat, op: Op): Option<(Mode, nat)> {
    var next := After(env, mode, op);
    if next.None? then None
    else match op
      case PrepareFrameData(_, _, _) => Some((next.value, 0))
      case ConcludeFrameData => Some((next.value, 0))
      case PrepareExprEval => Some((next.value, 0))
      case DereferenceCFAOffset(_, k, _) => Some((next.value, k))
      case CopyFromRegister(_, k) => Some((next.value, k))
      case SaveExprResult(_, k) => if k <= loaded then Some((next.value, 0)) else None
      case ZeroFill(k) => if Slot(mode, k) then Some((next.value, 0)) else None
      case SetPresenceBit(_) => Some((next.value, loaded))
      case EnqueuePointer(t) => if t != 0 && Reads(mode, 8) then Some((next.value, 0)) else None
      case EnqueueSliceHeader(_, _) => if Reads(mode, 16) then Some((next.value, 0)) else None
      case EnqueueStringHeader(_) => if Reads(mode, 16) then Some((next.value, 0)) else None
      case EnqueueEmptyInterface => if Reads(mode, 16) then Some((next.value, 0)) else None
      case EnqueueInterface => if Reads(mode, 16) then Some((next.value, 0)) else None
      case AdvanceOffset(_) => Some((next.value, 0))
      case Nothing(_) => Some((next.value, loaded))
      case _ => None
  }

  ghost predicate SafeState(m: State, l: Layout, open: bool, mode: Mode, loaded: nat) {
    && InMode(m, l, open, mode)
    && (!mode.Ready? ==> m.exprType.Frame?)
    && (mode.Open? ==> m.offset + loaded <= m.buf.len)
  }

  lemma FrameIsInside(base: seq<u8>, m: State, l: Layout, open: bool, n: nat)
    requires FrameOpen(m, l, n) && Section(base, m, l, open)
    ensures m.resultsOffset + n + 8 <= l.End() <= m.buf.len <= |m.buf.mem| < 0x8000_0000
    ensures open ==> l.End() == m.resultsEnd
    ensures m.frameHeader.Some? && m.frameHeader.value + 4 <= |m.buf.mem|
  {
    hide LaidOut;
    SmallSize(0, l.entries[0].len);
    assert EntriesSize(l.entries) >= EntrySize(l.entries[0].len);
  }

  // ---------------------------------------------------------------------------------------
  // One instruction

  lemma PrepareIsSafe(depth: u32, m: State, prog: u32, n: u32, typ: u32)
    requires m.Ok() && n < 0x3fff_fff0
    ensures var r := ExecPrepareFrame(m, depth, prog, n, typ); !r.Crash? && (r.Next? ==> r.m.exprType.Frame?)
  {
    FrameSizes(m.buf.len, n);
    hide Buf.PrepareFrame, Wrap32, Pad8;
  }

  lemma LoadIsSafe(env: Env, m: State, o: u32, k: u32, bias: u32)
    requires m.Ok() && m.offset + k < 0x1_0000_0000
    ensures var r := ExecDereferenceCFA(env, m, o, k, bias);
            && !r.Crash?
            && (r.Next? ==> r.m.offset == m.offset && r.m.exprType == m.exprType && m.offset + k <= r.m.buf.len)
  {
    WrapSmall(m.offset + k);
    hide Wrap32, Wrap64, Buf.Dereference;
    var (b, ok) := m.buf.EnsureLen(m.offset + k);
    if ok {
      var signed := if o < 0x8000_0000 then o else o - 0x1_0000_0000;
      DereferenceIsLocal(b, env.memory, m.offset, Wrap64(m.cfa + signed + bias), k);
    }
  }

  lemma RegisterIsSafe(m: State, k: u8)
    requires m.Ok() && m.offset + k < 0x1_0000_0000
    ensures var r := ExecCopyRegister(m, k);
            && !r.Crash?
            && (r.Next? ==> r.m.offset == m.offset && r.m.exprType == m.exprType && m.offset + k <= r.m.buf.len)
  {
    WrapSmall(m.offset + k);
    hide Wrap32, Buf.Zero;
    var (b, ok) := m.buf.EnsureLen(m.offset + k);
    if ok { ZeroIsLocal(b, m.offset, k); }
  }

  lemma SaveIsSafe(m: State, o: u32, k: u32)
    requires m.Ok() && m.offset + k <= m.buf.len && m.resultsOffset + o + k <= m.buf.len
    ensures var r := ExecSaveResult(m, o, k); r.Next? && r.m.exprType == m.exprType
  {
    WrapSmall(m.resultsOffset + o);
    hide Wrap32, Buf.Copy, CopyForward;
  }

  /** Instructions that read at the offset. */
  lemma ReadIsSafe(env: Env, m: State, op: Op)
    requires m.Ok() && IsEnqueue(op)
    requires match op
             case EnqueuePointer(t) => t != 0 && m.offset + 8 <= |m.buf.mem|
             case EnqueueSliceHeader(_, _) => m.offset + 16 <= |m.buf.mem|
             case EnqueueStringHeader(_) => m.offset + 16 <= |m.buf.mem|
             case EnqueueEmptyInterface => m.offset + 16 <= |m.buf.mem|
             case EnqueueInterface => m.offset + 16 <= |m.buf.mem|
             case _ => false
    ensures var r := ExecEnqueue(env, m, op); r.Next? && r.m.exprType == m.exprType
  {
    hide ExecPointer, ExecSliceHeader, ExecStringHeader, ExecEmptyInterface, ExecInterface;
    if op.EnqueuePointer? {
      PointerIsSafe(m, op.elemType);
    } else if op.EnqueueSliceHeader? {
      HeaderIsSafe(m, op.arrayType, op.elemByteLen);
    } else if op.EnqueueStringHeader? {
      StringIsSafe(m, op.stringDataType);
    } else {
      InterfaceIsSafe(env, m);
    }
  }

  lemma PointerIsSafe(m: State, t: u32)
    requires m.Ok() && t != 0 && m.offset + 8 <= |m.buf.mem|
    ensures var r := ExecPointer(m, t); r.Next? && r.m.exprType == m.exprType
  {
    hide Bytes.Read64, Work.Push;
  }

  lemma HeaderIsSafe(m: State, t: u32, n: u32)
    requires m.Ok() && m.offset + 16 <= |m.buf.mem|
    ensures var r := ExecSliceHeader(m, t, n); r.Next? && r.m.exprType == m.exprType
  {
    WrapSmall(m.offset + 8);
    hide Bytes.Read64, Wrap32, Work.Push;
  }

  lemma StringIsSafe(m: State, t: u32)
    requires m.Ok() && m.offset + 16 <= |m.buf.mem|
    ensures var r := ExecStringHeader(m, t); r.Next? && r.m.exprType == m.exprType
  {
    WrapSmall(m.offset + 8);
    hide Bytes.Read64, Wrap32, Work.Push;
  }

  lemma InterfaceIsSafe(env: Env, m: State)
    requires m.Ok() && m.offset + 16 <= |m.buf.mem|
    ensures var r := ExecEmptyInterface(env, m); r.Next? && r.m.exprType == m.exprType
    ensures var r := ExecInterface(env, m); r.Next? && r.m.exprType == m.exprType
  {
    hide Bytes.Read64, Wrap32, Work.Push, Bytes.Le64, LoadType;
    MachineFrame.LoadTypeIsLocal(env, m.buf, m.offset);
  }

  /** What one more instruction does. */
  ghost predicate Goes(r: Outcome, mode: Mode, loaded: nat) {
    && !r.Crash?
    && (r.Next? && !mode.Ready? ==> r.m.exprType.Frame?)
    && (r.Next? && mode.Open? ==> r.m.offset + loaded <= r.m.buf.len)
  }

  lemma FillIsSafe(m: State, k: u32)
    requires m.Ok() && m.offset + k <= |m.buf.mem|
    ensures var r := ExecZeroFill(m, k); r.Next? && r.m.exprType == m.exprType
  {
    hide Buf.Zero, Wrap32;
  }

  lemma BitIsSafe(m: State, n: u32, b: u32)
    requires m.Ok() && b / 8 < n && m.resultsOffset + n <= |m.buf.mem|
    ensures var r := ExecPresenceBit(m, b);
            r.Next? && r.m.exprType == m.exprType && r.m.offset == m.offset && r.m.buf.len == m.buf.len
  {
    WrapSmall(m.resultsOffset + b / 8);
    hide SetBit, Wrap32;
  }

  lemma ConcludeIsSafe(m: State)
    requires m.Ok() && m.frameHeader.Some? && m.frameHeader.value + 4 <= |m.buf.mem|
    ensures ExecConcludeFrame(m).Next?
  {
  }

  lemma ExprIsSafe(m: State)
    requires m.Ok() && m.exprType.Frame?
    ensures var r := ExecPrepareExpr(m); r.Next? && r.m.exprType.Frame? && r.m.offset == r.m.buf.len
  {
  }

  lemma OpenIsSafe(base: seq<u8>, env: Env, depth: u32, m: State, op: Op, l: Layout, mode: Mode, loaded: nat)
    requires mode.Open? && Section(base, m, l, true) && SafeState(m, l, true, mode, loaded)
    requires SafeAfter(env, mode, loaded, op).Some? && !op.Nothing?
    ensures var (mode', loaded') := SafeAfter(env, mode, loaded, op).value;
            IsData(op) && Goes(ExecData(env, depth, m, op), mode', loaded')
  {
    hide Section, ExecDereferenceCFA, ExecCopyRegister, ExecSaveResult, ExecPresenceBit, FrameOpen, Layout.End;
    FrameIsInside(base, m, l, true, mode.n);
    if op.DereferenceCFAOffset? {
      LoadIsSafe(env, m, op.offset, op.byteLen, op.pointerBias);
    } else if op.CopyFromRegister? {
      RegisterIsSafe(m, op.byteSize);
    } else if op.SaveExprResult? {
      SaveIsSafe(m, op.resultOffset, op.byteLen);
    } else {
      BitIsSafe(m, mode.n, op.bitOffset);
    }
  }

  lemma IdleIsSafe(base: seq<u8>, env: Env, depth: u32, m: State, op: Op, l: Layout, mode: Mode, loaded: nat)
    requires mode.Idle? && Section(base, m, l, false) && SafeState(m, l, false, mode, loaded)
    requires SafeAfter(env, mode, loaded, op).Some? && IsData(op)
    ensures var (mode', loaded') := SafeAfter(env, mode, loaded, op).value;
            Goes(ExecData(env, depth, m, op), mode', loaded')
  {
    hide Section, ExecDereferenceCFA, ExecCopyRegister, ExecPrepareExpr, ExecPresenceBit, ExecZeroFill,
         ExecConcludeFrame, FrameOpen, Layout.End;
    SectionOk(base, m, l, false);
    FrameIsInside(base, m, l, false, mode.n);
    if op.DereferenceCFAOffset? {
      LoadIsSafe(env, m, op.offset, op.byteLen, op.pointerBias);
    } else if op.CopyFromRegister? {
      RegisterIsSafe(m, op.byteSize);
    } else if op.ZeroFill? {
      FillIsSafe(m, op.byteLen);
    } else if op.PrepareExprEval? {
      ExprIsSafe(m);
    } else if op.ConcludeFrameData? {
      ConcludeIsSafe(m);
    } else {
      BitIsSafe(m, mode.n, op.bitOffset);
    }
  }

  lemma EnqueueIsSafe(base: seq<u8>, env: Env, m: State, op: Op, l: Layout, open: bool, mode: Mode, loaded: nat)
    requires Section(base, m, l, open) && SafeState(m, l, open, mode, loaded)
    requires SafeAfter(env, mode, loaded, op).Some? && IsEnqueue(op)
    ensures var (mode', loaded') := SafeAfter(env, mode, loaded, op).value;
            Goes(ExecEnqueue(env, m, op), mode', loaded')
  {
    hide Section, ExecEnqueue, FrameOpen, Layout.End;
    SectionOk(base, m, l, open);
    FrameIsInside(base, m, l, open, mode.n);
    ReadIsSafe(env, m, op);
  }

  lemma ControlIsSafe(env: Env, m: State, op: Op, l: Layout, open: bool, mode: Mode, loaded: nat)
    requires m.Ok() && SafeState(m, l, open, mode, loaded) && SafeAfter(env, mode, loaded, op).Some? && IsControl(op)
    ensures var (mode', loaded') := SafeAfter(env, mode, loaded, op).value;
            Goes(ExecControl(env, m, op), mode', loaded')
  {
    hide FrameOpen, Layout.End, Wrap32;
  }

  /** An instruction that the stricter discipline allows does not fault. */
  lemma AllowedIsSafe(base: seq<u8>, env: Env, depth: u32, m: State, op: Op, l: Layout, open: bool, mode: Mode,
                      loaded: nat)
    requires Section(base, m, l, open) && SafeState(m, l, open, mode, loaded) && SafeAfter(env, mode, loaded, op).Some?
    ensures m.Ok()
    ensures var (mode', loaded') := SafeAfter(env, mode, loaded, op).value;
            Goes(Exec(env, depth, m, op), mode', loaded')
  {
    SectionOk(base, m, l, open);
    hide Section, SafeState, ExecControl, ExecEnqueue, ExecData, Goes;
    ModesFit(m, l, open, mode, loaded);
    if IsControl(op) {
      ControlIsSafe(env, m, op, l, open, mode, loaded);
    } else if IsEnqueue(op) {
      EnqueueIsSafe(base, env, m, op, l, open, mode, loaded);
    } else {
      hide Exec;
      assert IsData(op);
      assert Exec(env, depth, m, op) == ExecData(env, depth, m, op) by { DataStep(env, depth, m, op); }
      if mode.Open? {
        OpenIsSafe(base, env, depth, m, op, l, mode, loaded);
      } else if mode.Idle? {
        IdleIsSafe(base, env, depth, m, op, l, mode, loaded);
      } else {
        FrameStarts(env, depth, m, op, mode, loaded);
      }
    }
  }

  lemma DataStep(env: Env, depth: u32, m: State, op: Op)
    requires m.Ok() && IsData(op) && !IsControl(op) && !IsEnqueue(op)
    ensures Exec(env, depth, m, op) == ExecData(env, depth, m, op)
  {
    hide ExecControl, ExecEnqueue, ExecData, ExecGoContext, IsControl, IsEnqueue, IsData;
  }

  lemma ModesFit(m: State, l: Layout, open: bool, mode: Mode, loaded: nat)
    requires SafeState(m, l, open, mode, loaded)
    ensures open <==> mode.Open?
  {
  }

  lemma FrameStarts(env: Env, depth: u32, m: State, op: Op, mode: Mode, loaded: nat)
    requires m.Ok() && mode.Ready? && SafeAfter(env, mode, loaded, op).Some? && IsData(op)
    ensures var (mode', loaded') := SafeAfter(env, mode, loaded, op).value;
            Goes(ExecData(env, depth, m, op), mode', loaded')
  {
    hide ExecPrepareFrame;
    PrepareIsSafe(depth, m, op.progID, op.dataByteLen, op.typeID);
  }

  // ---------------------------------------------------------------------------------------
  // Safe straight-line programs

  ghost predicate SafeStraight(env: Env, mode: Mode, loaded: nat, ops: seq<Op>)
    decreases |ops|
  {
    ops != [] &&
    if ops[0].Return? then mode.Ready? && |ops| == 1
    else
      && SafeAfter(env, mode, loaded, ops[0]).Some?
      && var (mode', loaded') := SafeAfter(env, mode, loaded, ops[0]).value;
         SafeStraight(env, mode', loaded', ops[1..])
  }

  lemma SafeIsPlain(env: Env, mode: Mode, loaded: nat, op: Op)
    requires SafeAfter(env, mode, loaded, op).Some?
    ensures Plain(op) && After(env, mode, op) == Some(SafeAfter(env, mode, loaded, op).value.0)
  {
  }

  lemma {:induction false} SafeIsStraight(env: Env, mode: Mode, loaded: nat, ops: seq<Op>)
    requires SafeStraight(env, mode, loaded, ops)
    ensures Straight(env, mode, ops)
    decreases |ops|
  {
    hide SafeAfter, After;
    if !ops[0].Return? {
      SafeIsPlain(env, mode, loaded, ops[0]);
      var (mode', loaded') := SafeAfter(env, mode, loaded, ops[0]).value;
      SafeIsStraight(env, mode', loaded', ops[1..]);
    }
  }

  lemma SafeIgnoresPc(m: State, l: Layout, open: bool, mode: Mode, loaded: nat, pc: u32)
    ensures SafeState(m, l, open, mode, loaded) == SafeState(m.(pc := pc), l, open, mode, loaded)
  {
    hide InMode;
    TypedRuns.ModeIgnoresPc(m, l, open, mode, pc);
  }

  /** One instruction of a safe program. */
  lemma SafeStep(base: seq<u8>, env: Env, depth: u32, m: State, op: Op, l: Layout, open: bool, mode: Mode, loaded: nat)
    requires Section(base, m, l, open) && SafeState(m, l, open, mode, loaded) && SafeAfter(env, mode, loaded, op).Some?
    ensures m.Ok() && !Exec(env, depth, m, op).Crash?
    ensures var r := Exec(env, depth, m, op);
            var (mode', loaded') := SafeAfter(env, mode, loaded, op).value;
            && (r.Next? ==>
                  var l', open' := LayoutAfter(env, m, op, r.m, l), OpenAfter(env, m, op, open);
                  Section(base, r.m, l', open') && SafeState(r.m, l', open', mode', loaded') && r.m.stack == m.stack)
  {
    hide Section, InMode, SafeAfter, After, Exec, Orderly, LayoutAfter, OpenAfter;
    AllowedIsSafe(base, env, depth, m, op, l, open, mode, loaded);
    SafeIsPlain(env, mode, loaded, op);
    AllowedIsOrderly(base, env, m, op, l, open, mode);
    NotRefused(env, m, op);
    TypedRuns.StepIsLaidOut(base, env, depth, m, op, l, open);
    AllowedKeepsMode(base, env, depth, m, op, l, open, mode);
    PlainEffects(env, depth, m, op);
  }

  /** Run from an empty stack, a safe straight-line program does not fault, whatever the memory holds. */
  lemma {:induction false} SafeRuns(base: seq<u8>, env: Env, depth: u32, m: State, l: Layout, open: bool, mode: Mode,
                                    loaded: nat, ops: seq<Op>, fuel: nat)
    requires Section(base, m, l, open) && SafeState(m, l, open, mode, loaded) && m.stack == []
    requires SafeStraight(env, mode, loaded, ops) && Follows(env.prog, m.pc, ops) && |ops| <= fuel
    ensures m.Ok() && !Iterate(env, depth, m, fuel).Crash?
    decreases |ops|
  {
    hide Decode, Follows, Exec, SafeState, Section, SafeAfter, LayoutAfter, OpenAfter, LaidOut, Iterate;
    SectionOk(base, m, l, open);
    FetchedIs(env, m, ops);
    var m1, op := Fetched(env, m), ops[0];
    SafeIgnoresPc(m, l, open, mode, loaded, m1.pc);
    SectionIgnoresPc(base, m, l, open, m1.pc);
    StepIs(env, depth, m, ops);
    hide Fetched;
    IterateOnce(env, depth, m, fuel);
    if op.Return? {
      ReturnEnds(env, depth, m1);
    } else {
      SafeStep(base, env, depth, m1, op, l, open, mode, loaded);
      var r := Exec(env, depth, m1, op);
      if r.Next? {
        var (mode', loaded') := SafeAfter(env, mode, loaded, op).value;
        GoesOn(env, depth, m, m1, r.m, ops, mode, loaded);
        SafeRuns(base, env, depth, r.m, LayoutAfter(env, m1, op, r.m, l), OpenAfter(env, m1, op, open), mode', loaded',
                 ops[1..], fuel - 1);
      }
    }
  }

  lemma SectionIgnoresPc(base: seq<u8>, m: State, l: Layout, open: bool, pc: u32)
    ensures Section(base, m, l, open) == Section(base, m.(pc := pc), l, open)
  {
    hide LaidOut;
  }

  lemma StepIs(env: Env, depth: u32, m: State, ops: seq<Op>)
    requires m.Ok() && ops != [] && Follows(env.prog, m.pc, ops)
    ensures Fetched(env, m).Ok() && Step(env, depth, m) == Exec(env, depth, Fetched(env, m), ops[0])
  {
    hide Exec, Decode;
  }

  lemma GoesOn(env: Env, depth: u32, m: State, m1: State, m': State, ops: seq<Op>, mode: Mode, loaded: nat)
    requires m.Ok() && m1.Ok() && ops != [] && SafeAfter(env, mode, loaded, ops[0]).Some?
    requires Follows(env.prog, m1.pc, ops[1..]) && Exec(env, depth, m1, ops[0]) == Next(m')
    ensures Follows(env.prog, m'.pc, ops[1..])
  {
    hide Exec, Follows, SafeAfter;
    SafeIsPlain(env, mode, loaded, ops[0]);
    FollowsOn(env, depth, m, m1, m', ops);
  }

  // ---------------------------------------------------------------------------------------
  // Frames with slots

  lemma OneMoreSafe(env: Env, mode: Mode, loaded: nat, op: Op, rest: seq<Op>)
    requires SafeAfter(env, mode, loaded, op).Some? && !op.Return?
    requires var (mode', loaded') := SafeAfter(env, mode, loaded, op).value; SafeStraight(env, mode', loaded', rest)
    ensures SafeStraight(env, mode, loaded, [op] + rest)
  {
    hide SafeAfter;
    assert ([op] + rest)[1..] == rest;
  }

  lemma SlotSteps(env: Env, n: u32, at: Option<nat>, s: FrameSlot)
    requires s.In(n)
    ensures SafeAfter(env, Idle(n, at), 0, PrepareExprEval) == Some((Open(n), 0))
    ensures SafeAfter(env, Open(n), 0, DereferenceCFAOffset(s.c, s.k, s.bias)) == Some((Open(n), s.k as nat))
    ensures SafeAfter(env, Open(n), s.k, SaveExprResult(s.o, s.k)) == Some((Idle(n, Some(s.o)), 0))
    ensures SafeAfter(env, Idle(n, Some(s.o)), 0, SetPresenceBit(s.bit)) == Some((Idle(n, Some(s.o)), 0))
    ensures s.pointee != 0 ==>
              SafeAfter(env, Idle(n, Some(s.o)), 0, EnqueuePointer(s.pointee)) == Some((Idle(n, Some(s.o)), 0))
  {
  }

  lemma SlotIsSafe(env: Env, n: u32, at: Option<nat>, s: FrameSlot, rest: seq<Op>)
    requires s.In(n) && SafeStraight(env, Idle(n, Some(s.o)), 0, rest)
    ensures SafeStraight(env, Idle(n, at), 0, s.Ops() + rest)
  {
    hide SafeStraight, SafeAfter;
    SlotSteps(env, n, at, s);
    var bit, save := SetPresenceBit(s.bit), SaveExprResult(s.o, s.k);
    var load := DereferenceCFAOffset(s.c, s.k, s.bias);
    var tail := rest;
    if s.pointee != 0 {
      OneMoreSafe(env, Idle(n, Some(s.o)), 0, EnqueuePointer(s.pointee), rest);
      tail := [EnqueuePointer(s.pointee)] + rest;
    }
    OneMoreSafe(env, Idle(n, Some(s.o)), 0, bit, tail);
    OneMoreSafe(env, Open(n), s.k, save, [bit] + tail);
    OneMoreSafe(env, Open(n), 0, load, [save] + ([bit] + tail));
    OneMoreSafe(env, Idle(n, at), 0, PrepareExprEval, [load] + ([save] + ([bit] + tail)));
    assert s.Ops() + rest == [PrepareExprEval] + ([load] + ([save] + ([bit] + tail)));
  }

  lemma {:induction false} SlotsAreSafe(env: Env, n: u32, at: Option<nat>, slots: seq<FrameSlot>)
    requires forall s :: s in slots ==> s.In(n)
    ensures SafeStraight(env, Idle(n, at), 0, SlotOps(slots))
    decreases |slots|
  {
    if slots == [] {
      OneMoreSafe(env, Idle(n, at), 0, ConcludeFrameData, [Return]);
    } else {
      hide SafeStraight, FrameSlot.Ops;
      assert slots[0] in slots;
      SlotsAreSafe(env, n, Some(slots[0].o), slots[1..]);
      SlotIsSafe(env, n, at, slots[0], SlotOps(slots[1..]));
    }
  }

  /** A frame with any list of slots in it never faults. */
  lemma FrameIsSafe(env: Env, prog: u32, n: u32, typ: u32, slots: seq<FrameSlot>)
    requires n < 0x3fff_fff0 && forall s :: s in slots ==> s.In(n)
    ensures SafeStraight(env, Ready, 0, [PrepareFrameData(prog, n, typ)] + SlotOps(slots))
  {
    SlotsAreSafe(env, n, Some(0), slots);
    OneMoreSafe(env, Ready, 0, PrepareFrameData(prog, n, typ), SlotOps(slots));
  }
}
