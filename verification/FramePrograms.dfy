/** Straight-line frame programs: any number of expressions, presence bits and enqueued references, in
  * any order. They are contained wherever their data is read from, so the whole-output theorems apply
  * to them without assumptions about their runs. */
module FramePrograms {
  import opened Words
  import opened Bytes
  import opened Wrappers
  import opened Worklist
  import opened Buffer
  import opened BufferFacts
  import opened Machine
  import opened Runs
  import opened Alignment
  import opened FramedRun
  import opened Containment
  import opened Accounting
  import opened Snapshots
  import opened Unwinding
  import opened FrameTypes
  import Records
  import MachineFrame
  import WholeOutput
  import TypedRuns
  import Murmur
  import opened D = Decoder

  /** The instructions ops, one behind the other, from pc on. */
  predicate Follows(prog: Program, pc: nat, ops: seq<Op>)
    decreases |ops|
  {
    ops == [] ||
    match Decode(prog, pc)
    case None => false
    case Some((op, next)) => op == ops[0] && Follows(prog, next, ops[1..])
  }

  /** Encoded instructions follow each other. */
  lemma {:induction false} EncodedFollow(before: seq<u8>, ops: seq<Op>, after: seq<u8>)
    requires forall op :: op in ops ==> Encodable(op)
    requires |before + EncodeAll(ops) + after| < 0x8000_0000
    ensures Follows(before + EncodeAll(ops) + after, |before|, ops)
    decreases |ops|
  {
    hide Decode, Encode, Encodable;
    if ops != [] {
      var rest := EncodeAll(ops[1..]) + after;
      var prog := before + EncodeAll(ops) + after;
      assert prog == before + Encode(ops[0]) + rest;
      DecodeOfEncode(before, ops[0], rest);
      assert prog == (before + Encode(ops[0])) + EncodeAll(ops[1..]) + after;
      EncodedFollow(before + Encode(ops[0]), ops[1..], after);
    }
  }

  /** An instruction that is orderly and writes no entry, followed by a contained run. */
  lemma ContainedStep(env: Env, depth: u32, m: State, ops: seq<Op>, l: Layout, open: bool, fuel: nat)
    requires m.Ok() && ops != [] && Follows(env.prog, m.pc, ops) && fuel > 0
    requires Orderly(env, Fetched(env, m), ops[0], l, open) && !WritesEntry(ops[0])
    requires var r := Exec(env, depth, Fetched(env, m), ops[0]);
             r.Next? ==> Contained(env, depth, r.m, LayoutAfter(env, Fetched(env, m), ops[0], r.m, l),
                                   OpenAfter(env, Fetched(env, m), ops[0], open), fuel - 1)
    ensures Contained(env, depth, m, l, open, fuel)
    ensures var r := Exec(env, depth, Fetched(env, m), ops[0]);
            && Iterate(env, depth, m, fuel) == (if r.Next? then Iterate(env, depth, r.m, fuel - 1) else r)
            && (r.Next? ==> FinalLayout(env, depth, m, l, open, fuel)
                            == FinalLayout(env, depth, r.m, LayoutAfter(env, Fetched(env, m), ops[0], r.m, l),
                                           OpenAfter(env, Fetched(env, m), ops[0], open), fuel - 1))
            && (r.Done? ==> FinalLayout(env, depth, m, l, open, fuel)
                            == (LayoutAfter(env, Fetched(env, m), ops[0], r.m, l),
                                OpenAfter(env, Fetched(env, m), ops[0], open)))
            && (r.Crash? ==> FinalLayout(env, depth, m, l, open, fuel) == (l, open))
  {
    hide Exec, Decode, Orderly, LayoutAfter, OpenAfter;
    StepExecutes(env, depth, m);
    assert !EntryRefused(env, Fetched(env, m), ops[0]);
    hide EntryRefused, Follows;
  }

  /** What is promised of the rest of a run: it is contained, and unless it overflows the output or
    * faults, it returns true with everything closed and nothing behind the last frame. */
  ghost predicate Closes(env: Env, depth: u32, m: State, l: Layout, open: bool, fuel: nat)
    requires m.Ok()
  {
    && Contained(env, depth, m, l, open, fuel)
    && var r := Iterate(env, depth, m, fuel);
       r.Done? && !r.m.buf.full ==>
         && r.ok && r.m.stack == []
         && var (l', open') := FinalLayout(env, depth, m, l, open, fuel);
            Complete(l', open') && l'.End() == r.m.buf.len
  }

  lemma FetchedIs(env: Env, m: State, ops: seq<Op>)
    requires ops != [] && Follows(env.prog, m.pc, ops)
    ensures Fetched(env, m) == m.(pc := Fetched(env, m).pc)
    ensures Follows(env.prog, Fetched(env, m).pc, ops[1..])
  {
    hide Decode;
  }

  lemma ReturnEnds(env: Env, depth: u32, m: State)
    requires m.Ok() && m.stack == []
    ensures Exec(env, depth, m, Return) == Done(true, m)
  {
  }

  lemma ReturnCloses(env: Env, depth: u32, m: State, l: Layout, open: bool, ops: seq<Op>, fuel: nat)
    requires m.Ok() && m.stack == [] && Follows(env.prog, m.pc, ops) && fuel > 0
    requires ops == [Return] && Complete(l, open) && l.End() == m.buf.len
    ensures Closes(env, depth, m, l, open, fuel)
  {
    hide Decode, Follows, Contained, Iterate, FinalLayout;
    FetchedIs(env, m, ops);
    hide Fetched;
    ContainedStep(env, depth, m, ops, l, open, fuel);
  }

  lemma ReadyIsComplete(base: seq<u8>, m: State, l: Layout, open: bool)
    requires Section(base, m, l, open) && InMode(m, l, open, Ready)
    ensures Complete(l, open) && l.End() == m.buf.len
  {
    hide LaidOut;
  }

  lemma NotRefused(env: Env, m: State, op: Op)
    requires m.Ok() && Plain(op)
    ensures !EntryRefused(env, m, op) && !WritesEntry(op) && !Transfers(op) && !op.DereferencePtr?
  {
    hide Exec;
  }

  lemma FollowsOn(env: Env, depth: u32, m: State, m1: State, m': State, ops: seq<Op>)
    requires m.Ok() && m1.Ok() && ops != [] && Plain(ops[0]) && Follows(env.prog, m1.pc, ops[1..])
    requires Exec(env, depth, m1, ops[0]) == Next(m')
    ensures Follows(env.prog, m'.pc, ops[1..])
  {
    hide Exec, Follows;
    NotRefused(env, m1, ops[0]);
    TypedRuns.FallsThrough(env, depth, m1, ops[0]);
  }

  /** An instruction that faults, or overflows the output. */
  lemma StopsEarly(env: Env, depth: u32, m: State, ops: seq<Op>, l: Layout, open: bool, fuel: nat)
    requires m.Ok() && ops != [] && Follows(env.prog, m.pc, ops) && fuel > 0
    requires Orderly(env, Fetched(env, m), ops[0], l, open) && !WritesEntry(ops[0])
    requires Fetched(env, m).Ok()
    requires var r := Exec(env, depth, Fetched(env, m), ops[0]); r.Crash? || (r.Done? && r.m.buf.full)
    ensures Closes(env, depth, m, l, open, fuel)
  {
    hide Exec, Decode, Orderly, LayoutAfter, OpenAfter, Contained, Iterate, FinalLayout, Fetched, Follows, Complete;
    ContainedStep(env, depth, m, ops, l, open, fuel);
  }

  /** A step before a run that closes. */
  lemma ClosesLater(env: Env, depth: u32, m: State, ops: seq<Op>, l: Layout, open: bool, m': State, l': Layout,
                    open': bool, fuel: nat)
    requires m.Ok() && m'.Ok() && ops != [] && Follows(env.prog, m.pc, ops) && fuel > 0
    requires Orderly(env, Fetched(env, m), ops[0], l, open) && !WritesEntry(ops[0])
    requires Fetched(env, m).Ok() && Exec(env, depth, Fetched(env, m), ops[0]) == Next(m')
    requires l' == LayoutAfter(env, Fetched(env, m), ops[0], m', l)
    requires open' == OpenAfter(env, Fetched(env, m), ops[0], open)
    requires Closes(env, depth, m', l', open', fuel - 1)
    ensures Closes(env, depth, m, l, open, fuel)
  {
    hide Exec, Decode, Orderly, LayoutAfter, OpenAfter, Contained, Iterate, FinalLayout, Fetched, Follows, Complete;
    ContainedStep(env, depth, m, ops, l, open, fuel);
  }

  // ---------------------------------------------------------------------------------------
  // Straight-line programs

  /** An instruction that goes on behind itself, leaves the stack alone and writes no entry. */
  predicate Plain(op: Op) {
    || op.AdvanceOffset? || op.Nothing?
    || op.EnqueueEmptyInterface? || op.EnqueueInterface? || op.EnqueueSliceHeader? || op.EnqueueStringHeader?
    || op.EnqueueSwissMap? || op.EnqueueSwissMapGroups? || (op.EnqueuePointer? && op.elemType != 0)
    || op.DereferenceCFAOffset? || op.CopyFromRegister? || op.PrepareExprEval? || op.SaveExprResult? || op.ZeroFill?
    || op.SetPresenceBit? || op.PrepareFrameData? || op.ConcludeFrameData?
  }

  /** Plain instructions that follow the frame discipline, and a return with every frame closed. */
  ghost predicate Straight(env: Env, mode: Mode, ops: seq<Op>)
    decreases |ops|
  {
    ops != [] &&
    if ops[0].Return? then mode.Ready? && |ops| == 1
    else
      && Plain(ops[0]) && After(env, mode, ops[0]).Some?
      && Straight(env, After(env, mode, ops[0]).value, ops[1..])
  }

  lemma PlainEffects(env: Env, depth: u32, m: State, op: Op)
    requires m.Ok() && Plain(op)
    ensures var r := Exec(env, depth, m, op);
            && (r.Next? ==> r.m.stack == m.stack)
            && (r.Done? ==> r.m.buf.full)
  {
    hide ExecControl, ExecEnqueue, ExecData;
    if IsControl(op) {
      assert Exec(env, depth, m, op) == ExecControl(env, m, op);
      SkippingGoesOn(env, m, op);
    } else if IsEnqueue(op) {
      assert Exec(env, depth, m, op) == ExecEnqueue(env, m, op);
      MachineFrame.EnqueueFrame(env, m, op);
      hide MachineFrame.WorkGrows;
      EnqueueGoesOn(env, m, op);
    } else {
      assert Exec(env, depth, m, op) == ExecData(env, depth, m, op);
      DataGoesOn(env, depth, m, op);
    }
  }

  lemma SkippingGoesOn(env: Env, m: State, op: Op)
    requires m.Ok() && (op.AdvanceOffset? || op.Nothing?)
    ensures var r := ExecControl(env, m, op); r.Next? && r.m.stack == m.stack
  {
  }

  lemma DataGoesOn(env: Env, depth: u32, m: State, op: Op)
    requires m.Ok() && Plain(op) && IsData(op)
    ensures var r := ExecData(env, depth, m, op);
            && (r.Next? ==> r.m.stack == m.stack)
            && (r.Done? ==> r.m.buf.full)
  {
    hide Read64, Read32, Wrap32, Wrap64, Buf.Zero, Buf.Dereference, Buf.PrepareFrame, Buf.FrameSafe, Le64, Buf.Copy,
         Buf.CopySafe, Buf.ConcludeFrame, SetBit;
    if op.PrepareFrameData? && m.buf.FrameSafe(op.dataByteLen) {
      FrameRefusal(m.buf, op.typeID, op.progID, op.dataByteLen, depth);
    }
  }

  lemma EnqueueGoesOn(env: Env, m: State, op: Op)
    requires m.Ok() && Plain(op) && IsEnqueue(op)
    ensures !ExecEnqueue(env, m, op).Done?
  {
    hide Read64, Wrap32, Work.Push, Le64, LoadType;
  }

  /** Run from an empty stack, a straight-line program is contained, whatever the memory holds; and if
    * the output does not overflow, it closes what it opens. */
  lemma {:induction false} StraightCloses(base: seq<u8>, env: Env, depth: u32, m: State, l: Layout, open: bool,
                                          mode: Mode, ops: seq<Op>, fuel: nat)
    requires Section(base, m, l, open) && InMode(m, l, open, mode) && m.stack == []
    requires Straight(env, mode, ops) && Follows(env.prog, m.pc, ops) && |ops| <= fuel
    ensures m.Ok() && Closes(env, depth, m, l, open, fuel)
    decreases |ops|
  {
    hide Decode, Follows, Contained, Iterate, FinalLayout, InMode, Exec, Orderly, LayoutAfter, OpenAfter, LaidOut,
         After, Closes;
    SectionOk(base, m, l, open);
    FetchedIs(env, m, ops);
    var m1 := Fetched(env, m);
    TypedRuns.ModeIgnoresPc(m, l, open, mode, m1.pc);
    assert Section(base, m1, l, open);
    hide Fetched;
    if ops[0].Return? {
      ReturnCloses(env, depth, m, l, open, ops, fuel) by { ReadyIsComplete(base, m, l, open); }
    } else {
      var op := ops[0];
      AllowedIsOrderly(base, env, m1, op, l, open, mode);
      NotRefused(env, m1, op);
      TypedRuns.StepIsLaidOut(base, env, depth, m1, op, l, open);
      AllowedKeepsMode(base, env, depth, m1, op, l, open, mode);
      PlainEffects(env, depth, m1, op);
      hide Section;
      var r := Exec(env, depth, m1, op);
      if r.Next? {
        var l', open' := LayoutAfter(env, m1, op, r.m, l), OpenAfter(env, m1, op, open);
        FollowsOn(env, depth, m, m1, r.m, ops);
        StraightCloses(base, env, depth, r.m, l', open', After(env, mode, op).value, ops[1..], fuel - 1);
        ClosesLater(env, depth, m, ops, l, open, r.m, l', open', fuel);
      } else {
        StopsEarly(env, depth, m, ops, l, open, fuel);
      }
    }
  }

  /** One slot of a frame: k bytes read relative to the frame base go to o, a bit says that they are
    * there, and the pointer in them, if it is one, is enqueued. */
  datatype FrameSlot = FrameSlot(c: u32, k: u32, bias: u32, o: u32, bit: u32, pointee: u32) {
    predicate In(n: u32) { o + k <= n && bit / 8 < n && Small(k) }

    function Ops(): seq<Op> {
      [PrepareExprEval, DereferenceCFAOffset(c, k, bias), SaveExprResult(o, k), SetPresenceBit(bit)]
      + if pointee == 0 then [] else [EnqueuePointer(pointee)]
    }
  }

  function SlotOps(slots: seq<FrameSlot>): seq<Op>
    decreases |slots|
  {
    if slots == [] then [ConcludeFrameData, Return] else slots[0].Ops() + SlotOps(slots[1..])
  }

  /** A frame with any list of slots is a straight-line program. */
  lemma FrameIsStraight(env: Env, prog: u32, n: u32, typ: u32, slots: seq<FrameSlot>)
    requires n < 0x3fff_fff0 && forall s :: s in slots ==> s.In(n)
    ensures Straight(env, Ready, [PrepareFrameData(prog, n, typ)] + SlotOps(slots))
  {
    var ops := [PrepareFrameData(prog, n, typ)] + SlotOps(slots);
    assert ops[1..] == SlotOps(slots);
    SlotsAreStraight(env, n, Some(0), slots);
  }

  lemma OneMore(env: Env, mode: Mode, op: Op, rest: seq<Op>)
    requires Plain(op) && After(env, mode, op).Some? && Straight(env, After(env, mode, op).value, rest)
    ensures Straight(env, mode, [op] + rest)
  {
    hide After;
    assert ([op] + rest)[1..] == rest;
  }

  lemma SlotModes(env: Env, n: u32, at: Option<nat>, s: FrameSlot)
    requires s.In(n)
    ensures After(env, Idle(n, at), PrepareExprEval) == Some(Open(n))
    ensures After(env, Open(n), DereferenceCFAOffset(s.c, s.k, s.bias)) == Some(Open(n))
    ensures After(env, Open(n), SaveExprResult(s.o, s.k)) == Some(Idle(n, Some(s.o)))
    ensures After(env, Idle(n, Some(s.o)), SetPresenceBit(s.bit)) == Some(Idle(n, Some(s.o)))
    ensures After(env, Idle(n, Some(s.o)), EnqueuePointer(s.pointee)) == Some(Idle(n, Some(s.o)))
    ensures After(env, Idle(n, at), ConcludeFrameData) == Some(Ready)
  {
  }

  lemma SlotIsStraight(env: Env, n: u32, at: Option<nat>, s: FrameSlot, rest: seq<Op>)
    requires s.In(n) && Straight(env, Idle(n, Some(s.o)), rest)
    ensures Straight(env, Idle(n, at), s.Ops() + rest)
  {
    hide Straight, After;
    SlotModes(env, n, at, s);
    var bit := SetPresenceBit(s.bit);
    var save := SaveExprResult(s.o, s.k);
    var load := DereferenceCFAOffset(s.c, s.k, s.bias);
    var tail := rest;
    if s.pointee != 0 {
      OneMore(env, Idle(n, Some(s.o)), EnqueuePointer(s.pointee), rest);
      tail := [EnqueuePointer(s.pointee)] + rest;
    }
    OneMore(env, Idle(n, Some(s.o)), bit, tail);
    OneMore(env, Open(n), save, [bit] + tail);
    OneMore(env, Open(n), load, [save] + ([bit] + tail));
    OneMore(env, Idle(n, at), PrepareExprEval, [load] + ([save] + ([bit] + tail)));
    assert s.Ops() + rest == [PrepareExprEval] + ([load] + ([save] + ([bit] + tail)));
  }

  lemma {:induction false} SlotsAreStraight(env: Env, n: u32, at: Option<nat>, slots: seq<FrameSlot>)
    requires forall s :: s in slots ==> s.In(n)
    ensures Straight(env, Idle(n, at), SlotOps(slots))
    decreases |slots|
  {
    if slots == [] {
      OneMore(env, Idle(n, at), ConcludeFrameData, [Return]);
    } else {
      hide Straight, FrameSlot.Ops;
      assert slots[0] in slots;
      SlotsAreStraight(env, n, Some(slots[0].o), slots[1..]);
      SlotIsStraight(env, n, at, slots[0], SlotOps(slots[1..]));
    }
  }

  // ---------------------------------------------------------------------------------------
  // Snapshots with such programs

  /** At the pc there is a straight-line program, or nothing. */
  ghost predicate IsFrameProgram(env: Env, pc: u32) {
    pc >= |env.prog| || exists ops :: StraightAt(env, pc, ops)
  }

  ghost predicate StraightAt(env: Env, pc: u32, ops: seq<Op>) {
    Straight(env, Ready, ops) && Follows(env.prog, pc, ops) && |ops| <= FUEL
  }

  ghost predicate AllFramePrograms(env: Env, frames: seq<FrameOfInterest>) {
    forall f :: f in frames ==> IsFrameProgram(env, f.pc)
  }

  /** One frame of a goroutine. */
  lemma FrameIsContained(base: seq<u8>, env: Env, depth: u32, m: State, pc: u32, cfa: u64, l: Layout)
    requires Section(base, m, l, false) && Complete(l, false) && m.stack == []
    requires pc < |env.prog| && IsFrameProgram(env, pc)
    ensures m.Ok()
    ensures var start := Starting(m, pc, cfa, m.buf.len);
            var r := Run(env, m, pc, cfa, depth, m.buf.len);
            && Contained(env, depth, start, l, false, FUEL)
            && (r.Done? && !r.m.buf.full ==>
                  && r.ok && r.m.stack == []
                  && var (l', open') := FinalLayout(env, depth, start, l, false, FUEL);
                     Complete(l', open') && Section(base, r.m, l', open'))
  {
    hide Follows, Iterate, FinalLayout, LaidOut, Straight, OrderlyRun, Unrefused;
    var ops :| StraightAt(env, pc, ops);
    var start := Starting(m, pc, cfa, m.buf.len);
    assert Section(base, start, l, false);
    StraightCloses(base, env, depth, start, l, false, Ready, ops, FUEL);
    hide Section;
    RunKeeps(base, env, depth, m, pc, cfa, m.buf.len, l, false);
  }

  /** All frames of a goroutine. */
  lemma {:induction false} FrameProgramsAreContained(base: seq<u8>, env: Env, m: State, cfas: seq<u64>,
                                                     frames: seq<FrameOfInterest>, l: Layout)
    requires Section(base, m, l, false) && Complete(l, false) && m.stack == []
    requires AllFramePrograms(env, frames)
    ensures m.Ok() && FramesContained(env, m, cfas, frames, l, false, true)
    ensures var r := RunFrames(env, m, cfas, frames); r.Done? && !r.m.buf.full ==> r.m.stack == []
    decreases |frames|
  {
    hide Contained, Run, FinalLayout, Complete, IsFrameProgram, Section;
    SectionOk(base, m, l, false);
    if frames != [] {
      var foi, rest := frames[|frames| - 1], frames[..|frames| - 1];
      assert foi in frames && AllFramePrograms(env, rest);
      if foi.idx < |cfas| && foi.pc < |env.prog| {
        FrameIsContained(base, env, foi.idx, m, foi.pc, cfas[foi.idx], l);
        var r := Run(env, m, foi.pc, cfas[foi.idx], foi.idx, m.buf.len);
        if r.Done? && !r.m.buf.full {
          var (l', open') := FinalLayout(env, foi.idx, Starting(m, foi.pc, cfas[foi.idx], m.buf.len), l, false, FUEL);
          assert !open' by { CompleteIsClosed(l', open'); }
          FrameProgramsAreContained(base, env, r.m, cfas, rest, l');
        } else if r.Done? && r.ok {
          FullStays(env, r.m, cfas, rest);
        }
      } else if foi.idx < |cfas| {
        RunNowhere(env, m, foi.pc, cfas[foi.idx], foi.idx, m.buf.len);
      }
    }
  }

  lemma CompleteIsClosed(l: Layout, open: bool)
    requires Complete(l, open)
    ensures !open
  {
  }

  lemma FullStays(env: Env, m: State, cfas: seq<u64>, frames: seq<FrameOfInterest>)
    requires m.Ok() && m.buf.full
    ensures var r := RunFrames(env, m, cfas, frames); r.Done? ==> r.m.buf.full
  {
    FramesAreMonotone(env, m, cfas, frames);
    hide RunFrames, MachineFrame.WorkGrows;
  }

  /** All programs that the classifier knows are such programs. */
  ghost predicate OnlyFramePrograms(cfg: Config) {
    forall pc :: pc in cfg.classifier.progPc && pc != 0 ==> IsFrameProgram(cfg.env, pc)
  }

  ghost predicate FrameShot(cfg: Config, s: Shot) {
    && s.Ok()
    && (!s.m.buf.full ==> s.m.stack == [] && forall h :: h in s.stacks ==> AllFramePrograms(cfg.env, s.stacks[h]))
  }

  lemma InterestingAreFramePrograms(cfg: Config, pcs: seq<u64>)
    requires OnlyFramePrograms(cfg) && |pcs| <= MAX_FRAMES
    ensures AllFramePrograms(cfg.env, Interesting(cfg.classifier, pcs, 0))
  {
    hide IsFrameProgram, Search;
    InterestingIff(cfg.classifier, pcs, 0);
    hide Interesting;
    forall f | f in Interesting(cfg.classifier, pcs, 0) ensures IsFrameProgram(cfg.env, f.pc) {
      assert f == FrameOfInterest(f.idx, f.pc);
    }
  }

  /** The data of a goroutine. */
  lemma DataIsContained(cfg: Config, s: Shot, g: Goroutine, stack: Stack, hash: u64, start: nat, stackBytes: u32,
                        frames: seq<FrameOfInterest>)
    requires FrameShot(cfg, s) && !s.m.buf.full && s.m.buf.InRange(start, GOROUTINE_HEADER)
    requires AllFramePrograms(cfg.env, frames)
    ensures DataContained(cfg, s, stack.cfas, frames, true)
    ensures var t := WriteData(cfg, s, g, stack, hash, start, stackBytes, frames); t.Taken? ==> FrameShot(cfg, t.s)
  {
    hide RunFrames, FramesContained, Records.RecordBytes, AllFramePrograms;
    NothingIsASection(s.m);
    FrameProgramsAreContained(s.m.buf.mem, cfg.env, s.m, stack.cfas, frames, NothingSince(s.m.buf.len));
  }

  lemma StackIsContained(cfg: Config, s: Shot, g: Goroutine, stack: Stack, hash: u64, start: nat)
    requires OnlyFramePrograms(cfg) && FrameShot(cfg, s) && !s.m.buf.full && s.m.buf.InRange(start, GOROUTINE_HEADER)
    requires |stack.pcs| <= MAX_FRAMES
    ensures var (b, ok) := WriteStack(s.m.buf, stack.pcs);
            ok ==> DataContained(cfg, WithBuf(s, b), stack.cfas, Interesting(cfg.classifier, stack.pcs, 0), true)
    ensures var t := WriteWithStack(cfg, s, g, stack, hash, start); t.Taken? ==> FrameShot(cfg, t.s)
  {
    hide WriteData, DataContained, Interesting, Records.StackBytes, AllFramePrograms, Splice, Wrap32, OnlyFramePrograms;
    InterestingAreFramePrograms(cfg, stack.pcs);
    var (b, ok) := WriteStack(s.m.buf, stack.pcs);
    if ok {
      var frames := Interesting(cfg.classifier, stack.pcs, 0);
      var s1 := WithBuf(s, b).(stacks := s.stacks[hash := frames]);
      DataIsContained(cfg, s1, g, stack, hash, start, 8 * |stack.pcs|, frames);
      SameContainment(cfg, WithBuf(s, b), s1, stack.cfas, frames, true);
    }
  }

  /** One goroutine. */
  lemma GoroutineIsContained(cfg: Config, s: Shot, g: Goroutine)
    requires OnlyFramePrograms(cfg) && FrameShot(cfg, s)
    ensures GoroutineContained(cfg, s, g, true)
    ensures var t := TakeWhole(cfg, s, g); t.Taken? ==> FrameShot(cfg, t.s)
  {
    hide WriteData, WriteWithStack, DataContained, Interesting, AllFramePrograms, OnlyFramePrograms, Unwind,
         Murmur.Hash, Snapshots.WriteStack, Wrap32, Le32, Read32, Splice;
    if !s.m.buf.full && Live(g) {
      var s1 := WithBuf(s, Bump(s.m.buf, NUM_GOROUTINES));
      var stack := Unwind(cfg.env.memory, cfg.textBase, g.pc, g.bp, g.stackTop);
      var hash, start := Murmur.Hash(stack.pcs, 0), s.m.buf.len;
      WrapSmall(start + GOROUTINE_HEADER);
      var (b, ok) := s1.m.buf.EnsureLen(Wrap32(start + GOROUTINE_HEADER));
      if ok {
        if hash in s.stacks {
          DataIsContained(cfg, WithBuf(s1, b), g, stack, hash, start, 0, s.stacks[hash]);
          SameContainment(cfg, WithBuf(s1, b), WithBuf(s, b), stack.cfas, s.stacks[hash], true);
        } else {
          StackIsContained(cfg, WithBuf(s1, b), g, stack, hash, start);
        }
      }
    }
  }

  /** Whatever the goroutines and the memory, a snapshot whose frame programs are of this form is
    * contained: its goroutine section adds up without any further assumption. */
  lemma {:induction false} SnapshotIsContained(cfg: Config, s: Shot, gs: seq<Goroutine>)
    requires OnlyFramePrograms(cfg) && FrameShot(cfg, s)
    ensures GoroutinesContained(cfg, s, gs, true)
    decreases |gs|
  {
    hide GoroutineContained, TakeWhole, OnlyFramePrograms;
    if gs != [] {
      GoroutineIsContained(cfg, s, gs[0]);
      var t := TakeWhole(cfg, s, gs[0]);
      if t.Taken? { SnapshotIsContained(cfg, t.s, gs[1..]); }
    }
  }

  lemma StartIsFrameShot(cfg: Config, capacity: nat)
    requires SNAPSHOT_HEADER <= capacity < 0x8000_0000
    ensures FrameShot(cfg, StartShot(cfg, capacity))
  {
    hide PushAll, Shifted, Zeros;
  }

  /** So the goroutine section of such a snapshot always adds up, with every record's data a sequence
    * of frames. */
  lemma FrameProgramsAddUp(cfg: Config, capacity: nat, gs: seq<Goroutine>) returns (rs: seq<Records.Record>, n: nat)
    requires OnlyFramePrograms(cfg) && SNAPSHOT_HEADER <= capacity < 0x8000_0000
    ensures n <= |gs|
    ensures var t := TakeGoroutines(cfg, StartShot(cfg, capacity), gs);
            t.Taken? ==>
              && Accounted(t.s, rs, true) && RecordsOf(cfg, rs, LiveOnes(gs[..n]))
              && (!t.s.m.buf.full ==> n == |gs|)
  {
    hide StartShot, FrameShot, OnlyFramePrograms, GoroutinesContained, TakeGoroutines, Accounted, RecordsOf;
    StartIsFrameShot(cfg, capacity);
    SnapshotIsContained(cfg, StartShot(cfg, capacity), gs);
    WholeOutput.StartIsAccounted(cfg, capacity, true);
    rs, n := GoroutinesAreAccounted(cfg, StartShot(cfg, capacity), gs, [], true);
    assert [] + rs == rs;
  }
}
