/** Programs with loops, subroutines and pointers that follow the frame discipline along every edge:
  * their runs are contained exactly when they are refused no entry. */
module TypedRuns {
  import opened Words
  import opened Bytes
  import opened Wrappers
  import opened Worklist
  import opened Buffer
  import opened Machine
  import opened MachineFrame
  import opened Runs
  import opened Alignment
  import opened Framing
  import opened FramedRun
  import opened Containment
  import opened Accounting
  import opened FrameTypes
  import S = StackShape
  import opened D = Decoder

  /** The mode of an instruction, and whether it belongs to a subroutine. */
  datatype Typing = Typing(mode: Mode, sub: bool)

  type Typings = map<nat, Typing>

  /** Knowing less about the offset is allowed. */
  predicate Weaker(a: Mode, b: Mode) {
    a == b || (a.Idle? && b.Idle? && a.n == b.n && a.at.None?)
  }

  predicate Covers(ts: Typings, pc: nat, t: Typing) {
    pc in ts && ts[pc].sub == t.sub && Weaker(ts[pc].mode, t.mode)
  }

  /** A jump, call or return: outside the program it just ends the run. */
  predicate Enters(prog: Program, ts: Typings, pc: nat, t: Typing) {
    pc < |prog| ==> Covers(ts, pc, t)
  }

  /** The edges out of an instruction agree with the typing. Frames are opened and closed outside
    * subroutines; expressions that follow pointers are evaluated inside them, because a pointer that
    * cannot be read returns. */
  ghost predicate EdgesTyped(env: Env, ts: Typings, t: Typing, op: Op, next: nat) {
    match op
    case Invalid => true
    case Illegal => true
    case Return => if t.sub then t.mode.Idle? else t.mode.Ready?
    case Jump(p) => Enters(env.prog, ts, p, t)
    case CondJump(p) => Enters(env.prog, ts, p, t) && Covers(ts, next, t)
    case Call(p) =>
      && t.mode.Idle? && Enters(env.prog, ts, p, t.(sub := true))
      && Enters(env.prog, ts, next, t.(mode := Idle(t.mode.n, None)))
    case _ =>
      && After(env, t.mode, op).Some? && Covers(ts, next, t.(mode := After(env, t.mode, op).value))
      && (op.PrepareFrameData? || op.ConcludeFrameData? ==> !t.sub)
      && (op.DereferencePtr? ==> t.sub)
  }

  ghost predicate TypedAt(env: Env, ts: Typings, pc: nat)
    requires pc in ts
  {
    pc < |env.prog| &&
    match Decode(env.prog, pc)
    case None => false
    case Some((op, next)) => EdgesTyped(env, ts, ts[pc], op, next)
  }

  ghost predicate WellTyped(env: Env, ts: Typings) {
    forall pc :: pc in ts ==> TypedAt(env, ts, pc)
  }

  /** Every call in progress returns into the frame that is open. */
  ghost predicate CallsTyped(prog: Program, ts: Typings, l: Layout, calls: seq<S.Activation>) {
    calls == [] ||
    (&& l.header.Some? && l.entries != [] && 8 <= l.entries[0].len
     && forall i :: 0 <= i < |calls| ==>
          Enters(prog, ts, calls[i].ret, Typing(Idle(l.entries[0].len - 8, None), i > 0)))
  }

  ghost predicate TypedState(base: seq<u8>, env: Env, ann: S.Annotation, ts: Typings, m: State, l: Layout, open: bool,
                             calls: seq<S.Activation>) {
    && S.Inv(env, ann, m, calls)
    && Section(base, m, l, open)
    && m.pc in ts && InMode(m, l, open, ts[m.pc].mode)
    && (ts[m.pc].sub <==> calls != [])
    && CallsTyped(env.prog, ts, l, calls)
  }

  lemma WeakerHolds(m: State, l: Layout, open: bool, a: Mode, b: Mode)
    requires InMode(m, l, open, b) && Weaker(a, b)
    ensures InMode(m, l, open, a)
  {
    hide FrameOpen;
  }

  // ---------------------------------------------------------------------------------------
  // One instruction

  lemma InstructionIsOrderly(base: seq<u8>, env: Env, ts: Typings, m: State, op: Op, next: nat, l: Layout, open: bool,
                             t: Typing)
    requires Section(base, m, l, open) && InMode(m, l, open, t.mode) && EdgesTyped(env, ts, t, op, next)
    ensures Orderly(env, m, op, l, open)
  {
    hide Section, InMode, After;
    if !Transfers(op) {
      hide Orderly;
      AllowedIsOrderly(base, env, m, op, l, open, t.mode);
    }
  }

  /** An instruction that does not transfer control goes on behind itself, with the same stack height
    * of calls. */
  lemma FallsThrough(env: Env, depth: u32, m: State, op: Op)
    requires m.Ok() && !Transfers(op) && !(op.DereferencePtr? && PointerFails(env, m, op.bias, op.byteLen))
    ensures var r := Exec(env, depth, m, op);
            r.Next? ==> r.m.pc == m.pc && (op.DereferencePtr? ==> r.m.stack == m.stack)
    ensures var r := Exec(env, depth, m, op); r.Done? ==> !r.ok
  {
    hide ExecGoContext, ExecSubroutine, ExecHMapHeader, WorkGrows, ExecDereferencePtr, PointerFails;
    if IsControl(op) {
    } else if op.DereferencePtr? {
      PointerFallsThrough(env, depth, m, op);
    } else if op.EnqueueHMapHeader? {
      HMapFallsThrough(env, depth, m, op);
    } else {
      hide Exec;
      S.OtherKeeps(env, depth, m, op);
    }
  }

  lemma PointerFallsThrough(env: Env, depth: u32, m: State, op: Op)
    requires m.Ok() && op.DereferencePtr? && !PointerFails(env, m, op.bias, op.byteLen)
    ensures var r := Exec(env, depth, m, op); !r.Done? && (r.Next? ==> r.m.pc == m.pc && r.m.stack == m.stack)
  {
    hide Buf.WriteEntry, Buf.WriteEntrySafe, Read64, ExecReturn;
    DataIs(env, depth, m, op);
  }

  lemma HMapFallsThrough(env: Env, depth: u32, m: State, op: Op)
    requires m.Ok() && op.EnqueueHMapHeader?
    ensures var r := Exec(env, depth, m, op); !r.Done? && (r.Next? ==> r.m.pc == m.pc)
  {
    hide ExecHMapHeader, WorkGrows;
    HMapFrame(env, m, op.bucketsArrayType, op.bucketByteLen, op.flagsOffset, op.bOffset, op.bucketsOffset,
              op.oldBucketsOffset);
  }

  /** The frame's own entry stays the first. */
  lemma CallsStayTyped(env: Env, ts: Typings, m: State, op: Op, m': State, l: Layout, calls: seq<S.Activation>)
    requires CallsTyped(env.prog, ts, l, calls) && !op.PrepareFrameData? && !op.ConcludeFrameData?
    ensures CallsTyped(env.prog, ts, LayoutAfter(env, m, op, m', l), calls)
  {
    hide Read64, Readable, Covers;
    var l' := LayoutAfter(env, m, op, m', l);
    assert l'.header == l.header && l.entries <= l'.entries;
  }

  /** The parts of a typed state that the cases below need. */
  lemma TypedFacts(base: seq<u8>, env: Env, ann: S.Annotation, ts: Typings, m: State, l: Layout, open: bool,
                   calls: seq<S.Activation>) returns (op: Op)
    requires TypedState(base, env, ann, ts, m, l, open, calls) && WellTyped(env, ts)
    ensures m.Ok() && !m.buf.full && Current(env, m) == Some(op) && Fetched(env, m) == m.(pc := Fetched(env, m).pc)
    ensures Fetched(env, m).Ok() && Decode(env.prog, m.pc) == Some((op, Fetched(env, m).pc as nat))
    ensures Section(base, Fetched(env, m), l, open)
    ensures m.pc in ts && InMode(Fetched(env, m), l, open, ts[m.pc].mode)
    ensures m.pc in ts && EdgesTyped(env, ts, ts[m.pc], op, Fetched(env, m).pc)
  {
    hide Decode, InMode, S.Inv, EdgesTyped, LaidOut;
    assert TypedAt(env, ts, m.pc);
    op := Current(env, m).value;
    SectionOk(base, m, l, open);
    ModeIgnoresPc(m, l, open, ts[m.pc].mode, Fetched(env, m).pc);
  }

  lemma ModeIgnoresPc(m: State, l: Layout, open: bool, mode: Mode, pc: u32)
    ensures InMode(m, l, open, mode) == InMode(m.(pc := pc), l, open, mode)
  {
    hide FramesSize, EntriesSize;
  }

  /** The output after an instruction that is not refused an entry. */
  lemma StepIsLaidOut(base: seq<u8>, env: Env, depth: u32, m: State, op: Op, l: Layout, open: bool)
    requires Section(base, m, l, open) && Orderly(env, m, op, l, open) && !EntryRefused(env, m, op)
    ensures m.Ok()
    ensures var r := Exec(env, depth, m, op);
            && (r.Next? ==> !r.m.buf.full)
            && (!r.Crash? && !r.m.buf.full ==>
                  Section(base, r.m, LayoutAfter(env, m, op, r.m, l), OpenAfter(env, m, op, open)))
  {
    hide Exec, Orderly, OpenAfter, LayoutAfter, LaidOut, EntryRefused;
    SectionOk(base, m, l, open);
    OverflowIsClean(env, depth, m, op);
    SectionExec(base, env, depth, m, op, l, open);
  }

  lemma FallingIsTyped(base: seq<u8>, env: Env, depth: u32, ann: S.Annotation, ts: Typings, m: State, m': State, op: Op,
                       l: Layout, open: bool, calls: seq<S.Activation>)
    requires TypedState(base, env, ann, ts, m, l, open, calls) && WellTyped(env, ts) && S.Closed(env.prog, ann)
    requires m.Ok() && Fetched(env, m).Ok() && Current(env, m) == Some(op) && !EntryRefused(env, Fetched(env, m), op)
    requires !Transfers(op) && !(op.DereferencePtr? && PointerFails(env, Fetched(env, m), op.bias, op.byteLen))
    requires Step(env, depth, m) == Next(m')
    ensures var m1 := Fetched(env, m);
            TypedState(base, env, ann, ts, m', LayoutAfter(env, m1, op, m', l), OpenAfter(env, m1, op, open),
                       S.CallsAfter(env, ann, m, m', calls))
  {
    hide Decode, InMode, After, S.Shaped, PointerFails, EntryRefused, Exec, LayoutAfter, OpenAfter, Section,
         CallsTyped, Orderly, FrameOpen;
    var op' := TypedFacts(base, env, ann, ts, m, l, open, calls);
    var m1, t := Fetched(env, m), ts[m.pc];
    StepExecutes(env, depth, m);
    S.StepKeepsShape(env, ann, depth, m, calls);
    InstructionIsOrderly(base, env, ts, m1, op, m1.pc, l, open, t);
    StepIsLaidOut(base, env, depth, m1, op, l, open);
    AllowedKeepsMode(base, env, depth, m1, op, l, open, t.mode);
    FallsThrough(env, depth, m1, op);
    WeakerHolds(m', LayoutAfter(env, m1, op, m', l), OpenAfter(env, m1, op, open), ts[m'.pc].mode,
                After(env, t.mode, op).value);
    if op.PrepareFrameData? || op.ConcludeFrameData? {
      NoCalls(env.prog, ts, LayoutAfter(env, m1, op, m', l));
    } else {
      CallsStayTyped(env, ts, m1, op, m', l, calls);
    }
  }

  lemma NoCalls(prog: Program, ts: Typings, l: Layout)
    ensures CallsTyped(prog, ts, l, [])
  {
  }

  lemma JumpIsTyped(base: seq<u8>, env: Env, depth: u32, ann: S.Annotation, ts: Typings, m: State, m': State, op: Op,
                    l: Layout, open: bool, calls: seq<S.Activation>)
    requires TypedState(base, env, ann, ts, m, l, open, calls) && WellTyped(env, ts) && S.Closed(env.prog, ann)
    requires m.Ok() && Fetched(env, m).Ok() && Current(env, m) == Some(op)
    requires op.Jump? || op.CondJump? || op.Call?
    requires Step(env, depth, m) == Next(m')
    ensures var m1 := Fetched(env, m);
            TypedState(base, env, ann, ts, m', LayoutAfter(env, m1, op, m', l), OpenAfter(env, m1, op, open),
                       S.CallsAfter(env, ann, m, m', calls))
  {
    hide Decode, InMode, S.Shaped, LaidOut, FrameOpen;
    var op' := TypedFacts(base, env, ann, ts, m, l, open, calls);
    var m1, t := Fetched(env, m), ts[m.pc];
    StepExecutes(env, depth, m);
    S.StepKeepsShape(env, ann, depth, m, calls);
    JumpKeeps(env, depth, m1, op, m', l, open, t.mode);
    hide Exec;
    WeakerHolds(m', l, open, ts[m'.pc].mode, t.mode);
    if op.Call? { CallIsTyped(m1, env.prog, ts, l, open, calls, S.Activation(m1.pc, ann[m.pc]), t); }
  }

  lemma JumpKeeps(env: Env, depth: u32, m: State, op: Op, m': State, l: Layout, open: bool, mode: Mode)
    requires m.Ok() && (op.Jump? || op.CondJump? || op.Call?) && Exec(env, depth, m, op) == Next(m')
    ensures m' == m.(pc := m'.pc, stack := m'.stack)
    ensures m'.pc < |env.prog| || (op.CondJump? && m'.pc == m.pc)
    ensures op.Jump? || op.Call? ==> m'.pc == op.pc
    ensures op.CondJump? ==> m'.pc == op.pc || m'.pc == m.pc
    ensures InMode(m', l, open, mode) == InMode(m, l, open, mode)
  {
    hide FramesSize, EntriesSize;
  }

  lemma CallIsTyped(m: State, prog: Program, ts: Typings, l: Layout, open: bool, calls: seq<S.Activation>,
                    c: S.Activation, t: Typing)
    requires CallsTyped(prog, ts, l, calls) && t.mode.Idle? && InMode(m, l, open, t.mode)
    requires t.sub <==> calls != []
    requires Enters(prog, ts, c.ret, t.(mode := Idle(t.mode.n, None)))
    ensures CallsTyped(prog, ts, l, calls + [c])
  {
    hide Covers;
    assert l.entries[0].len - 8 == t.mode.n;
  }

  lemma ReturnIsTyped(base: seq<u8>, env: Env, depth: u32, ann: S.Annotation, ts: Typings, m: State, m': State, op: Op,
                      l: Layout, open: bool, calls: seq<S.Activation>)
    requires TypedState(base, env, ann, ts, m, l, open, calls) && WellTyped(env, ts) && S.Closed(env.prog, ann)
    requires m.Ok() && Fetched(env, m).Ok() && Current(env, m) == Some(op) && !EntryRefused(env, Fetched(env, m), op)
    requires S.Returns(env, Fetched(env, m), op)
    requires Step(env, depth, m) == Next(m')
    ensures var m1 := Fetched(env, m);
            TypedState(base, env, ann, ts, m', LayoutAfter(env, m1, op, m', l), OpenAfter(env, m1, op, open),
                       S.CallsAfter(env, ann, m, m', calls))
  {
    hide Decode, S.Shaped, LaidOut, EntryRefused, Exec, PointerFails, FramesSize, EntriesSize, Orderly;
    var op' := TypedFacts(base, env, ann, ts, m, l, open, calls);
    var m1, t := Fetched(env, m), ts[m.pc];
    hide Fetched, Current;
    StepExecutes(env, depth, m);
    hide Step;
    S.StepKeepsShape(env, ann, depth, m, calls);
    assert S.Annotated(env.prog, ann, m.pc);
    InstructionIsOrderly(base, env, ts, m1, op, m1.pc, l, open, t);
    StepIsLaidOut(base, env, depth, m1, op, l, open);
    var closed := S.ReturningExec(env, depth, m1, op);
    S.ReturnSound(env, ann, m, closed, calls);
    hide Section;
    var ret := calls[|calls| - 1].ret;
    assert Enters(env.prog, ts, ret, Typing(Idle(l.entries[0].len - 8, None), |calls| - 1 > 0));
    assert FrameOpen(m', l, t.mode.n);
    assert m'.pc == ret < |env.prog|;
    CallsStayTyped(env, ts, m1, op, m', l, calls);
  }

  /** A run that returns true has closed its frames. */
  lemma DoneIsClosed(base: seq<u8>, env: Env, depth: u32, ann: S.Annotation, ts: Typings, m: State, m': State, op: Op,
                     l: Layout, open: bool, calls: seq<S.Activation>)
    requires TypedState(base, env, ann, ts, m, l, open, calls) && WellTyped(env, ts) && S.Closed(env.prog, ann)
    requires m.Ok() && Fetched(env, m).Ok() && Current(env, m) == Some(op)
    requires Step(env, depth, m) == Done(true, m')
    ensures m'.stack == []
    ensures var m1 := Fetched(env, m);
            Complete(LayoutAfter(env, m1, op, m', l), OpenAfter(env, m1, op, open))
  {
    hide Decode, S.Shaped, LaidOut, PointerFails, FramesSize, EntriesSize, ExecGoContext, ExecEnqueue, ExecData,
         FrameOpen;
    var op' := TypedFacts(base, env, ann, ts, m, l, open, calls);
    var m1 := Fetched(env, m);
    StepExecutes(env, depth, m);
    S.StepKeepsShape(env, ann, depth, m, calls);
    if !Transfers(op) { FallsOrReturns(env, depth, m1, op); }
  }

  lemma FallsOrReturns(env: Env, depth: u32, m: State, op: Op)
    requires m.Ok() && !Transfers(op)
    ensures var r := Exec(env, depth, m, op); r.Done? && r.ok ==> op.DereferencePtr?
  {
    hide Exec, PointerFails;
    if !op.DereferencePtr? { FallsThrough(env, depth, m, op); }
  }

  // ---------------------------------------------------------------------------------------
  // A whole run

  lemma StepIsTyped(base: seq<u8>, env: Env, depth: u32, ann: S.Annotation, ts: Typings, m: State, m': State, op: Op,
                    l: Layout, open: bool, calls: seq<S.Activation>)
    requires TypedState(base, env, ann, ts, m, l, open, calls) && WellTyped(env, ts) && S.Closed(env.prog, ann)
    requires m.Ok() && Fetched(env, m).Ok() && Current(env, m) == Some(op) && !EntryRefused(env, Fetched(env, m), op)
    requires Step(env, depth, m) == Next(m')
    ensures var m1 := Fetched(env, m);
            TypedState(base, env, ann, ts, m', LayoutAfter(env, m1, op, m', l), OpenAfter(env, m1, op, open),
                       S.CallsAfter(env, ann, m, m', calls))
  {
    hide TypedState, EntryRefused, LayoutAfter, OpenAfter, S.CallsAfter, PointerFails, Decode, Current, Fetched;
    if S.Returns(env, Fetched(env, m), op) {
      ReturnIsTyped(base, env, depth, ann, ts, m, m', op, l, open, calls);
    } else if op.Jump? || op.CondJump? || op.Call? {
      JumpIsTyped(base, env, depth, ann, ts, m, m', op, l, open, calls);
    } else if op.Invalid? || op.Illegal? {
      StepExecutes(env, depth, m);
    } else {
      hide Step;
      FallingIsTyped(base, env, depth, ann, ts, m, m', op, l, open, calls);
    }
  }

  /** A run of a well-typed program is contained exactly when it is refused no entry; and then, unless
    * it overflows the output, it returns true only with every frame closed. */
  lemma {:induction false} TypedRunIsContained(base: seq<u8>, env: Env, depth: u32, ann: S.Annotation, ts: Typings,
                                               m: State, l: Layout, open: bool, calls: seq<S.Activation>, fuel: nat)
    requires m.Ok() && TypedState(base, env, ann, ts, m, l, open, calls)
    requires WellTyped(env, ts) && S.Closed(env.prog, ann)
    ensures Contained(env, depth, m, l, open, fuel) <==> Unrefused(env, depth, m, fuel)
    ensures Unrefused(env, depth, m, fuel) ==> WritesInside(env, depth, m, fuel)
    ensures var r := Iterate(env, depth, m, fuel);
            Unrefused(env, depth, m, fuel) && r.Done? && r.ok ==>
              && r.m.stack == []
              && var (l', open') := FinalLayout(env, depth, m, l, open, fuel); Complete(l', open')
    decreases fuel
  {
    hide TypedState, Step, Exec, EntryRefused, WritesInside, LayoutAfter, OpenAfter, S.CallsAfter, Decode, EdgesTyped,
         Complete, Orderly, WellTyped, S.Closed, S.Annotated;
    if fuel > 0 && Unrefused(env, depth, m, fuel) {
      var op := TypedFacts(base, env, ann, ts, m, l, open, calls);
      var m1 := Fetched(env, m);
      assert Orderly(env, m1, op, l, open) by { InstructionIsOrderly(base, env, ts, m1, op, m1.pc, l, open, ts[m.pc]); }
      var r := Step(env, depth, m);
      if r.Next? {
        StepIsTyped(base, env, depth, ann, ts, m, r.m, op, l, open, calls);
        TypedRunIsContained(base, env, depth, ann, ts, r.m, LayoutAfter(env, m1, op, r.m, l),
                            OpenAfter(env, m1, op, open), S.CallsAfter(env, ann, m, r.m, calls), fuel - 1);
      } else if r.Done? && r.ok {
        DoneIsClosed(base, env, depth, ann, ts, m, r.m, op, l, open, calls);
      }
    }
    if Contained(env, depth, m, l, open, fuel) { ContainedWritesInside(env, depth, m, l, open, fuel); }
  }
}
