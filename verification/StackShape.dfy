/** Soundness of stack annotations: a program whose instructions are annotated with the number of
  * data words above the last return address, consistently along every edge, never underflows its
  * stack, never decodes past its end, and returns exactly where it was called from. */
module StackShape {
  import opened Words
  import opened Wrappers
  import opened Worklist
  import opened Buffer
  import opened Machine
  import opened MachineFrame
  import opened Runs
  import opened Alignment
  import Bytes
  import opened D = Decoder

  /** For each instruction start, the number of data words pushed since the subroutine began. */
  type Annotation = map<u32, nat>

  /** A jump, call or return to pc: outside the program it just ends the run. */
  predicate Leads(prog: Program, ann: Annotation, pc: u32, depth: nat) {
    pc < |prog| ==> pc in ann && ann[pc] == depth
  }

  /** Falling through to pc, which is not checked against the end of the program. */
  predicate Falls(prog: Program, ann: Annotation, pc: nat, depth: nat) {
    pc < |prog| && Leads(prog, ann, pc, depth)
  }

  /** The edges out of an instruction agree with the annotation. */
  predicate EdgesAgree(prog: Program, ann: Annotation, depth: nat, op: Op, next: nat) {
    match op
    case Invalid => true
    case Illegal => true
    case Return => depth == 0
    case Jump(t) => Leads(prog, ann, t, depth)
    case CondJump(t) => depth > 0 && Leads(prog, ann, t, depth) && Falls(prog, ann, next, depth)
    case Call(t) => Leads(prog, ann, t, 0) && next <= |prog| && Leads(prog, ann, next, depth)
    case Pop => depth > 0 && Falls(prog, ann, next, depth - 1)
    case Decrement => depth > 0 && Falls(prog, ann, next, depth)
    case SetOffset => depth > 0 && Falls(prog, ann, next, depth)
    case EnqueueHMapHeader(_, _, _, _, _, _) => depth > 0 && Falls(prog, ann, next, depth)
    case PushImm(_) => Falls(prog, ann, next, depth + 1)
    case PushOffset => Falls(prog, ann, next, depth + 1)
    case PushSliceLen(_) => Falls(prog, ann, next, depth + 1)
    case DereferencePtr(_, _) => depth == 0 && Falls(prog, ann, next, depth)
    case _ => Falls(prog, ann, next, depth)
  }

  predicate Annotated(prog: Program, ann: Annotation, pc: u32)
    requires pc in ann
  {
    match Decode(prog, pc)
    case None => false
    case Some((op, next)) => EdgesAgree(prog, ann, ann[pc], op, next)
  }

  ghost predicate Closed(prog: Program, ann: Annotation) {
    forall pc :: pc in ann ==> Annotated(prog, ann, pc)
  }

  /** A subroutine call in progress: where it returns to, and the depth of its caller there. */
  datatype Activation = Activation(ret: u32, depth: nat)

  /** The stack is, from the top: depth data words, the return address of the innermost call, the
    * data words of its caller, and so on. */
  ghost predicate Shaped(prog: Program, ann: Annotation, depth: nat, stack: seq<u32>, calls: seq<Activation>)
    decreases |calls|
  {
    if calls == [] then |stack| == depth
    else
      var c, at := calls[|calls| - 1], |stack| - 1 - depth;
      && 0 <= at && stack[at] == c.ret
      && Leads(prog, ann, c.ret, c.depth)
      && Shaped(prog, ann, c.depth, stack[..at], calls[..|calls| - 1])
  }

  ghost predicate Inv(env: Env, ann: Annotation, m: State, calls: seq<Activation>) {
    && m.Ok()
    && m.pc in ann
    && Shaped(env.prog, ann, ann[m.pc], m.stack, calls)
  }

  /** The calls in progress after a step: a call adds its own, a return removes the last one. */
  ghost function CallsAfter(env: Env, ann: Annotation, m: State, r: State, calls: seq<Activation>): seq<Activation> {
    match Decode(env.prog, m.pc)
    case None => calls
    case Some((op, next)) =>
      if op.Call? && m.pc in ann && next < 0x8000_0000 then calls + [Activation(next, ann[m.pc])]
      else if (op.Return? || op.DereferencePtr?) && |r.stack| < |m.stack| && calls != [] then
        calls[..|calls| - 1]
      else calls
  }

  /** The data words of a shaped stack can be pushed, popped and overwritten. */
  lemma ShapedAbove(prog: Program, ann: Annotation, depth: nat, stack: seq<u32>, depth': nat, stack': seq<u32>,
                    calls: seq<Activation>)
    requires Shaped(prog, ann, depth, stack, calls)
    requires depth <= |stack| && |stack'| - depth' == |stack| - depth
    requires stack'[..|stack| - depth] == stack[..|stack| - depth]
    ensures Shaped(prog, ann, depth', stack', calls)
  {
    if calls != [] {
      var at := |stack| - 1 - depth;
      assert stack'[..|stack| - depth][..at] == stack'[..at];
      assert stack[..|stack| - depth][..at] == stack[..at];
      assert stack'[..|stack| - depth][at] == stack[..|stack| - depth][at];
    }
  }

  lemma ShapedHeight(prog: Program, ann: Annotation, depth: nat, stack: seq<u32>, calls: seq<Activation>)
    requires Shaped(prog, ann, depth, stack, calls)
    ensures depth <= |stack|
    ensures stack == [] ==> calls == []
    ensures depth == 0 && calls == [] ==> stack == []
  {
  }

  ghost predicate StepSound(env: Env, ann: Annotation, m: State, calls: seq<Activation>, r: Outcome) {
    match r
    case Crash(fault) => !fault.DecodeFault? && !fault.StackFault?
    case Done(ok, m') => ok ==> m'.stack == [] && calls == []
    case Next(m') => Inv(env, ann, m', CallsAfter(env, ann, m, m', calls))
  }

  lemma ReturnSound(env: Env, ann: Annotation, m: State, m1: State, calls: seq<Activation>)
    requires Inv(env, ann, m, calls) && ann[m.pc] == 0
    requires m1.Ok() && m1.stack == m.stack
    requires Decode(env.prog, m.pc).Some?
    requires var op := Decode(env.prog, m.pc).value.0; op.Return? || op.DereferencePtr?
    ensures StepSound(env, ann, m, calls, ExecReturn(env, m1))
    ensures var r := ExecReturn(env, m1);
            r.Next? ==> calls != [] && r.m.pc == calls[|calls| - 1].ret && m.stack == r.m.stack + [r.m.pc]
  {
  }

  lemma ControlSound(env: Env, ann: Annotation, m: State, calls: seq<Activation>, op: Op, next: u32)
    requires Inv(env, ann, m, calls) && EdgesAgree(env.prog, ann, ann[m.pc], op, next)
    requires Decode(env.prog, m.pc) == Some((op, next)) && IsControl(op)
    ensures StepSound(env, ann, m, calls, ExecControl(env, m.(pc := next), op))
  {
    if op.Return? {
      ReturnSound(env, ann, m, m.(pc := next), calls);
    } else if op.Call? {
      hide Decode, Shaped;
      ShapedCall(env.prog, ann, ann[m.pc], m.stack, calls, next);
    } else {
      hide Decode;
      PlainSound(env, ann, m, calls, op, next);
    }
  }

  lemma PlainSound(env: Env, ann: Annotation, m: State, calls: seq<Activation>, op: Op, next: u32)
    requires Inv(env, ann, m, calls) && EdgesAgree(env.prog, ann, ann[m.pc], op, next)
    requires Decode(env.prog, m.pc) == Some((op, next)) && IsControl(op) && !op.Return? && !op.Call?
    ensures StepSound(env, ann, m, calls, ExecControl(env, m.(pc := next), op))
  {
    var d := ann[m.pc];
    ShapedHeight(env.prog, ann, d, m.stack, calls);
    hide Decode, Shaped, Buf.EntryLen, Buf.EntryLenSafe, Quotient;
    var r := ExecControl(env, m.(pc := next), op);
    if r.Next? {
      assert r.m.pc in ann;
      ShapedAbove(env.prog, ann, d, m.stack, ann[r.m.pc], r.m.stack, calls);
    }
  }

  lemma ShapedCall(prog: Program, ann: Annotation, d: nat, stack: seq<u32>, calls: seq<Activation>, next: u32)
    requires Shaped(prog, ann, d, stack, calls) && Leads(prog, ann, next, d)
    ensures Shaped(prog, ann, 0, stack + [next], calls + [Activation(next, d)])
  {
    assert (stack + [next])[..|stack|] == stack;
    assert (calls + [Activation(next, d)])[..|calls|] == calls;
  }

  /** Every instruction of an annotated program keeps the shape of the stack, never underflows it
    * and never decodes past the end of the program. */
  lemma StepKeepsShape(env: Env, ann: Annotation, depth: u32, m: State, calls: seq<Activation>)
    requires Closed(env.prog, ann) && Inv(env, ann, m, calls)
    ensures StepSound(env, ann, m, calls, Step(env, depth, m))
  {
    assert Annotated(env.prog, ann, m.pc);
    var (op, next) := Decode(env.prog, m.pc).value;
    var m1, d := m.(pc := next), ann[m.pc];
    ShapedHeight(env.prog, ann, d, m.stack, calls);
    hide Decode, Shaped, WorkGrows, ExecControl, ExecData, ExecEnqueue, ExecGoContext;
    if IsControl(op) {
      ControlSound(env, ann, m, calls, op, next);
    } else if op.EnqueueHMapHeader? {
      HMapSound(env, ann, m, calls, op, next);
    } else if op.DereferencePtr? {
      DereferenceSound(env, ann, m, calls, op, next);
    } else {
      OtherKeeps(env, depth, m1, op);
    }
  }

  predicate MildFault(r: Outcome) {
    match r
    case Crash(fault) => !fault.DecodeFault? && !fault.StackFault?
    case Done(ok, _) => !ok
    case Next(_) => true
  }

  lemma OtherKeeps(env: Env, depth: u32, m: State, op: Op)
    requires m.Ok() && !IsControl(op) && !op.EnqueueHMapHeader? && !op.DereferencePtr?
    ensures OutcomeKeeps(m, Exec(env, depth, m, op)) && MildFault(Exec(env, depth, m, op))
  {
    hide WorkGrows, ExecGoContext, ExecEnqueue, ExecData;
    if op.EnqueueSubroutine? {
      SubroutineFrame(env, m);
      EnqueueMild(env, m, op);
    } else if IsEnqueue(op) {
      EnqueueFrame(env, m, op);
      EnqueueMild(env, m, op);
    } else if IsData(op) {
      DataFrame(env, depth, m, op);
      DataMild(env, depth, m, op);
    } else {
      ContextFrame(env, m, op.dataByteLen, op.typeID, op.captureCount);
      ContextFaults(env, m, op.dataByteLen, op.typeID, op.captureCount);
    }
  }

  lemma EnqueueMild(env: Env, m: State, op: Op)
    requires m.Ok() && IsEnqueue(op) && !op.EnqueueHMapHeader?
    ensures MildFault(ExecEnqueue(env, m, op))
    ensures op.EnqueueSubroutine? ==> ExecEnqueue(env, m, op) == ExecSubroutine(env, m)
  {
  }

  lemma DataMild(env: Env, depth: u32, m: State, op: Op)
    requires m.Ok() && IsData(op) && !op.DereferencePtr?
    ensures MildFault(ExecData(env, depth, m, op))
  {
  }

  predicate WalkFaultOnly(fault: Fault) {
    LinkFaultOnly(fault) || fault.WalkFault?
  }

  lemma {:induction false} WalkFaults(env: Env, m: State, budget: nat)
    requires m.Ok()
    ensures var r := Walk(env, m, budget); r.Broken? ==> WalkFaultOnly(r.fault)
    decreases budget
  {
    hide WalkLink;
    if budget > 0 {
      LinkFaults(env, m);
      var r := WalkLink(env, m);
      if r.More? { WalkFaults(env, r.m, budget - 1); }
    }
  }

  lemma ContextBodyFaults(env: Env, m: State, o: u32, dataLen: u32, count: u8)
    requires m.Ok()
    ensures var r := ContextBody(env, m, o, dataLen, count);
            match r
            case Crash(fault) => WalkFaultOnly(fault)
            case Done(_, _) => false
            case Next(_) => true
  {
    hide Walk;
    if m.buf.ZeroSafe(o, dataLen) {
      WalkFaults(env, m.(buf := m.buf.Zero(o, dataLen), contextOffset := o,
                         contextMask := CaptureMask.Initial(count)), env.walkBudget);
    }
  }

  lemma ContextFaults(env: Env, m: State, dataLen: u32, typ: u32, count: u8)
    requires m.Ok()
    ensures var r := ExecGoContext(env, m, dataLen, typ, count);
            match r
            case Crash(fault) => WalkFaultOnly(fault)
            case Done(_, _) => false
            case Next(_) => true
  {
    hide ContextBody, Buf.WriteEntry, Buf.WriteEntrySafe, Bytes.Read64;
    if m.buf.InRange(m.offset + 8, 8) {
      var addr := Bytes.Read64(m.buf.mem, m.offset + 8);
      var entry := QueueEntry(typ, dataLen, addr);
      if m.buf.WriteEntrySafe(env.memory, entry) {
        WriteEntryOk(m.buf, env.memory, entry);
        var (b, r) := m.buf.WriteEntry(env.memory, entry);
        if r.Some? {
          ContextBodyFaults(env, m.(work := m.work.ShouldRecord(addr, typ).0, buf := b), r.value, dataLen, count);
        }
      }
    }
  }

  lemma HMapSound(env: Env, ann: Annotation, m: State, calls: seq<Activation>, op: Op, next: u32)
    requires Inv(env, ann, m, calls) && EdgesAgree(env.prog, ann, ann[m.pc], op, next)
    requires Decode(env.prog, m.pc) == Some((op, next)) && op.EnqueueHMapHeader?
    ensures StepSound(env, ann, m, calls, ExecEnqueue(env, m.(pc := next), op))
  {
    var d := ann[m.pc];
    ShapedHeight(env.prog, ann, d, m.stack, calls);
    var m1 := m.(pc := next);
    HMapFrame(env, m1, op.bucketsArrayType, op.bucketByteLen, op.flagsOffset, op.bOffset,
              op.bucketsOffset, op.oldBucketsOffset);
    var r := ExecEnqueue(env, m1, op);
    if r.Next? {
      hide Shaped, Decode, WorkGrows;
      ShapedAbove(env.prog, ann, d, m.stack, d, r.m.stack, calls);
    }
  }

  lemma DereferenceSound(env: Env, ann: Annotation, m: State, calls: seq<Activation>, op: Op, next: u32)
    requires Inv(env, ann, m, calls) && EdgesAgree(env.prog, ann, ann[m.pc], op, next)
    requires Decode(env.prog, m.pc) == Some((op, next)) && op.DereferencePtr?
    ensures StepSound(env, ann, m, calls, ExecDereferencePtr(env, m.(pc := next), op.bias, op.byteLen))
  {
    hide ExecDereferencePtr, ExecReturn, WorkGrows, Decode, Shaped;
    var m1 := m.(pc := next);
    var closed := DereferencePtrFrame(env, m1, op.bias, op.byteLen);
    if ExecDereferencePtr(env, m1, op.bias, op.byteLen) == ExecReturn(env, closed) {
      ReturnSound(env, ann, m, closed, calls);
    }
  }

  // ---------------------------------------------------------------------------------------
  // Whole runs

  /** The calls in progress after k steps: one for each call not yet returned from. */
  ghost function OpenCalls(env: Env, ann: Annotation, depth: u32, m: State, k: nat): seq<Activation>
    requires m.Ok()
  {
    if k == 0 then []
    else match (StateAfter(env, depth, m, k - 1), StateAfter(env, depth, m, k))
      case (Some(m1), Some(m2)) => CallsAfter(env, ann, m1, m2, OpenCalls(env, ann, depth, m, k - 1))
      case _ => []
  }

  /** In every state of a run of an annotated program the pc is at an annotated instruction whose
    * operands lie inside the program, and the stack has exactly the annotated shape: the data
    * words of each subroutine over the return address of the call it serves. */
  lemma {:induction false} EveryStateIsShaped(env: Env, ann: Annotation, depth: u32, m: State, k: nat)
    requires Closed(env.prog, ann) && m.Ok() && m.stack == []
    requires m.pc in ann && ann[m.pc] == 0
    ensures var r := StateAfter(env, depth, m, k);
            r.Some? ==> Inv(env, ann, r.value, OpenCalls(env, ann, depth, m, k)) && Decode(env.prog, r.value.pc).Some?
  {
    hide Step, CallsAfter, Decode, EdgesAgree;
    if k > 0 {
      EveryStateIsShaped(env, ann, depth, m, k - 1);
      var r := StateAfter(env, depth, m, k - 1);
      hide Shaped;
      if r.Some? {
        StepKeepsShape(env, ann, depth, r.value, OpenCalls(env, ann, depth, m, k - 1));
      }
    }
    var r := StateAfter(env, depth, m, k);
    assert r.Some? && r.value.pc in ann ==> Annotated(env.prog, ann, r.value.pc);
  }

  /** Whether an instruction returns: a Return, and a DereferencePtr whose pointer is null or cannot be
    * read. */
  predicate Returns(env: Env, m: State, op: Op)
    requires m.Ok()
  {
    op.Return? || (op.DereferencePtr? && PointerFails(env, m, op.bias, op.byteLen))
  }

  lemma ReturningExec(env: Env, depth: u32, m: State, op: Op) returns (closed: State)
    requires m.Ok() && Returns(env, m, op)
    ensures closed == m.(buf := closed.buf) && closed.Ok() && Exec(env, depth, m, op) == ExecReturn(env, closed)
  {
    hide ExecReturn, Buf.WriteEntry, Buf.WriteEntrySafe, Bytes.Read64;
    closed := m;
    if op.DereferencePtr? {
      var entry := QueueEntry(0, op.byteLen, Wrap64(Bytes.Read64(m.buf.mem, m.offset) + op.bias));
      if entry.addr == 0 {
        closed := m.(buf := m.buf.Truncate(m.resultsEnd));
      } else {
        WriteEntryOk(m.buf, env.memory, entry);
        closed := m.(buf := m.buf.WriteEntry(env.memory, entry).0.Truncate(m.resultsEnd));
      }
    }
  }

  /** A return goes to the address pushed by the call it matches, and pops exactly that word. */
  lemma ReturnsMatchCalls(env: Env, ann: Annotation, depth: u32, m: State, k: nat)
    requires Closed(env.prog, ann) && m.Ok() && m.stack == []
    requires m.pc in ann && ann[m.pc] == 0
    requires StateAfter(env, depth, m, k).Some? && StateAfter(env, depth, m, k + 1).Some?
    ensures var m1, m2 := StateAfter(env, depth, m, k).value, StateAfter(env, depth, m, k + 1).value;
            var calls := OpenCalls(env, ann, depth, m, k);
            Current(env, m1).Some? && Returns(env, Fetched(env, m1), Current(env, m1).value) ==>
              && calls != []
              && m2.pc == calls[|calls| - 1].ret
              && m1.stack == m2.stack + [m2.pc]
              && OpenCalls(env, ann, depth, m, k + 1) == calls[..|calls| - 1]
  {
    hide Step, Exec, Shaped, PointerFails, ExecReturn;
    var m1 := StateAfter(env, depth, m, k).value;
    var calls := OpenCalls(env, ann, depth, m, k);
    EveryStateIsShaped(env, ann, depth, m, k);
    assert Annotated(env.prog, ann, m1.pc);
    hide Decode;
    var op := Current(env, m1).value;
    StepExecutes(env, depth, m1);
    if Returns(env, Fetched(env, m1), op) {
      var closed := ReturningExec(env, depth, Fetched(env, m1), op);
      ReturnSound(env, ann, m1, closed, calls);
    }
  }

  /** An annotated program started on an empty stack never underflows the stack and never decodes
    * past its end, however long it runs; and it succeeds only with the stack empty again. */
  lemma {:induction false} IterateIsSound(env: Env, ann: Annotation, depth: u32, m: State, calls: seq<Activation>,
                                          fuel: nat)
    requires Closed(env.prog, ann) && Inv(env, ann, m, calls)
    ensures match Iterate(env, depth, m, fuel)
            case Crash(fault) => !fault.DecodeFault? && !fault.StackFault?
            case Done(ok, m') => ok ==> m'.stack == []
            case Next(_) => false
    decreases fuel
  {
    hide Step, Shaped, CallsAfter, Annotated;
    if fuel > 0 {
      StepKeepsShape(env, ann, depth, m, calls);
      var r := Step(env, depth, m);
      if r.Next? {
        IterateIsSound(env, ann, depth, r.m, CallsAfter(env, ann, m, r.m, calls), fuel - 1);
      }
    }
  }

  lemma RunIsSound(env: Env, ann: Annotation, m: State, pc: u32, cfa: u64, depth: u32, offset: u32)
    requires Closed(env.prog, ann) && m.Ok() && m.stack == []
    requires Leads(env.prog, ann, pc, 0)
    ensures match Run(env, m, pc, cfa, depth, offset)
            case Crash(fault) => !fault.DecodeFault? && !fault.StackFault?
            case Done(ok, m') => ok ==> m'.stack == []
            case Next(_) => false
  {
    hide Iterate;
    if pc < |env.prog| {
      IterateIsSound(env, ann, depth, m.(pc := pc, cfa := cfa, offset := offset), [], FUEL);
    }
  }
}
