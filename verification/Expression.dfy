/** Evaluating an expression leaves nothing behind but its result: whatever the expression reads is
  * appended above the length at which it was opened, and dropped again when it is closed. */
module Expression {
  import opened Words
  import opened Bytes
  import opened Wrappers
  import opened Worklist
  import opened Buffer
  import opened BufferFacts
  import opened Machine
  import opened MachineFrame
  import opened Runs
  import opened Alignment
  import opened D = Decoder

  /** An expression opened at length floor, over the bytes base, with its result slots at slots:
    * the bytes below floor are untouched and the machine points above them. */
  ghost predicate Scratch(base: seq<u8>, floor: nat, slots: u32, m: State) {
    && m.Ok()
    && !m.buf.full
    && m.resultsEnd == floor
    && m.resultsOffset == slots
    && floor <= m.buf.len && floor <= m.offset
    && SameBelow(base, m.buf.mem, floor)
  }

  ghost predicate SameBelow(a: seq<u8>, b: seq<u8>, floor: nat) {
    |a| == |b| && forall i :: 0 <= i < floor && i < |a| ==> a[i] == b[i]
  }

  /** An instruction that only works above the floor: it does not open or close an expression or
    * a frame, and it does not move the offset below the floor. */
  predicate Works(m: State, op: Op, floor: nat) {
    match op
    case DereferencePtr(_, n) => Small(n)
    case DereferenceCFAOffset(_, n, _) => m.offset + n < 0x1_0000_0000
    case CopyFromRegister(_, n) => m.offset + n < 0x1_0000_0000
    case AdvanceOffset(n) => m.offset + n < 0x1_0000_0000
    case SetOffset => m.stack != [] ==> floor <= Top(m)
    case ZeroFill(_) => true
    case _ => IsControl(op) || (IsEnqueue(op) && !op.EnqueueSubroutine?)
  }

  lemma WorkControl(env: Env, m: State, op: Op, base: seq<u8>, floor: nat, slots: u32)
    requires Scratch(base, floor, slots, m) && Works(m, op, floor) && IsControl(op)
    ensures var r := ExecControl(env, m, op); r.Next? ==> Scratch(base, floor, slots, r.m)
  {
    if op.AdvanceOffset? { WrapSmall(m.offset + op.increment); }
    hide Wrap32, SameBelow;
  }

  lemma WorkEnqueue(env: Env, m: State, op: Op, base: seq<u8>, floor: nat, slots: u32)
    requires Scratch(base, floor, slots, m) && IsEnqueue(op) && !op.EnqueueSubroutine?
    ensures var r := ExecEnqueue(env, m, op); r.Next? ==> Scratch(base, floor, slots, r.m)
  {
    hide Work.Push, Read64, Wrap32, Buckets;
    if op.EnqueueInterface? && m.buf.InRange(m.offset, 8) {
      LoadTypeIsLocal(env, m.buf, m.offset);
      hide LoadType;
    }
  }

  lemma WorkData(env: Env, depth: u32, m: State, op: Op, base: seq<u8>, floor: nat, slots: u32)
    requires Scratch(base, floor, slots, m) && Works(m, op, floor) && IsData(op) && !op.DereferencePtr?
    ensures var r := ExecData(env, depth, m, op); r.Next? ==> Scratch(base, floor, slots, r.m)
  {
    hide Wrap32, Wrap64, Buf.Zero, Buf.Dereference;
    match op {
      case DereferenceCFAOffset(o, n, bias) =>
        WrapSmall(m.offset + n);
        var (b, ok) := m.buf.EnsureLen(m.offset + n);
        if ok && b.ZeroSafe(m.offset, n) {
          var signed := if o < 0x8000_0000 then o else o - 0x1_0000_0000;
          DereferenceIsLocal(b, env.memory, m.offset, Wrap64(m.cfa + signed + bias), n);
        }
      case CopyFromRegister(_, n) =>
        WrapSmall(m.offset + n);
        var (b, ok) := m.buf.EnsureLen(m.offset + n);
        if ok && b.ZeroSafe(m.offset, n) { ZeroIsLocal(b, m.offset, n); }
      case ZeroFill(n) =>
        if m.buf.ZeroSafe(m.offset, n) { ZeroIsLocal(m.buf, m.offset, n); }
    }
  }

  lemma WorkDereference(env: Env, m: State, bias: u32, byteLen: u32, base: seq<u8>, floor: nat, slots: u32)
    requires Scratch(base, floor, slots, m) && Small(byteLen)
    ensures var r := ExecDereferencePtr(env, m, bias, byteLen);
            !r.Crash? && !r.m.buf.full ==>
              if PointerFails(env, m, bias, byteLen) then Dropped(base, floor, r.m)
              else Scratch(base, floor, slots, r.m)
  {
    hide Buf.WriteEntry, Buf.WriteEntrySafe, Read64, HeaderAt;
    if m.buf.InRange(m.offset, 8) {
      var addr := Wrap64(Read64(m.buf.mem, m.offset) + bias);
      var e := QueueEntry(0, byteLen, addr);
      if addr != 0 && m.buf.WriteEntrySafe(env.memory, e) {
        var (b, r) := m.buf.WriteEntry(env.memory, e);
        WriteEntryOk(m.buf, env.memory, e);
        if !b.full { WriteEntryFits(m.buf, env.memory, e); }
      }
    }
  }

  /** The expression is closed and left no trace. */
  ghost predicate Dropped(base: seq<u8>, floor: nat, m: State) {
    m.buf.len == floor && SameBelow(base, m.buf.mem, floor)
  }

  /** The expression is closed and left exactly its result, in its slot. */
  ghost predicate Landed(base: seq<u8>, floor: nat, dst: nat, result: seq<u8>, m: State) {
    && m.buf.len == floor
    && m.offset == dst
    && dst + |result| <= |base|
    && SameBelow(Splice(base, dst, result), m.buf.mem, floor)
  }

  /** Saving a result that lies in the buffer into a slot below the floor stores exactly the result
    * bytes; a result that would lie past the capacity is not stored. */
  lemma SaveLands(env: Env, m: State, o: u32, n: u32, base: seq<u8>, floor: nat, slots: u32)
    requires Scratch(base, floor, slots, m) && slots + o + n <= floor && m.offset + n < 0x1_0000_0000
    ensures var r := ExecSaveResult(m, o, n);
            r.Next? ==>
              if m.offset + n <= |m.buf.mem| then
                Landed(base, floor, slots + o, m.buf.mem[m.offset..m.offset + n], r.m)
              else Landed(base, floor, slots + o, [], r.m)
  {
    assert |base| == |m.buf.mem|;
    hide Wrap32, Splice, SameBelow, Buf.Copy, Buf.CopySafe;
    WrapSmall(slots + o);
    if m.buf.CopySafe(m.offset, slots + o, n) {
      CopyOfResult(m.buf, m.offset, slots + o, n);
      if m.offset + n <= |m.buf.mem| {
        SpliceBelow(base, m.buf.mem, floor, slots + o, m.buf.mem[m.offset..m.offset + n]);
      } else {
        SpliceNothing(base, slots + o, []);
      }
    }
  }

  lemma CopyOfResult(b: Buf, src: u32, dst: u32, n: u32)
    requires b.Ok() && b.CopySafe(src, dst, n) && dst + n <= src && dst + n <= b.len && src + n < 0x1_0000_0000
    ensures b.Copy(src, dst, n)
         == if src + n <= |b.mem| then b.(mem := Splice(b.mem, dst, b.mem[src..src + n])) else b
  {
    WrapSmall(src + n);
    WrapSmall(dst + n);
    hide Wrap32, Splice, CopyForward;
    if src + n <= |b.mem| {
      CopyOfDisjoint(b.mem, src, dst, n);
      if n == 0 { SpliceNothing(b.mem, dst, b.mem[src..src + n]); }
    }
  }

  lemma SpliceBelow(a: seq<u8>, b: seq<u8>, floor: nat, dst: nat, data: seq<u8>)
    requires SameBelow(a, b, floor) && dst + |data| <= floor <= |a|
    ensures SameBelow(Splice(a, dst, data), Splice(b, dst, data), floor)
  {
  }

  lemma SpliceNothing(a: seq<u8>, dst: nat, data: seq<u8>)
    requires data == [] && dst <= |a|
    ensures Splice(a, dst, data) == a
  {
  }

  lemma OpenStartsScratch(env: Env, m: State)
    requires m.Ok() && !m.buf.full
    ensures var r := ExecPrepareExpr(m); r.Next? ==> Scratch(m.buf.mem, m.buf.len, m.resultsOffset, r.m)
  {
  }

  lemma WorkStays(env: Env, depth: u32, m: State, op: Op, base: seq<u8>, floor: nat, slots: u32)
    requires Scratch(base, floor, slots, m) && Works(m, op, floor)
    ensures var r := Exec(env, depth, m, op);
            r.Next? && !r.m.buf.full ==>
              if op.DereferencePtr? && PointerFails(env, m, op.bias, op.byteLen) then Dropped(base, floor, r.m)
              else Scratch(base, floor, slots, r.m)
  {
    hide ExecControl, ExecEnqueue, ExecData, Scratch, PointerFails, Dropped, ExecDereferencePtr;
    if IsControl(op) {
      WorkControl(env, m, op, base, floor, slots);
    } else if IsEnqueue(op) {
      WorkEnqueue(env, m, op, base, floor, slots);
    } else if op.DereferencePtr? {
      WorkDereference(env, m, op.bias, op.byteLen, base, floor, slots);
      assert m.Ok() by { ScratchOk(m, base, floor, slots); }
      DataIs(env, depth, m, op);
    } else {
      WorkData(env, depth, m, op, base, floor, slots);
    }
  }

  lemma ScratchOk(m: State, base: seq<u8>, floor: nat, slots: u32)
    requires Scratch(base, floor, slots, m)
    ensures m.Ok() && !m.buf.full
  {
  }

  // ---------------------------------------------------------------------------------------
  // A whole evaluation

  /** Step i of an evaluation works above the floor, fits, and finds its pointer readable. */
  ghost predicate GoesOn(env: Env, depth: u32, m: State, i: nat, floor: nat)
    requires m.Ok()
  {
    match (StateAfter(env, depth, m, i), StateAfter(env, depth, m, i + 1))
    case (Some(m1), Some(m2)) =>
      && Current(env, m1).Some? && Fetched(env, m1).Ok() && !m2.buf.full
      && var op := Current(env, m1).value;
         && Works(Fetched(env, m1), op, floor)
         && !(op.DereferencePtr? && PointerFails(env, Fetched(env, m1), op.bias, op.byteLen))
    case _ => false
  }

  /** After any number of steps of an evaluation, everything below the length at which it was opened
    * is untouched. */
  lemma {:induction false} EvaluationStaysAbove(env: Env, depth: u32, m: State, k: nat)
    requires m.Ok() && !m.buf.full && Current(env, m) == Some(PrepareExprEval) && k > 0
    requires StateAfter(env, depth, m, 1).Some?
    requires forall i :: 0 < i < k ==> GoesOn(env, depth, m, i, m.buf.len)
    ensures StateAfter(env, depth, m, k).Some?
    ensures Scratch(m.buf.mem, m.buf.len, m.resultsOffset, StateAfter(env, depth, m, k).value)
    decreases k
  {
    hide Step, Exec, Decode, Scratch, Works, PointerFails;
    if k == 1 {
      FirstStep(env, depth, m);
    } else {
      EvaluationStaysAbove(env, depth, m, k - 1);
      assert GoesOn(env, depth, m, k - 1, m.buf.len);
      var m1 := StateAfter(env, depth, m, k - 1).value;
      StepExecutes(env, depth, m1);
      FetchedScratch(env, m1, m.buf.mem, m.buf.len, m.resultsOffset);
      WorkStays(env, depth, Fetched(env, m1), Current(env, m1).value, m.buf.mem, m.buf.len, m.resultsOffset);
    }
  }

  lemma FirstStep(env: Env, depth: u32, m: State)
    requires m.Ok() && !m.buf.full && Current(env, m) == Some(PrepareExprEval)
    requires StateAfter(env, depth, m, 1).Some?
    ensures Scratch(m.buf.mem, m.buf.len, m.resultsOffset, StateAfter(env, depth, m, 1).value)
  {
    hide Decode, Scratch;
    StepExecutes(env, depth, m);
    OpenStartsScratch(env, Fetched(env, m));
    assert StateAfter(env, depth, m, 0) == Some(m);
  }

  lemma FetchedScratch(env: Env, m: State, base: seq<u8>, floor: nat, slots: u32)
    requires Scratch(base, floor, slots, m)
    ensures Scratch(base, floor, slots, Fetched(env, m))
  {
    hide Decode;
  }

  /** An evaluation closed by saving its result leaves the length as it was when it was opened, and
    * changes exactly the bytes of the result slot, to the result. */
  lemma SavedEvaluation(env: Env, depth: u32, m: State, k: nat, o: u32, n: u32)
    requires m.Ok() && !m.buf.full && Current(env, m) == Some(PrepareExprEval) && k > 0
    requires forall i :: 0 < i < k ==> GoesOn(env, depth, m, i, m.buf.len)
    requires StateAfter(env, depth, m, 1).Some? && StateAfter(env, depth, m, k).Some?
    requires var m1 := StateAfter(env, depth, m, k).value;
             && Current(env, m1) == Some(SaveExprResult(o, n))
             && m1.offset + n <= |m1.buf.mem| && m.resultsOffset + o + n <= m.buf.len
    ensures var m1 := StateAfter(env, depth, m, k).value;
            var r := StateAfter(env, depth, m, k + 1);
            r.Some? ==> Landed(m.buf.mem, m.buf.len, m.resultsOffset + o, m1.buf.mem[m1.offset..m1.offset + n], r.value)
  {
    hide Step, Decode, Scratch, GoesOn, Landed;
    EvaluationStaysAbove(env, depth, m, k);
    var m1 := StateAfter(env, depth, m, k).value;
    FetchedScratch(env, m1, m.buf.mem, m.buf.len, m.resultsOffset);
    StepExecutes(env, depth, m1);
    SaveLands(env, Fetched(env, m1), o, n, m.buf.mem, m.buf.len, m.resultsOffset);
    hide ExecSaveResult;
  }

  /** An evaluation closed by a pointer that is null or cannot be read leaves no trace. */
  lemma FailedEvaluation(env: Env, depth: u32, m: State, k: nat, bias: u32, n: u32)
    requires m.Ok() && !m.buf.full && Current(env, m) == Some(PrepareExprEval) && k > 0
    requires forall i :: 0 < i < k ==> GoesOn(env, depth, m, i, m.buf.len)
    requires StateAfter(env, depth, m, 1).Some? && StateAfter(env, depth, m, k).Some?
    requires var m1 := StateAfter(env, depth, m, k).value;
             && Current(env, m1) == Some(DereferencePtr(bias, n)) && Small(n)
             && Fetched(env, m1).Ok() && PointerFails(env, Fetched(env, m1), bias, n)
    ensures var r := Step(env, depth, StateAfter(env, depth, m, k).value);
            !r.Crash? && !r.m.buf.full ==> Dropped(m.buf.mem, m.buf.len, r.m)
  {
    hide ExecDereferencePtr, Decode, Scratch, GoesOn, Dropped, PointerFails;
    EvaluationStaysAbove(env, depth, m, k);
    var m1 := StateAfter(env, depth, m, k).value;
    FetchedScratch(env, m1, m.buf.mem, m.buf.len, m.resultsOffset);
    StepExecutes(env, depth, m1);
    WorkDereference(env, Fetched(env, m1), bias, n, m.buf.mem, m.buf.len, m.resultsOffset);
    DataIs(env, depth, Fetched(env, m1), DereferencePtr(bias, n));
    hide ExecData;
  }
}
