/** What every instruction leaves alone: the overflow flag never reverts, the worklist only grows,
  * and only control instructions move the pc or change the height of the stack. */
module MachineFrame {
  import opened Words
  import opened Bytes
  import opened Wrappers
  import opened Worklist
  import opened Buffer
  import opened Machine
  import opened D = Decoder

  ghost predicate WorkGrows(w: Work, w': Work) {
    w.Inv() ==> Grows(w, w')
  }

  lemma WorkSteps(w: Work)
    ensures WorkGrows(w, w)
    ensures forall a: u64, t: u32, n: u32 :: WorkGrows(w, w.Push(a, t, n))
    ensures forall a: u64, t: u32 :: WorkGrows(w, w.ShouldRecord(a, t).0)
  {
    if w.Inv() {
      forall a: u64, t: u32, n: u32 ensures Grows(w, w.Push(a, t, n)) {
        PushGrows(w, a, t, n);
      }
      forall a: u64, t: u32 ensures Grows(w, w.ShouldRecord(a, t).0) {
        RecordGrows(w, a, t);
      }
    }
  }

  lemma WorkTrans(u: Work, v: Work, w: Work)
    requires WorkGrows(u, v) && WorkGrows(v, w)
    ensures WorkGrows(u, w)
  {
  }

  /** The pc and the stack are untouched, an overflow stays recorded, the worklist grows. */
  ghost predicate Keeps(m: State, m': State) {
    && m'.pc == m.pc && m'.stack == m.stack
    && (m.buf.full ==> m'.buf.full)
    && WorkGrows(m.work, m'.work)
  }

  lemma KeepsTrans(m: State, m1: State, m2: State)
    requires Keeps(m, m1) && Keeps(m1, m2)
    ensures Keeps(m, m2)
  {
    WorkTrans(m.work, m1.work, m2.work);
  }

  ghost predicate OutcomeKeeps(m: State, r: Outcome) {
    r.Crash? || Keeps(m, r.m)
  }

  /** The frame and the expression being evaluated are untouched. */
  predicate SameFrame(m: State, m': State) {
    m' == m.(pc := m'.pc, stack := m'.stack, offset := m'.offset, contextOffset := m'.contextOffset,
             contextMask := m'.contextMask, buf := m'.buf, work := m'.work)
  }

  ghost predicate FrameKeeps(m: State, r: Outcome) {
    r.Crash? || (Keeps(m, r.m) && SameFrame(m, r.m))
  }

  ghost predicate LinkKeeps(m: State, r: Link) {
    r.Broken? || (Keeps(m, r.m) && SameFrame(m, r.m))
  }

  lemma LoadTypeIsLocal(env: Env, b: Buf, off: u32)
    requires b.Ok() && b.InRange(off, 8)
    ensures var (b', ok) := LoadType(env, b, off);
            b' == b.(mem := b'.mem) && SameOutside(b.mem, b'.mem, off, off + 8)
  {
  }

  lemma WriteEntryFull(b: Buf, mem: Memory, e: QueueEntry)
    requires b.Ok() && b.WriteEntrySafe(mem, e)
    ensures b.full ==> b.WriteEntry(mem, e).0.full
  {
  }

  // ---------------------------------------------------------------------------------------
  // Go contexts

  lemma RecordFrame(env: Env, m: State, spec: ContextValue, v: Known, expected: u32)
    requires m.Ok()
    ensures FrameKeeps(m, RecordContextValue(m, spec, v, expected))
  {
    hide WorkGrows;
    WorkSteps(m.work);
  }

  lemma OfferByKeyFrame(env: Env, m: State, impl: ContextImpl, v: Known)
    requires m.Ok()
    ensures FrameKeeps(m, OfferByKey(env, m, impl, v))
  {
    hide WorkGrows, RecordContextValue, ResolveAny;
    WorkSteps(m.work);
    if impl.keyOffset.Some? && m.buf.InRange(Wrap32(m.offset + impl.keyOffset.value), 16) {
      var k := ResolveAny(env, m.buf, Wrap32(m.offset + impl.keyOffset.value));
      if k.Some? && k.value.info.contextKey.Some? && k.value.info.contextKeyValueType.Some? {
        RecordFrame(env, m, k.value.info.contextKey.value, v, k.value.info.contextKeyValueType.value);
      }
    }
  }

  lemma OfferFrame(env: Env, m: State, impl: ContextImpl)
    requires m.Ok()
    ensures FrameKeeps(m, OfferValue(env, m, impl))
  {
    hide WorkGrows, RecordContextValue, OfferByKey, ResolveAny;
    WorkSteps(m.work);
    if impl.valueOffset.Some? && m.buf.InRange(Wrap32(m.offset + impl.valueOffset.value), 16) {
      var v := ResolveAny(env, m.buf, Wrap32(m.offset + impl.valueOffset.value));
      if v.Some? {
        var r1 := Next(m);
        if v.value.info.contextValue.Some? {
          RecordFrame(env, m, v.value.info.contextValue.value, v.value, 0);
          r1 := RecordContextValue(m, v.value.info.contextValue.value, v.value, 0);
        }
        if !r1.Crash? {
          OfferByKeyFrame(env, r1.m, impl, v.value);
          var r2 := OfferByKey(env, r1.m, impl, v.value);
          if !r2.Crash? { KeepsTrans(m, r1.m, r2.m); }
        }
      }
    }
  }

  lemma VisitLinkFrame(env: Env, m: State, impl: ContextImpl)
    requires m.Ok()
    ensures LinkKeeps(m, VisitLink(env, m, impl))
  {
    hide OfferValue, WorkGrows;
    OfferFrame(env, m, impl);
  }

  lemma CopyLinkFrame(env: Env, m: State, id: u32)
    requires m.Ok() && id in env.typeInfo && env.typeInfo[id].contextImpl.Some?
    ensures LinkKeeps(m, CopyLink(env, m, id))
  {
    hide VisitLink, WorkGrows, Buf.WriteEntry, Buf.WriteEntrySafe, Read64;
    WorkSteps(m.work);
    if m.buf.InRange(m.offset, 16) {
      var entry := QueueEntry(id, env.typeInfo[id].byteLen, Read64(m.buf.mem, m.offset + 8));
      if m.buf.WriteEntrySafe(env.memory, entry) {
        WriteEntryFull(m.buf, env.memory, entry);
        WriteEntryOk(m.buf, env.memory, entry);
        var (b, r) := m.buf.WriteEntry(env.memory, entry);
        if r.Some? {
          var m1 := m.(buf := b, offset := r.value);
          VisitLinkFrame(env, m1, env.typeInfo[id].contextImpl.value);
          assert CopyLink(env, m, id) == VisitLink(env, m1, env.typeInfo[id].contextImpl.value);
          var last := VisitLink(env, m1, env.typeInfo[id].contextImpl.value);
          if !last.Broken? { KeepsTrans(m, m1, last.m); }
        }
      }
    }
  }

  lemma WriteEntryOk(b: Buf, mem: Memory, e: QueueEntry)
    requires b.Ok() && b.WriteEntrySafe(mem, e)
    ensures b.WriteEntry(mem, e).0.Ok() && |b.WriteEntry(mem, e).0.mem| == |b.mem|
  {
  }

  lemma WalkLinkFrame(env: Env, m: State)
    requires m.Ok()
    ensures LinkKeeps(m, WalkLink(env, m))
  {
    hide CopyLink, WorkGrows;
    WorkSteps(m.work);
    if m.contextMask != 0 && m.buf.InRange(m.offset, 8) && Read64(m.buf.mem, m.offset) != 0 {
      var (b, ok) := LoadType(env, m.buf, m.offset);
      var id := LinkType(env, b, m.offset);
      if ok && id.Some? { CopyLinkFrame(env, m.(buf := b), id.value); }
    }
  }

  lemma {:induction false} WalkFrame(env: Env, m: State, budget: nat)
    requires m.Ok()
    ensures LinkKeeps(m, Walk(env, m, budget))
    decreases budget
  {
    hide WalkLink, WorkGrows;
    if budget > 0 {
      WalkLinkFrame(env, m);
      var r := WalkLink(env, m);
      if r.More? {
        WalkFrame(env, r.m, budget - 1);
        var last := Walk(env, r.m, budget - 1);
        if last.Stop? { KeepsTrans(m, r.m, last.m); }
      }
    }
  }

  lemma ContextBodyFrame(env: Env, m: State, o: u32, dataLen: u32, count: u8)
    requires m.Ok()
    ensures FrameKeeps(m, ContextBody(env, m, o, dataLen, count))
  {
    hide Walk, WorkGrows;
    if m.buf.ZeroSafe(o, dataLen) {
      WalkFrame(env, m.(buf := m.buf.Zero(o, dataLen), contextOffset := o,
                        contextMask := CaptureMask.Initial(count)), env.walkBudget);
    }
  }

  lemma ContextFrame(env: Env, m: State, dataLen: u32, typ: u32, count: u8)
    requires m.Ok()
    ensures FrameKeeps(m, ExecGoContext(env, m, dataLen, typ, count))
  {
    hide ContextBody, WorkGrows, Buf.WriteEntry, Buf.WriteEntrySafe, Read64;
    WorkSteps(m.work);
    if m.buf.InRange(m.offset + 8, 8) {
      var addr := Read64(m.buf.mem, m.offset + 8);
      var (work, isNew) := m.work.ShouldRecord(addr, typ);
      var entry := QueueEntry(typ, dataLen, addr);
      if isNew && m.buf.WriteEntrySafe(env.memory, entry) {
        WriteEntryFull(m.buf, env.memory, entry);
        WriteEntryOk(m.buf, env.memory, entry);
        var (b, r) := m.buf.WriteEntry(env.memory, entry);
        if r.Some? {
          var m1 := m.(work := work, buf := b);
          ContextBodyFrame(env, m1, r.value, dataLen, count);
          var r2 := ContextBody(env, m1, r.value, dataLen, count);
          if !r2.Crash? { KeepsTrans(m, m1, r2.m); }
        }
      }
    }
  }

  /** A link itself never runs out of budget. */
  predicate LinkFaultOnly(fault: Fault) {
    fault.BufferFault? || fault.NilFault?
  }

  lemma LinkFaults(env: Env, m: State)
    requires m.Ok()
    ensures var r := WalkLink(env, m); r.Broken? ==> LinkFaultOnly(r.fault)
  {
    hide CopyLink, Read64;
    if m.buf.InRange(m.offset, 8) {
      var (b, _) := LoadType(env, m.buf, m.offset);
      var id := LinkType(env, b, m.offset);
      if id.Some? && id.value in env.typeInfo && env.typeInfo[id.value].contextImpl.Some? {
        CopyFaults(env, m.(buf := b), id.value);
      }
    }
  }

  lemma CopyFaults(env: Env, m: State, id: u32)
    requires m.Ok() && id in env.typeInfo && env.typeInfo[id].contextImpl.Some?
    ensures var r := CopyLink(env, m, id); r.Broken? ==> LinkFaultOnly(r.fault)
  {
    hide VisitLink, Buf.WriteEntry, Buf.WriteEntrySafe, Read64;
    if m.buf.InRange(m.offset, 16) {
      var entry := QueueEntry(id, env.typeInfo[id].byteLen, Read64(m.buf.mem, m.offset + 8));
      if m.buf.WriteEntrySafe(env.memory, entry) {
        WriteEntryOk(m.buf, env.memory, entry);
        var (b, r) := m.buf.WriteEntry(env.memory, entry);
        if r.Some? {
          VisitFaults(env, m.(buf := b, offset := r.value), env.typeInfo[id].contextImpl.value);
        }
      }
    }
  }

  lemma VisitFaults(env: Env, m: State, impl: ContextImpl)
    requires m.Ok()
    ensures var r := VisitLink(env, m, impl); r.Broken? ==> LinkFaultOnly(r.fault)
  {
    hide RecordContextValue, ResolveAny;
    forall m1: State, spec, v, expected | m1.Ok()
      ensures var r := RecordContextValue(m1, spec, v, expected); r.Crash? ==> LinkFaultOnly(r.fault)
    {
      RecordFaults(m1, spec, v, expected);
    }
  }

  lemma RecordFaults(m: State, spec: ContextValue, v: Known, expected: u32)
    requires m.Ok()
    ensures var r := RecordContextValue(m, spec, v, expected); r.Crash? ==> LinkFaultOnly(r.fault)
  {
  }

  // ---------------------------------------------------------------------------------------
  // Enqueueing

  lemma EnqueueFrame(env: Env, m: State, op: Op)
    requires m.Ok() && IsEnqueue(op) && !op.EnqueueHMapHeader? && !op.EnqueueSubroutine?
    ensures FrameKeeps(m, ExecEnqueue(env, m, op))
  {
    hide WorkGrows, Work.Push, Read64, Le64, Wrap32, Fetch, Splice;
    WorkSteps(m.work);
  }

  lemma SubroutineFrame(env: Env, m: State)
    requires m.Ok()
    ensures FrameKeeps(m, ExecSubroutine(env, m))
  {
    hide WorkGrows, Work.Push, Buf.WriteEntry, Buf.WriteEntrySafe, Search;
    WorkSteps(m.work);
    if m.buf.InRange(m.offset, 8) {
      var entry := QueueEntry(env.unresolvedSubroutine, 8, Read64(m.buf.mem, m.offset));
      if m.buf.WriteEntrySafe(env.memory, entry) { WriteEntryFull(m.buf, env.memory, entry); }
    }
  }

  /** A map header zeroes the top of the stack. */
  lemma HMapFrame(env: Env, m: State, typ: u32, n: u32, a: u8, b: u8, c: u8, d: u8)
    requires m.Ok()
    ensures var r := ExecHMapHeader(m, typ, n, a, b, c, d);
            || r.Crash?
            || (m.stack != [] && r.Next? && Keeps(ReplaceTop(m, 0), r.m) && SameFrame(m, r.m) && r.m.buf == m.buf)
  {
    hide WorkGrows, BucketsEnqueued, Read64, Wrap32;
    if m.stack != [] {
      forall addr: u64, oldAddr: u64, same: bool, log: u8
        ensures WorkGrows(m.work, BucketsEnqueued(ReplaceTop(m, 0), addr, oldAddr, same, log, typ, n).work)
      {
        BucketsGrow(ReplaceTop(m, 0), addr, oldAddr, same, log, typ, n);
      }
    }
  }

  lemma BucketsGrow(m: State, addr: u64, oldAddr: u64, same: bool, log: u8, typ: u32, n: u32)
    ensures WorkGrows(m.work, BucketsEnqueued(m, addr, oldAddr, same, log, typ, n).work)
  {
    hide WorkGrows, Work.Push, Buckets, Wrap32;
    WorkSteps(m.work);
    var w1 := if addr == 0 then m.work else m.work.Push(addr, typ, Wrap32(Buckets(log) * n));
    WorkSteps(w1);
    var w2 := BucketsEnqueued(m, addr, oldAddr, same, log, typ, n).work;
    assert WorkGrows(w1, w2);
    WorkTrans(m.work, w1, w2);
  }

  // ---------------------------------------------------------------------------------------
  // Frames and expressions

  lemma DataFrame(env: Env, depth: u32, m: State, op: Op)
    requires m.Ok() && IsData(op) && !op.DereferencePtr?
    ensures OutcomeKeeps(m, ExecData(env, depth, m, op))
  {
    WorkSteps(m.work);
    hide WorkGrows;
  }

  /** A dereference either continues with the control state unchanged, or returns. */
  lemma DereferencePtrFrame(env: Env, m: State, bias: u32, byteLen: u32) returns (closed: State)
    requires m.Ok()
    ensures closed.Ok() && Keeps(m, closed)
    ensures var r := ExecDereferencePtr(env, m, bias, byteLen);
            r == ExecReturn(env, closed) || (OutcomeKeeps(m, r) && !r.Done?
              && (r.Crash? ==> r.fault.BufferFault?))
  {
    WorkSteps(m.work);
    hide WorkGrows, Buf.WriteEntry, Buf.WriteEntrySafe, ExecReturn, Read64;
    closed := m.(buf := m.buf.Truncate(m.resultsEnd));
    if m.buf.InRange(m.offset, 8) {
      var addr := Wrap64(Read64(m.buf.mem, m.offset) + bias);
      if addr != 0 { closed := DereferencedFrame(env, m, addr, bias, byteLen); }
    }
  }

  lemma DereferencedFrame(env: Env, m: State, addr: u64, bias: u32, byteLen: u32) returns (closed: State)
    requires m.Ok() && m.buf.InRange(m.offset, 8)
    requires addr == Wrap64(Read64(m.buf.mem, m.offset) + bias) != 0
    ensures closed.Ok() && Keeps(m, closed)
    ensures var r := ExecDereferencePtr(env, m, bias, byteLen);
            r == ExecReturn(env, closed) || (OutcomeKeeps(m, r) && !r.Done?
              && (r.Crash? ==> r.fault.BufferFault?))
  {
    WorkSteps(m.work);
    hide WorkGrows, Buf.WriteEntry, Buf.WriteEntrySafe, ExecReturn, Read64;
    var entry := QueueEntry(0, byteLen, addr);
    if !m.buf.WriteEntrySafe(env.memory, entry) {
      return m;
    }
    WriteEntryFull(m.buf, env.memory, entry);
    WriteEntryOk(m.buf, env.memory, entry);
    var (b, _) := m.buf.WriteEntry(env.memory, entry);
    closed := m.(buf := b.Truncate(m.resultsEnd));
  }

  // ---------------------------------------------------------------------------------------
  // Every step

  ghost predicate BufferMonotone(m: State, m': State) {
    (m.buf.full ==> m'.buf.full) && WorkGrows(m.work, m'.work)
  }

  /** Over every instruction, from every state: the length and the end of the results stay within
    * the capacity, an overflow is never forgotten, and no worklist entry is lost or repeated. */
  lemma StepIsMonotone(env: Env, depth: u32, m: State)
    requires m.Ok()
    ensures var r := Step(env, depth, m);
            r.Crash? || (r.m.Ok() && |r.m.buf.mem| == |m.buf.mem| && BufferMonotone(m, r.m))
  {
    match Decode(env.prog, m.pc) {
      case None =>
      case Some((op, next)) => ExecIsMonotone(env, depth, m.(pc := next), op);
    }
    hide Exec, Decode, WorkGrows;
  }

  lemma ExecIsMonotone(env: Env, depth: u32, m: State, op: Op)
    requires m.Ok()
    ensures var r := Exec(env, depth, m, op); r.Crash? || BufferMonotone(m, r.m)
  {
    hide WorkGrows, ExecGoContext, ExecHMapHeader, ExecSubroutine, ExecDereferencePtr;
    if IsControl(op) {
      WorkSteps(m.work);
    } else if IsEnqueue(op) {
      match op {
        case EnqueueHMapHeader(t, n, a, b, c, d) => HMapFrame(env, m, t, n, a, b, c, d);
        case EnqueueSubroutine => SubroutineFrame(env, m);
        case _ => EnqueueFrame(env, m, op);
      }
    } else if op.DereferencePtr? {
      var closed := DereferencePtrFrame(env, m, op.bias, op.byteLen);
    } else if IsData(op) {
      DataFrame(env, depth, m, op);
    } else {
      ContextFrame(env, m, op.dataByteLen, op.typeID, op.captureCount);
    }
  }

  lemma {:induction false} IterateIsMonotone(env: Env, depth: u32, m: State, fuel: nat)
    requires m.Ok()
    ensures var r := Iterate(env, depth, m, fuel); r.Crash? || BufferMonotone(m, r.m)
    decreases fuel
  {
    hide Step, WorkGrows;
    WorkSteps(m.work);
    if fuel > 0 {
      StepIsMonotone(env, depth, m);
      var r := Step(env, depth, m);
      if r.Next? {
        IterateIsMonotone(env, depth, r.m, fuel - 1);
        var last := Iterate(env, depth, r.m, fuel - 1);
        if !last.Crash? { WorkTrans(m.work, r.m.work, last.m.work); }
      }
    }
  }

  /** A whole run never forgets an overflow and only grows the worklist. */
  lemma RunIsMonotone(env: Env, m: State, pc: u32, cfa: u64, depth: u32, offset: u32)
    requires m.Ok()
    ensures var r := Run(env, m, pc, cfa, depth, offset); r.Crash? || BufferMonotone(m, r.m)
  {
    hide Iterate, WorkGrows;
    WorkSteps(m.work);
    if pc < |env.prog| {
      IterateIsMonotone(env, depth, m.(pc := pc, cfa := cfa, offset := offset), FUEL);
    }
  }
}
