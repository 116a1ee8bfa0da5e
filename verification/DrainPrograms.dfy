/** Programs that enqueue the references of an object: they read it, and resolve its interfaces in
  * place, so the objects behind the goroutine section add up whenever there is room for them. */
module DrainPrograms {
  import opened Words
  import opened Wrappers
  import opened Worklist
  import opened Buffer
  import opened BufferFacts
  import opened Machine
  import opened Runs
  import opened Alignment
  import opened Framing
  import opened FramedRun
  import opened Containment
  import opened Draining
  import opened Accounting
  import opened FrameTypes
  import opened FramePrograms
  import opened WholeOutput
  import TypedRuns
  import MachineFrame
  import opened D = Decoder

  /** Where in its object of n bytes the offset is, if that is known, after an instruction that only
    * reads the output, or that resolves an interface inside the object; none if it does anything
    * else. */
  function PlaceAfter(op: Op, at: Option<nat>, n: nat): Option<Option<nat>> {
    match op
    case AdvanceOffset(i) => Some(if at.Some? && at.value + i <= n then Some(at.value + i) else None)
    case Nothing(_) => Some(at)
    case EnqueuePointer(t) => if t != 0 then Some(at) else None
    case EnqueueSliceHeader(_, _) => Some(at)
    case EnqueueStringHeader(_) => Some(at)
    case EnqueueSwissMap(_, _, _, _) => Some(at)
    case EnqueueSwissMapGroups(_, _, _, _) => Some(at)
    case EnqueueEmptyInterface => if at.Some? && at.value + 8 <= n then Some(at) else None
    case EnqueueInterface => if at.Some? && at.value + 8 <= n then Some(at) else None
    case _ => None
  }

  /** Such instructions, and a return. */
  predicate Quiet(ops: seq<Op>, at: Option<nat>, n: nat)
    decreases |ops|
  {
    ops != [] &&
    if ops[0].Return? then |ops| == 1
    else PlaceAfter(ops[0], at, n).Some? && Quiet(ops[1..], PlaceAfter(ops[0], at, n).value, n)
  }

  /** The n bytes at start are data, and the offset is at that place among them. */
  ghost predicate AtPlace(m: State, at: Option<nat>, n: nat, start: nat, l: Layout) {
    && m.Ok() && l.DataAt(start, n) && start + n < 0x1_0000_0000
    && (at.Some? ==> at.value <= n && m.offset == start + at.value)
  }

  lemma {:induction false} AvoidsPart(lo: nat, es: seq<QueueEntry>, off: int, n: nat, at: nat, k: nat)
    requires Avoids(lo, es, off, n) && at + k <= n
    ensures Avoids(lo, es, off + at, k)
    decreases |es|
  {
    if es != [] { AvoidsPart(lo + EntrySize(es[0].len), es[1..], off, n, at, k); }
  }

  lemma PartIsData(l: Layout, off: nat, n: nat, at: nat, k: nat)
    requires l.DataAt(off, n) && at + k <= n
    ensures l.DataAt(off + at, k)
  {
    if n > 0 { AvoidsPart(l.Tail(), l.entries, off, n, at, k); }
  }

  lemma QuietIsOrderly(env: Env, m: State, op: Op, m': State, at: Option<nat>, n: nat, start: nat, l: Layout,
                       open: bool)
    requires AtPlace(m, at, n, start, l) && (PlaceAfter(op, at, n).Some? || op.Return?)
    ensures Orderly(env, m, op, l, open) && LayoutAfter(env, m, op, m', l) == l && OpenAfter(env, m, op, open) == open
    ensures !WritesEntry(op)
  {
    if op.EnqueueEmptyInterface? || op.EnqueueInterface? { PartIsData(l, start, n, at.value, 8); }
    hide Layout.DataAt;
  }

  /** Such an instruction goes on or faults; it leaves the stack and the length of the output. */
  lemma QuietGoesOn(env: Env, depth: u32, m: State, op: Op, at: Option<nat>, n: nat, start: nat, l: Layout)
    requires AtPlace(m, at, n, start, l) && PlaceAfter(op, at, n).Some?
    ensures var r := Exec(env, depth, m, op);
            && !r.Done?
            && (r.Next? ==>
                  && r.m.stack == m.stack && r.m.buf.len == m.buf.len
                  && AtPlace(r.m, PlaceAfter(op, at, n).value, n, start, l))
  {
    hide ExecControl, ExecEnqueue, Layout.DataAt;
    assert Plain(op) && (IsControl(op) || IsEnqueue(op));
    PlainEffects(env, depth, m, op);
    if IsControl(op) {
      Advancing(env, m, op, at, n, start, l);
    } else {
      hide PlaceAfter;
      EnqueueKeepsOffset(env, m, op);
      EnqueueKeepsLength(env, m, op);
    }
  }

  lemma Advancing(env: Env, m: State, op: Op, at: Option<nat>, n: nat, start: nat, l: Layout)
    requires AtPlace(m, at, n, start, l) && PlaceAfter(op, at, n).Some? && IsControl(op)
    ensures var r := ExecControl(env, m, op);
            r.Next? && r.m.buf.len == m.buf.len && AtPlace(r.m, PlaceAfter(op, at, n).value, n, start, l)
  {
    hide Layout.DataAt;
    if op.AdvanceOffset? && m.offset + op.increment < 0x1_0000_0000 { WrapSmall(m.offset + op.increment); }
    hide Wrap32;
  }

  lemma EnqueueKeepsLength(env: Env, m: State, op: Op)
    requires m.Ok() && Plain(op) && IsEnqueue(op)
    ensures var r := ExecEnqueue(env, m, op); !r.Done? && (r.Next? ==> r.m.buf.len == m.buf.len)
  {
    EnqueueGoesOn(env, m, op);
    hide Bytes.Read64, Bytes.Le64, Wrap32, Work.Push, LoadType;
    if m.buf.InRange(m.offset, 8) { MachineFrame.LoadTypeIsLocal(env, m.buf, m.offset); }
  }

  /** A quiet run is contained, leaves the layout and the length of the output as they are, and
    * returns true unless it faults. */
  lemma {:induction false} QuietRuns(env: Env, depth: u32, m: State, ops: seq<Op>, at: Option<nat>, n: nat, start: nat,
                                     l: Layout, open: bool, fuel: nat)
    requires AtPlace(m, at, n, start, l) && m.stack == []
    requires Follows(env.prog, m.pc, ops) && Quiet(ops, at, n) && |ops| <= fuel
    ensures Contained(env, depth, m, l, open, fuel) && FinalLayout(env, depth, m, l, open, fuel) == (l, open)
    ensures var r := Iterate(env, depth, m, fuel); r.Done? ==> r.ok && r.m.stack == [] && r.m.buf.len == m.buf.len
    decreases |ops|
  {
    hide Decode, Follows, Contained, Iterate, FinalLayout, Exec, Orderly, LayoutAfter, OpenAfter, Layout.DataAt,
         PlaceAfter;
    FetchedIs(env, m, ops);
    var m1, op := Fetched(env, m), ops[0];
    hide Fetched;
    var r := Exec(env, depth, m1, op);
    QuietIsOrderly(env, m1, op, if r.Crash? then m1 else r.m, at, n, start, l, open);
    if op.Return? {
      ReturnEnds(env, depth, m1);
    } else {
      QuietGoesOn(env, depth, m1, op, at, n, start, l);
      if r.Next? {
        QuietFallsThrough(env, depth, m1, op, at, n);
        QuietRuns(env, depth, r.m, ops[1..], PlaceAfter(op, at, n).value, n, start, l, open, fuel - 1);
      }
    }
    ContainedStep(env, depth, m, ops, l, open, fuel);
  }

  lemma QuietFallsThrough(env: Env, depth: u32, m: State, op: Op, at: Option<nat>, n: nat)
    requires m.Ok() && PlaceAfter(op, at, n).Some?
    ensures var r := Exec(env, depth, m, op); r.Next? ==> r.m.pc == m.pc
  {
    hide Exec;
    TypedRuns.FallsThrough(env, depth, m, op);
  }

  // ---------------------------------------------------------------------------------------
  // Draining with such programs

  ghost predicate QuietAt(env: Env, pc: u32, n: nat, ops: seq<Op>) {
    Quiet(ops, Some(0), n) && Follows(env.prog, pc, ops) && |ops| <= FUEL
  }

  /** How many bytes there are to write to where the program of a type starts. */
  function Writable(ti: TypeInfo): nat {
    if ti.serializeBeforeEnqueue then ti.byteLen else 0
  }

  ghost predicate QuietType(env: Env, ti: TypeInfo) {
    && Small(ti.byteLen)
    && (ti.enqueuePc == 0 || ti.enqueuePc >= |env.prog| || exists ops :: QuietAt(env, ti.enqueuePc, Writable(ti), ops))
  }

  ghost predicate QuietTypes(env: Env) {
    forall id :: id in env.typeInfo ==> QuietType(env, env.typeInfo[id])
  }

  /** There is room for the object of an entry. */
  predicate Fits(env: Env, m: State, e: QueueEntry)
    requires m.Ok()
  {
    e.typ in env.typeInfo ==>
      var c := Clamped(e, env.typeInfo[e.typ]);
      env.typeInfo[e.typ].serializeBeforeEnqueue && c.len > 0 ==> !Refused(m.buf, c.len)
  }

  /** There is room for every object. */
  ghost predicate AllFit(env: Env, m: State)
    requires m.Ok() && m.work.Inv()
    decreases Unseen(m.work), |m.work.fifo|
  {
    hide ProcessEntry, Drains, Work.Inv, Fits;
    m.buf.full || m.work.fifo == [] ||
    (&& Fits(env, Popped(m), m.work.fifo[0])
     && (EntryMakesProgress(env, m);
         var r := ProcessEntry(env, Popped(m), m.work.fifo[0]);
         r.Done? ==> AllFit(env, r.m)))
  }

  lemma ReferencesAreQuiet(env: Env, m: State, e: QueueEntry, ti: TypeInfo, offset: u32, l: Layout)
    requires m.Ok() && m.stack == [] && QuietType(env, ti)
    requires offset < 0x8000_0000 && l.DataAt(offset, Writable(ti))
    ensures ReferencesContained(env, m, e, ti.enqueuePc, offset, l, false)
    ensures ReferencesLayout(env, m, e, ti.enqueuePc, offset, l, false) == (l, false)
    ensures var r := EnqueueReferences(env, m, e, ti.enqueuePc, offset);
            r.Done? ==> r.m.stack == [] && r.m.buf.len == m.buf.len
  {
    hide Contained, FinalLayout, Iterate, Follows, Layout.DataAt;
    if ti.enqueuePc != 0 && ti.enqueuePc < |env.prog| {
      var ops :| QuietAt(env, ti.enqueuePc, Writable(ti), ops);
      QuietRuns(env, 0, Starting(m.(chased := e), ti.enqueuePc, 0, offset), ops, Some(0), Writable(ti), offset, l,
                false, FUEL);
    }
  }

  /** The output is filled by complete entries. */
  predicate Filled(m: State, l: Layout) {
    EntriesOnly(l, false) && l.End() == m.buf.len
  }

  lemma {:induction false} SizeGrows(es: seq<QueueEntry>, e: QueueEntry)
    ensures EntriesSize(es + [e]) == EntriesSize(es) + EntrySize(e.len)
    decreases |es|
  {
    if es == [] {
      assert EntriesSize([e]) == EntrySize(e.len);
    } else {
      assert (es + [e])[1..] == es[1..] + [e];
      SizeGrows(es[1..], e);
    }
  }

  lemma {:induction false} LastIsData(lo: nat, es: seq<QueueEntry>, e: QueueEntry, n: nat)
    ensures Avoids(lo, es + [e], lo + EntriesSize(es) + ENTRY_HEADER, n)
    decreases |es|
  {
    if es == [] {
      assert Avoids(lo + EntrySize(e.len), [], lo + ENTRY_HEADER, n);
    } else {
      assert (es + [e])[1..] == es[1..] + [e];
      LastIsData(lo + EntrySize(es[0].len), es[1..], e, n);
    }
  }

  /** An object behind the others; what follows its header is data. */
  lemma ObjectIsData(m: State, l: Layout, c: QueueEntry, n: nat)
    requires Filled(m, l)
    ensures l.Add(c).End() == m.buf.len + EntrySize(c.len)
    ensures l.Add(c).DataAt(m.buf.len + ENTRY_HEADER, n)
  {
    SizeGrows(l.entries, c);
    LastIsData(l.Tail(), l.entries, c, n);
    hide FramesSize;
  }

  lemma ObjectIsQuiet(env: Env, m: State, c: QueueEntry, ti: TypeInfo, l: Layout)
    requires m.Ok() && !m.buf.full && m.stack == [] && QuietType(env, ti) && Filled(m, l) && Small(c.len)
    requires ti.serializeBeforeEnqueue && c.len > 0 ==> !Refused(m.buf, c.len)
    ensures ObjectContained(env, m, c, ti, l, false)
    ensures var (l', open') := ObjectLayout(env, m, c, ti, l, false);
            var r := ProcessObject(env, m, c, ti);
            !open' && (r.Done? ==> r.m.stack == [] && Filled(r.m, l'))
  {
    hide ReferencesContained, ReferencesLayout, EnqueueReferences, Buf.WriteEntry, Buf.WriteEntrySafe, Refused,
         QuietType, Layout.DataAt, Layout.End, EntrySize;
    if c.len > 0 && ti.serializeBeforeEnqueue {
      if m.buf.WriteEntrySafe(env.memory, c) {
        MachineFrame.WriteEntryOk(m.buf, env.memory, c);
        UnrefusedKeepsFlag(m.buf, env.memory, c);
        WriteEntryFits(m.buf, env.memory, c);
        var (b, r) := m.buf.WriteEntry(env.memory, c);
        ObjectIsData(m, l, Recorded(c, false), ti.byteLen);
        ObjectIsData(m, l, c, ti.byteLen);
        if r.Some? { ReferencesAreQuiet(env, m.(buf := b), c, ti, r.value, l.Add(c)); }
      }
    } else {
      assert l.DataAt(0, 0) by { NothingIsData(l); }
      if c.len > 0 { ReferencesAreQuiet(env, m, c, ti, 0, l); }
    }
  }

  lemma NothingIsData(l: Layout)
    ensures l.DataAt(0, 0)
  {
  }

  /** With such types the worklist is drained as the whole-output theorem needs it, exactly when there
    * is room for the objects. */
  lemma {:induction false} QuietDrainIsContained(env: Env, m: State, l: Layout)
    requires m.Ok() && m.work.Inv() && m.stack == [] && QuietTypes(env) && (m.buf.full || Filled(m, l))
    ensures DrainContained(env, m, l, false, true) <==> AllFit(env, m)
    decreases Unseen(m.work), |m.work.fifo|
  {
    hide ProcessObject, ObjectContained, ObjectLayout, Drains, Work.Inv, QuietType, Refused, Layout.End;
    if !m.buf.full && m.work.fifo != [] {
      EntryMakesProgress(env, m);
      var e := m.work.fifo[0];
      FitsIff(env, Popped(m), e, l);
      if Fits(env, Popped(m), e) {
        EntryIsQuiet(env, Popped(m), e, l);
        var r := ProcessEntry(env, Popped(m), e);
        if r.Done? {
          var (l', open') := EntryLayout(env, Popped(m), e, l, false);
          QuietDrainIsContained(env, r.m, l');
        }
      }
    }
  }

  lemma EntryIsQuiet(env: Env, m: State, e: QueueEntry, l: Layout)
    requires m.Ok() && !m.buf.full && m.stack == [] && QuietTypes(env) && Filled(m, l) && Fits(env, m, e)
    ensures EntryContained(env, m, e, l, false)
    ensures var (l', open') := EntryLayout(env, m, e, l, false);
            var r := ProcessEntry(env, m, e);
            !open' && (r.Done? ==> r.m.stack == [] && Filled(r.m, l'))
  {
    hide ProcessObject, ObjectContained, ObjectLayout, QuietType, Refused, Layout.End;
    if e.typ in env.typeInfo {
      var ti := env.typeInfo[e.typ];
      assert Small(ti.byteLen) by { TypeIsSmall(env, ti); }
      ObjectIsQuiet(env, m, Clamped(e, ti), ti, l);
    }
  }

  lemma FitsIff(env: Env, m: State, e: QueueEntry, l: Layout)
    requires m.Ok() && !m.buf.full && m.stack == [] && QuietTypes(env) && Filled(m, l)
    ensures EntryContained(env, m, e, l, false) <==> Fits(env, m, e)
  {
    hide ReferencesContained, Buf.WriteEntry, Buf.WriteEntrySafe, QuietType, Refused, Layout.End;
    if Fits(env, m, e) { EntryIsQuiet(env, m, e, l); }
  }

  lemma TypeIsSmall(env: Env, ti: TypeInfo)
    requires QuietType(env, ti)
    ensures Small(ti.byteLen)
  {
  }
}
