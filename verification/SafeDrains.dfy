/** Types whose references are read inside their objects: while there is room, draining the worklist
  * over them does not fault. */
module SafeDrains {
  import opened Words
  import opened Wrappers
  import opened Worklist
  import opened Buffer
  import opened BufferFacts
  import opened Machine
  import opened Runs
  import opened FramedRun
  import opened FrameTypes
  import opened FramePrograms
  import opened Draining
  import opened DrainPrograms
  import opened WholeOutput
  import Bytes
  import Containment
  import SafePrograms
  import TypedRuns
  import opened D = Decoder

  /** Where in an object of n bytes the offset is after an instruction that reads only in it, and
    * writes only in its first w bytes; none if it may do so elsewhere. */
  function ReadAfter(op: Op, at: nat, n: nat, w: nat): Option<nat> {
    match op
    case AdvanceOffset(i) => if at + i <= n then Some(at + i) else None
    case Nothing(_) => Some(at)
    case EnqueuePointer(t) => if t != 0 && at + 8 <= n then Some(at) else None
    case EnqueueSliceHeader(_, _) => if at + 16 <= n then Some(at) else None
    case EnqueueStringHeader(_) => if at + 16 <= n then Some(at) else None
    case EnqueueEmptyInterface => if at + 16 <= n && at + 8 <= w then Some(at) else None
    case EnqueueInterface => if at + 16 <= n && at + 8 <= w then Some(at) else None
    case EnqueueSwissMap(_, _, p, l) => if at + p + 8 <= n && at + l + 8 <= n then Some(at) else None
    case EnqueueSwissMapGroups(_, _, d, k) => if at + d + 8 <= n && at + k + 8 <= n then Some(at) else None
    case _ => None
  }

  /** Instructions that only read n bytes, and a return. */
  predicate ReadsInside(ops: seq<Op>, at: nat, n: nat, w: nat)
    decreases |ops|
  {
    ops != [] &&
    if ops[0].Return? then |ops| == 1
    else ReadAfter(ops[0], at, n, w).Some? && ReadsInside(ops[1..], ReadAfter(ops[0], at, n, w).value, n, w)
  }

  lemma {:induction false} InsideIsQuiet(ops: seq<Op>, at: nat, n: nat, w: nat, place: Option<nat>)
    requires ReadsInside(ops, at, n, w) && w <= n && place == (if at <= w then Some(at) else None)
    ensures Quiet(ops, place, w)
    decreases |ops|
  {
    if !ops[0].Return? {
      InsideIsQuiet(ops[1..], ReadAfter(ops[0], at, n, w).value, n, w, PlaceAfter(ops[0], place, w).value);
    }
  }

  /** The machine is at that place among the n bytes at start. */
  ghost predicate Inside(m: State, at: nat, n: nat, start: nat) {
    m.Ok() && at <= n && start + n <= |m.buf.mem| && m.offset == start + at
  }

  lemma ReadingIsSafe(env: Env, depth: u32, m: State, op: Op, at: nat, n: nat, w: nat, start: nat)
    requires Inside(m, at, n, start) && ReadAfter(op, at, n, w).Some?
    ensures !op.Return?
    ensures var r := Exec(env, depth, m, op);
            && r.Next? && Inside(r.m, ReadAfter(op, at, n, w).value, n, start)
            && r.m.stack == m.stack && r.m.pc == m.pc
  {
    assert Plain(op) && (IsControl(op) || IsEnqueue(op));
    PlainEffects(env, depth, m, op);
    hide ExecControl, ExecEnqueue;
    if IsControl(op) {
      Advancing(env, m, op, at, n, w, start);
    } else {
      EnqueueKeepsOffset(env, m, op);
      EnqueueingIsSafe(env, m, op, at, n, w, start);
    }
    hide Exec, ReadAfter;
    TypedRuns.FallsThrough(env, depth, m, op);
  }

  lemma Advancing(env: Env, m: State, op: Op, at: nat, n: nat, w: nat, start: nat)
    requires Inside(m, at, n, start) && ReadAfter(op, at, n, w).Some? && IsControl(op)
    ensures var r := ExecControl(env, m, op); r.Next? && Inside(r.m, ReadAfter(op, at, n, w).value, n, start)
  {
    if op.AdvanceOffset? { WrapSmall(m.offset + op.increment); }
    hide Wrap32;
  }

  lemma EnqueueingIsSafe(env: Env, m: State, op: Op, at: nat, n: nat, w: nat, start: nat)
    requires Inside(m, at, n, start) && ReadAfter(op, at, n, w).Some? && IsEnqueue(op)
    ensures ExecEnqueue(env, m, op).Next?
  {
    if op.EnqueueSwissMap? {
      WrapSmall(m.offset + op.dirPtrOffset);
      WrapSmall(m.offset + op.dirLenOffset);
      hide Bytes.Read64, Wrap32, Work.Push;
    } else if op.EnqueueSwissMapGroups? {
      WrapSmall(m.offset + op.dataOffset);
      WrapSmall(m.offset + op.lengthMaskOffset);
      hide Bytes.Read64, Wrap32, Work.Push;
    } else {
      hide ExecEnqueue;
      SafePrograms.ReadIsSafe(env, m, op);
    }
  }

  /** A run that reads inside the object returns true. */
  lemma {:induction false} ReadingRuns(env: Env, depth: u32, m: State, ops: seq<Op>, at: nat, n: nat, w: nat,
                                       start: nat, fuel: nat)
    requires Inside(m, at, n, start) && m.stack == [] && ReadsInside(ops, at, n, w)
    requires Follows(env.prog, m.pc, ops) && |ops| <= fuel
    ensures var r := Iterate(env, depth, m, fuel); r.Done? && r.ok
    decreases |ops|
  {
    hide Decode, Follows, Exec, Iterate, ReadAfter;
    FetchedIs(env, m, ops);
    var m1, op := Fetched(env, m), ops[0];
    SafePrograms.StepIs(env, depth, m, ops);
    hide Fetched;
    IterateOnce(env, depth, m, fuel);
    if op.Return? {
      ReturnEnds(env, depth, m1);
    } else {
      ReadingIsSafe(env, depth, m1, op, at, n, w, start);
      var r := Exec(env, depth, m1, op);
      ReadingRuns(env, depth, r.m, ops[1..], ReadAfter(op, at, n, w).value, n, w, start, fuel - 1);
    }
  }

  // ---------------------------------------------------------------------------------------
  // Draining over such types

  ghost predicate ReadsAt(env: Env, pc: u32, n: nat, w: nat, ops: seq<Op>) {
    ReadsInside(ops, 0, n, w) && Follows(env.prog, pc, ops) && |ops| <= FUEL
  }

  /** How many bytes may be read from the offset at which the program of a type starts. */
  function Room(ti: TypeInfo): nat {
    if ti.serializeBeforeEnqueue then ti.byteLen else SNAPSHOT_HEADER
  }

  /** The references of the type are read inside its object or, if it has none in the output, inside
    * the snapshot header, where the offset is then. */
  ghost predicate SafeType(env: Env, ti: TypeInfo) {
    && Small(ti.byteLen)
    && (|| ti.enqueuePc == 0 || ti.enqueuePc >= |env.prog|
        || exists ops :: ReadsAt(env, ti.enqueuePc, Room(ti), Writable(ti), ops))
  }

  ghost predicate SafeTypes(env: Env) {
    forall id :: id in env.typeInfo ==> SafeType(env, env.typeInfo[id])
  }

  lemma SafeIsQuiet(env: Env)
    requires SafeTypes(env)
    ensures QuietTypes(env)
  {
    hide Follows, ReadsInside, Quiet;
    forall id | id in env.typeInfo ensures QuietType(env, env.typeInfo[id]) {
      var ti := env.typeInfo[id];
      assert SafeType(env, ti);
      if ti.enqueuePc != 0 && ti.enqueuePc < |env.prog| {
        var ops :| ReadsAt(env, ti.enqueuePc, Room(ti), Writable(ti), ops);
        InsideIsQuiet(ops, 0, Room(ti), Writable(ti), Some(0));
        assert QuietAt(env, ti.enqueuePc, Writable(ti), ops);
      }
    }
  }

  /** There is room for a whole object of the entry's type. */
  predicate Roomy(env: Env, m: State, e: QueueEntry)
    requires m.Ok()
  {
    e.typ in env.typeInfo ==>
      env.typeInfo[e.typ].serializeBeforeEnqueue && Clamped(e, env.typeInfo[e.typ]).len > 0 ==>
        !Containment.Refused(m.buf, env.typeInfo[e.typ].byteLen)
  }

  /** There is room for every object. */
  ghost predicate AllRoomy(env: Env, m: State)
    requires m.Ok() && m.work.Inv()
    decreases Unseen(m.work), |m.work.fifo|
  {
    hide ProcessEntry, Drains, Work.Inv, Roomy;
    m.buf.full || m.work.fifo == [] ||
    (&& Roomy(env, Popped(m), m.work.fifo[0])
     && (EntryMakesProgress(env, m);
         var r := ProcessEntry(env, Popped(m), m.work.fifo[0]);
         r.Done? ==> AllRoomy(env, r.m)))
  }

  lemma RoomyFits(env: Env, m: State, e: QueueEntry)
    requires m.Ok() && Roomy(env, m, e) && SafeTypes(env)
    ensures Fits(env, m, e)
  {
    hide SafeType;
    if e.typ in env.typeInfo {
      var ti := env.typeInfo[e.typ];
      assert Small(ti.byteLen) by { SafeIsSmall(env, ti); }
      if !Containment.Refused(m.buf, ti.byteLen) { SmallerFits(m.buf, Clamped(e, ti).len, ti.byteLen); }
    }
  }

  lemma SafeIsSmall(env: Env, ti: TypeInfo)
    requires SafeType(env, ti)
    ensures Small(ti.byteLen)
  {
  }

  lemma SmallerFits(b: Buf, k: u32, n: u32)
    requires b.Ok() && k <= n && Small(n) && !Containment.Refused(b, n)
    ensures !Containment.Refused(b, k)
    ensures b.len + ENTRY_HEADER + n <= |b.mem|
  {
    SmallSize(b.len, n);
    SmallSize(b.len, k);
    hide Pad8, Wrap32;
    PadGrows(k, n);
  }

  lemma PadGrows(k: u32, n: u32)
    requires k <= n && Small(n)
    ensures Pad8(k) <= Pad8(n)
  {
  }

  lemma {:induction false} RoomyIsFit(env: Env, m: State)
    requires m.Ok() && m.work.Inv() && SafeTypes(env) && AllRoomy(env, m)
    ensures AllFit(env, m)
    decreases Unseen(m.work), |m.work.fifo|
  {
    hide ProcessEntry, Drains, Work.Inv, Roomy, Fits, SafeTypes;
    if !m.buf.full && m.work.fifo != [] {
      EntryMakesProgress(env, m);
      RoomyFits(env, Popped(m), m.work.fifo[0]);
      var r := ProcessEntry(env, Popped(m), m.work.fifo[0]);
      if r.Done? { RoomyIsFit(env, r.m); }
    }
  }

  lemma ReferencesAreSafe(env: Env, m: State, e: QueueEntry, ti: TypeInfo, offset: u32)
    requires m.Ok() && m.stack == [] && SafeType(env, ti)
    requires offset + Room(ti) <= |m.buf.mem|
    ensures EnqueueReferences(env, m, e, ti.enqueuePc, offset).Done?
  {
    hide Iterate, Follows, ReadsInside;
    if ti.enqueuePc != 0 && ti.enqueuePc < |env.prog| {
      var n, w := Room(ti), Writable(ti);
      var ops :| ReadsAt(env, ti.enqueuePc, n, w, ops);
      var start := m.(chased := e, pc := ti.enqueuePc, cfa := 0, offset := offset);
      assert Inside(start, 0, n, offset);
      ReadingRuns(env, 0, start, ops, 0, n, w, offset, FUEL);
    }
  }

  lemma ObjectNeverFaults(env: Env, m: State, c: QueueEntry, ti: TypeInfo)
    requires m.Ok() && !m.buf.full && m.stack == [] && SNAPSHOT_HEADER <= |m.buf.mem|
    requires SafeType(env, ti) && c.len <= ti.byteLen
    requires ti.serializeBeforeEnqueue && c.len > 0 ==> !Containment.Refused(m.buf, ti.byteLen)
    ensures ProcessObject(env, m, c, ti).Done?
  {
    hide EnqueueReferences, Buf.WriteEntry, Buf.WriteEntrySafe, Containment.Refused, SafeType;
    if c.len > 0 && ti.serializeBeforeEnqueue {
      SafeIsSmall(env, ti);
      SmallerFits(m.buf, c.len, ti.byteLen);
      EntryLands(m.buf, env.memory, c);
      var (b, r) := m.buf.WriteEntry(env.memory, c);
      if r.Some? { ReferencesAreSafe(env, m.(buf := b), c, ti, r.value); }
    } else if c.len > 0 {
      ReferencesAreSafe(env, m, c, ti, 0);
    }
  }

  lemma EntryLands(b: Buf, mem: Memory, e: QueueEntry)
    requires b.Ok() && !b.full && Small(e.len) && !Containment.Refused(b, e.len)
    ensures b.WriteEntrySafe(mem, e)
    ensures var (b', r) := b.WriteEntry(mem, e);
            b'.Ok() && |b'.mem| == |b.mem| && (r.Some? ==> r.value == b.len + ENTRY_HEADER)
  {
    hide Buf.WriteEntry, Buf.WriteEntrySafe;
    Containment.SmallIsAccommodated(b, e.len);
    Containment.AcceptedEntryIsLocal(b, mem, e);
    WriteEntryFits(b, mem, e);
  }

  /** Draining over such types, with room for their objects, ends without a fault. */
  lemma {:induction false} DrainNeverFaults(env: Env, m: State, l: Layout)
    requires m.Ok() && m.work.Inv() && m.stack == [] && SNAPSHOT_HEADER <= |m.buf.mem| && (m.buf.full || Filled(m, l))
    requires SafeTypes(env) && AllRoomy(env, m)
    ensures Process(env, m).Done?
    decreases Unseen(m.work), |m.work.fifo|
  {
    hide ProcessObject, Drains, Work.Inv, SafeType, Containment.Refused, Process, Layout.End, EntriesOnly,
         QuietTypes, Roomy;
    ProcessOnce(env, m);
    SafeIsQuiet(env);
    if !m.buf.full && m.work.fifo != [] {
      EntryMakesProgress(env, m);
      var e := m.work.fifo[0];
      EntryNeverFaults(env, Popped(m), e);
      RoomyFits(env, Popped(m), e);
      EntryIsQuiet(env, Popped(m), e, l);
      var r := ProcessEntry(env, Popped(m), e);
      DrainNeverFaults(env, r.m, EntryLayout(env, Popped(m), e, l, false).0);
    }
  }

  lemma EntryNeverFaults(env: Env, m: State, e: QueueEntry)
    requires m.Ok() && !m.buf.full && m.stack == [] && SNAPSHOT_HEADER <= |m.buf.mem|
    requires SafeTypes(env) && Roomy(env, m, e)
    ensures ProcessEntry(env, m, e).Done?
  {
    hide ProcessObject, SafeType, Containment.Refused;
    if e.typ in env.typeInfo { ObjectNeverFaults(env, m, Clamped(e, env.typeInfo[e.typ]), env.typeInfo[e.typ]); }
  }
}
