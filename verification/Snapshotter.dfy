/** The snapshotter of the program, over the stack machine, the output buffer, the worklist and the
  * unwinder. Its loops are proved to do what the functions on values do. */
module Snapshotters {
  import opened Words
  import opened Bytes
  import opened Wrappers
  import opened WL = Worklist
  import opened Buffer
  import opened OutBuffer
  import opened Machine
  import opened StackMachines
  import opened Records
  import opened Unwinding
  import opened Draining
  import opened Snapshots
  import Murmur

  class Snapshotter {
    const cfg: Config
    const b: OutBuf
    const q: WL.Queue
    const sm: StackMachine
    const unwinder: Unwinder
    var stacks: map<u64, seq<FrameOfInterest>>

    ghost function Value(): Shot
      reads this, sm, sm.decoder, sm.b, sm.b.out, sm.q, sm.q.q
    {
      Shot(sm.Value(), stacks)
    }

    ghost function Buffers(): set<object> {
      {unwinder, unwinder.pcBuf, unwinder.fpBuf}
    }

    ghost predicate Valid()
      reads this, sm, sm.decoder, sm.b, sm.b.out, sm.q, sm.q.Repr
    {
      && sm.Valid() && sm.b == b && sm.q == q && sm.env == cfg.env
      && SNAPSHOT_HEADER <= b.out.Length
      && unwinder.Valid() && unwinder.base == cfg.textBase
      && this !in q.Repr && sm !in q.Repr
      && Buffers() !! q.Repr && b.out !in Buffers()
    }

    constructor (cfg: Config, capacity: u32)
      requires SNAPSHOT_HEADER <= capacity < 0x8000_0000
      ensures Valid() && this.cfg == cfg
      ensures Value() == Shot(StartMachine(Buf(Zeros(capacity), 0, false), EMPTY_WORK), map[])
      ensures fresh(sm) && fresh(sm.decoder) && fresh(b) && fresh(b.out) && fresh(q) && fresh(q.Repr)
      ensures fresh(unwinder) && fresh(unwinder.pcBuf) && fresh(unwinder.fpBuf)
    {
      hide Zeros, StackMachine.Value, Unwinder.Valid, WL.Queue.Valid, WL.Queue.State,
           OutBuf.Valid, OutBuf.Value;
      this.cfg, stacks := cfg, map[];
      var frames := new Unwinder(cfg.textBase);
      var out := new OutBuf(capacity);
      var work := new WL.Queue();
      b, q, unwinder := out, work, frames;
      sm := new StackMachine(cfg.env, out, work);
    }

    /** What happened is what the result says. */
    ghost predicate Does(fault: Option<Fault>, r: ShotResult)
      reads this, sm, sm.decoder, sm.b, sm.b.out, sm.q, sm.q.q
    {
      match r
      case Taken(s) => fault.None? && Value() == s
      case Failed(f) => fault == Some(f)
    }

    ghost predicate DoesProcess(fault: Option<Fault>, r: Outcome)
      reads this, sm, sm.decoder, sm.b, sm.b.out, sm.q, sm.q.q
    {
      match r
      case Done(_, m) => fault.None? && sm.Value() == m
      case Crash(f) => fault == Some(f)
      case Next(_) => false
    }

    // -------------------------------------------------------------------------------------
    // Goroutines

    /** Adds one to a counter in the snapshot header. */
    method Count(at: nat)
      requires Valid() && at + 4 <= SNAPSHOT_HEADER
      modifies b.out
      ensures Valid()
      ensures Value() == WithBuf(old(Value()), Bump(old(Value()).m.buf, at))
    {
      hide Le32, Read32;
      var n := b.Get32(at);
      b.Put(at, Le32(Wrap32((n as int) + 1)));
    }

    /** The program for frames at a pc, by bisection of the ranges. */
    method Classify(pc: u64) returns (prog: Option<u32>)
      ensures prog == TargetProgram(cfg.classifier, pc)
    {
      var targets := cfg.classifier.targetPc;
      var lo, hi := 0, |targets|;
      while lo < hi
        invariant 0 <= lo <= hi <= |targets|
        invariant Search(targets, pc, lo, hi) == Search(targets, pc, 0, |targets|)
      {
        var h := (lo + hi) / 2;
        if pc <= targets[h] { hi := h; } else { lo := h + 1; }
      }
      if lo < |targets| && cfg.classifier.progPc[lo] != 0 {
        return Some(cfg.classifier.progPc[lo]);
      }
      prog := None;
    }

    method FramesOfInterest(pcs: seq<u64>) returns (frames: seq<FrameOfInterest>)
      requires |pcs| <= MAX_FRAMES
      ensures frames == Interesting(cfg.classifier, pcs, 0)
    {
      hide TargetProgram;
      frames := [];
      var i := 0;
      while i < |pcs|
        invariant 0 <= i <= |pcs|
        invariant frames + Interesting(cfg.classifier, pcs, i) == Interesting(cfg.classifier, pcs, 0)
      {
        var prog := Classify(pcs[i]);
        if prog.Some? {
          frames := frames + [FrameOfInterest(i, prog.value)];
        }
        i := i + 1;
      }
    }

    method VisitFrame(foi: FrameOfInterest) returns (s: Signal)
      requires Valid() && unwinder.numFrames <= MAX_FRAMES
      modifies sm, sm.decoder, b, b.out, q.Repr
      ensures Valid() && fresh(q.Repr - old(q.Repr))
      ensures !s.Continue?
      ensures sm.Does(s, RunFrame(cfg.env, old(sm.Value()), unwinder.fpBuf[..unwinder.numFrames], foi))
      ensures unwinder.fpBuf[..] == old(unwinder.fpBuf[..])
    {
      hide Machine.Run;
      if foi.idx >= unwinder.numFrames {
        return Faulted(IndexFault);
      }
      s := sm.Run(foi.pc, unwinder.fpBuf[foi.idx], foi.idx, b.len);
    }

    /** Runs the programs of the frames, from the end of the list, until one fails. */
    method VisitFrames(frames: seq<FrameOfInterest>) returns (s: Signal)
      requires Valid() && unwinder.numFrames <= MAX_FRAMES
      modifies sm, sm.decoder, b, b.out, q.Repr
      ensures Valid() && fresh(q.Repr - old(q.Repr))
      ensures !s.Continue?
      ensures sm.Does(s, RunFrames(cfg.env, old(sm.Value()), unwinder.fpBuf[..unwinder.numFrames], frames))
      ensures unwinder.fpBuf[..] == old(unwinder.fpBuf[..])
    {
      hide RunFrame, RunFrames;
      ghost var cfas := unwinder.fpBuf[..unwinder.numFrames];
      ghost var start := sm.Value();
      var rest := frames;
      s := Returned(true);
      while |rest| > 0
        invariant Valid() && fresh(q.Repr - old(q.Repr))
        invariant s == Returned(true)
        invariant unwinder.fpBuf[..] == old(unwinder.fpBuf[..])
        invariant RunFrames(cfg.env, sm.Value(), cfas, rest) == RunFrames(cfg.env, start, cfas, frames)
        decreases |rest|
      {
        RunFramesOnce(cfg.env, sm.Value(), cfas, rest);
        var foi := rest[|rest| - 1];
        rest := rest[..|rest| - 1];
        s := VisitFrame(foi);
        if s != Returned(true) {
          return;
        }
      }
      RunFramesOnce(cfg.env, sm.Value(), cfas, rest);
    }

    method SnapshotGoroutine(g: Goroutine) returns (fault: Option<Fault>)
      requires Valid()
      modifies this, sm, sm.decoder, b, b.out, q.Repr, unwinder, unwinder.pcBuf, unwinder.fpBuf
      ensures Valid() && fresh(q.Repr - old(q.Repr))
      ensures Does(fault, TakeGoroutine(cfg, old(Value()), g))
    {
      hide WriteGoroutine, Bump;
      fault := None;
      if b.isFull {
        return;
      }
      var status := Unscanned(g.status);
      if status == GDEAD {
        Count(NON_LIVE);
        return;
      }
      if status == GRUNNING {
        return;
      }
      Count(NUM_GOROUTINES);
      fault := AppendGoroutine(g, status);
    }

    method WalkGoroutine(g: Goroutine) returns (pcs: seq<u64>)
      requires Valid()
      modifies unwinder, unwinder.pcBuf, unwinder.fpBuf
      ensures Valid() && Value() == old(Value())
      ensures unwinder.numFrames <= MAX_FRAMES
      ensures Stack(pcs, unwinder.fpBuf[..unwinder.numFrames])
              == Unwind(cfg.env.memory, cfg.textBase, g.pc, g.bp, g.stackTop)
    {
      hide Unwind;
      unwinder.WalkStack(cfg.env.memory, g.pc, g.bp, g.stackTop);
      pcs := unwinder.pcBuf[..unwinder.numFrames];
    }

    method MakeHeader() returns (r: Option<u32>)
      requires Valid()
      modifies b
      ensures Valid()
      ensures var (buf, ok) := old(Value()).m.buf.EnsureLen(Wrap32(old(Value()).m.buf.len + GOROUTINE_HEADER));
              Value() == WithBuf(old(Value()), buf) && r.Some? == ok
      ensures r.Some? ==> r.value == old(Value()).m.buf.len && b.Value().InRange(r.value, GOROUTINE_HEADER)
    {
      hide Wrap32;
      r := b.WriteGoroutineHeader();
    }

    method AppendGoroutine(g: Goroutine, status: u32) returns (fault: Option<Fault>)
      requires Valid() && status == Unscanned(g.status)
      modifies this, sm, sm.decoder, b, b.out, q.Repr, unwinder, unwinder.pcBuf, unwinder.fpBuf
      ensures Valid() && fresh(q.Repr - old(q.Repr))
      ensures Does(fault, WriteGoroutine(cfg, old(Value()), g))
    {
      hide Unwind, WriteGoroutine;
      ghost var stack := Unwind(cfg.env.memory, cfg.textBase, g.pc, g.bp, g.stackTop);
      var pcs := WalkGoroutine(g);
      fault := AppendStack(g, status, pcs, stack);
    }

    method AppendStack(g: Goroutine, status: u32, pcs: seq<u64>, ghost stack: Stack) returns (fault: Option<Fault>)
      requires Valid() && status == Unscanned(g.status)
      requires unwinder.numFrames <= MAX_FRAMES && stack == Stack(pcs, unwinder.fpBuf[..unwinder.numFrames])
      requires stack == Unwind(cfg.env.memory, cfg.textBase, g.pc, g.bp, g.stackTop)
      modifies this, sm, sm.decoder, b, b.out, q.Repr
      ensures Valid() && fresh(q.Repr - old(q.Repr))
      ensures Does(fault, WriteGoroutine(cfg, old(Value()), g))
    {
      hide Unwind, Murmur.Hash, WriteWithStack, WriteData, Wrap32, Buf.EnsureLen, Unwinder.Valid;
      var stackHash := Murmur.Murmur2(pcs, 0);
      var header := MakeHeader();
      if header.None? {
        return None;
      }
      fault := AppendRecord(g, status, pcs, stack, stackHash, header.value);
    }

    method AppendRecord(g: Goroutine, status: u32, pcs: seq<u64>, ghost stack: Stack, stackHash: u64, header: u32)
      returns (fault: Option<Fault>)
      requires Valid() && status == Unscanned(g.status) && b.Value().InRange(header, GOROUTINE_HEADER)
      requires unwinder.numFrames <= MAX_FRAMES && |pcs| <= MAX_FRAMES
      requires stack == Stack(pcs, unwinder.fpBuf[..unwinder.numFrames])
      modifies this, sm, sm.decoder, b, b.out, q.Repr
      ensures Valid() && fresh(q.Repr - old(q.Repr))
      ensures Does(fault, if stackHash in old(stacks) then
                            WriteData(cfg, old(Value()), g, stack, stackHash, header, 0, old(stacks)[stackHash])
                          else WriteWithStack(cfg, old(Value()), g, stack, stackHash, header))
    {
      hide WriteWithStack, WriteData;
      if stackHash in stacks {
        fault := AppendData(g, status, stack, stackHash, header, 0, stacks[stackHash]);
      } else {
        fault := AppendWithStack(g, status, pcs, stack, stackHash, header);
      }
    }

    method AppendWithStack(g: Goroutine, status: u32, pcs: seq<u64>, ghost stack: Stack, stackHash: u64, header: u32)
      returns (fault: Option<Fault>)
      requires Valid() && status == Unscanned(g.status) && b.Value().InRange(header, GOROUTINE_HEADER)
      requires unwinder.numFrames <= MAX_FRAMES && |pcs| <= MAX_FRAMES
      requires stack == Stack(pcs, unwinder.fpBuf[..unwinder.numFrames])
      modifies this, sm, sm.decoder, b, b.out, q.Repr
      ensures Valid() && fresh(q.Repr - old(q.Repr))
      ensures Does(fault, WriteWithStack(cfg, old(Value()), g, stack, stackHash, header))
    {
      hide Interesting, Snapshots.WriteStack, WriteData;
      var stackBytes := b.WriteStack(pcs);
      if stackBytes.None? {
        return None;
      }
      var frames := FramesOfInterest(pcs);
      stacks := stacks[stackHash := frames];
      fault := AppendData(g, status, stack, stackHash, header, stackBytes.value, frames);
    }

    method AppendData(g: Goroutine, status: u32, ghost stack: Stack, stackHash: u64, header: u32, stackBytes: u32,
                      frames: seq<FrameOfInterest>) returns (fault: Option<Fault>)
      requires Valid() && status == Unscanned(g.status) && b.Value().InRange(header, GOROUTINE_HEADER)
      requires unwinder.numFrames <= MAX_FRAMES && stack.cfas == unwinder.fpBuf[..unwinder.numFrames]
      modifies sm, sm.decoder, b, b.out, q.Repr
      ensures Valid() && fresh(q.Repr - old(q.Repr))
      ensures Does(fault, WriteData(cfg, old(Value()), g, stack, stackHash, header, stackBytes, frames))
    {
      hide RunFrames, RecordBytes, Splice, Wrap32, Unwinder.Valid;
      var s := VisitFrames(frames);
      if s.Faulted? {
        return Some(s.fault);
      }
      var dataLen := Wrap32(b.len - (header + GOROUTINE_HEADER));
      FillHeader(header, Record(g.goid, stackHash, status, stackBytes, dataLen));
      fault := None;
    }

    method FillHeader(header: u32, record: Record)
      requires Valid() && b.Value().InRange(header, GOROUTINE_HEADER)
      modifies b.out
      ensures Valid()
      ensures Value() == WithBuf(old(Value()), old(Value()).m.buf.Write(header, RecordBytes(record)))
    {
      hide RecordBytes, Splice;
      b.Put(header, RecordBytes(record));
    }

    /** Takes a goroutine; one that overflows the output is cut off again. */
    method SnapshotWhole(g: Goroutine) returns (fault: Option<Fault>)
      requires Valid()
      modifies this, sm, sm.decoder, b, b.out, q.Repr, unwinder, unwinder.pcBuf, unwinder.fpBuf
      ensures Valid() && fresh(q.Repr - old(q.Repr))
      ensures Does(fault, TakeWhole(cfg, old(Value()), g))
    {
      hide TakeGoroutine;
      var before := b.len;
      fault := SnapshotGoroutine(g);
      if fault.Some? {
        return;
      }
      if b.isFull {
        b.Truncate(before);
      }
    }

    method SnapshotGoroutines(gs: seq<Goroutine>) returns (fault: Option<Fault>)
      requires Valid()
      modifies this, sm, sm.decoder, b, b.out, q.Repr, unwinder, unwinder.pcBuf, unwinder.fpBuf
      ensures Valid() && fresh(q.Repr - old(q.Repr))
      ensures Does(fault, TakeGoroutines(cfg, old(Value()), gs))
    {
      hide TakeWhole, TakeGoroutines;
      ghost var start := Value();
      fault := None;
      var i := 0;
      assert gs[0..] == gs;
      while i < |gs|
        invariant 0 <= i <= |gs|
        invariant Valid() && fresh(q.Repr - old(q.Repr)) && fault.None?
        invariant TakeGoroutines(cfg, Value(), gs[i..]) == TakeGoroutines(cfg, start, gs)
      {
        TakeOnce(cfg, Value(), gs, i);
        fault := SnapshotWhole(gs[i]);
        if fault.Some? {
          return;
        }
        i := i + 1;
      }
      TakeOnce(cfg, Value(), gs, i);
    }

    // -------------------------------------------------------------------------------------
    // The worklist

    /** Processes an entry that was just popped. */
    method ProcessPopped(popped: QueueEntry) returns (fault: Option<Fault>)
      requires Valid()
      modifies sm, sm.decoder, b, b.out, q.Repr
      ensures Valid() && fresh(q.Repr - old(q.Repr))
      ensures DoesProcess(fault, ProcessEntry(cfg.env, old(sm.Value()), popped))
    {
      hide ProcessObject;
      fault := None;
      var entry := popped;
      if entry.typ !in cfg.env.typeInfo {
        return;
      }
      var ti := cfg.env.typeInfo[entry.typ];
      if entry.len == 0 {
        entry := entry.(len := ti.byteLen);
      }
      if entry.len > ti.byteLen {
        entry := entry.(len := ti.byteLen);
      }
      fault := SerializeObject(entry, ti);
    }

    method SerializeObject(entry: QueueEntry, ti: TypeInfo) returns (fault: Option<Fault>)
      requires Valid()
      modifies sm, sm.decoder, b, b.out, q.Repr
      ensures Valid() && fresh(q.Repr - old(q.Repr))
      ensures DoesProcess(fault, ProcessObject(cfg.env, old(sm.Value()), entry, ti))
    {
      hide Draining.EnqueueReferences, Buf.WriteEntry, Buf.WriteEntrySafe;
      fault := None;
      if entry.len == 0 {
        return;
      }
      var offset := 0;
      if ti.serializeBeforeEnqueue {
        var written, inside := b.WriteQueueEntry(cfg.env.memory, entry);
        if !inside {
          return Some(BufferFault);
        }
        if written.None? {
          return;
        }
        offset := written.value;
      }
      fault := EnqueueReferences(entry, ti.enqueuePc, offset);
    }

    method EnqueueReferences(entry: QueueEntry, enqueuePc: u32, offset: u32) returns (fault: Option<Fault>)
      requires Valid()
      modifies sm, sm.decoder, b, b.out, q.Repr
      ensures Valid() && fresh(q.Repr - old(q.Repr))
      ensures DoesProcess(fault, Draining.EnqueueReferences(cfg.env, old(sm.Value()), entry, enqueuePc, offset))
    {
      hide Machine.Run;
      fault := None;
      if enqueuePc == 0 {
        return;
      }
      sm.chasedEntry := entry;
      var s := sm.Run(enqueuePc, 0, 0, offset);
      if s.Faulted? {
        fault := Some(s.fault);
      }
    }

    method PopEntry() returns (entry: QueueEntry, ok: bool)
      requires Valid()
      modifies q.Repr
      ensures Valid() && fresh(q.Repr - old(q.Repr))
      ensures ok == (old(q.State()).fifo != [])
      ensures !ok ==> sm.Value() == old(sm.Value())
      ensures ok ==> entry == old(q.State()).fifo[0] && sm.Value() == Popped(old(sm.Value()))
    {
      entry, ok := q.Pop();
    }

    /** Pops and processes an entry; false if there is none. */
    method ProcessNext() returns (fault: Option<Fault>, ok: bool)
      requires Valid() && sm.Value().work.Inv() && !b.isFull
      modifies sm, sm.decoder, b, b.out, q.Repr
      ensures Valid() && fresh(q.Repr - old(q.Repr))
      ensures ok == (old(sm.Value()).work.fifo != [])
      ensures !ok ==> fault.None? && sm.Value() == old(sm.Value())
      ensures ok ==> DoesProcess(fault, ProcessEntry(cfg.env, Popped(old(sm.Value())), old(sm.Value()).work.fifo[0]))
    {
      hide ProcessEntry, Work.Inv, Popped;
      var entry;
      entry, ok := PopEntry();
      fault := None;
      if ok {
        fault := ProcessPopped(entry);
      }
    }

    /** Drains the worklist. The loop ends because every entry makes progress. */
    method ProcessQueue() returns (fault: Option<Fault>)
      requires Valid() && sm.Value().work.Inv()
      modifies sm, sm.decoder, b, b.out, q.Repr
      ensures Valid() && fresh(q.Repr - old(q.Repr))
      ensures DoesProcess(fault, Process(cfg.env, old(sm.Value())))
    {
      hide ProcessEntry, Work.Inv, Drains, Popped, Process, Unseen;
      ghost var start := sm.Value();
      fault := None;
      while !b.isFull
        invariant Valid() && fresh(q.Repr - old(q.Repr)) && fault.None?
        invariant sm.Value().work.Inv() && Process(cfg.env, sm.Value()) == Process(cfg.env, start)
        decreases Unseen(sm.Value().work), |sm.Value().work.fifo|
      {
        ProcessOnce(cfg.env, sm.Value());
        if |sm.Value().work.fifo| > 0 { EntryMakesProgress(cfg.env, sm.Value()); }
        var ok;
        fault, ok := ProcessNext();
        if !ok || fault.Some? {
          return;
        }
      }
      ProcessOnce(cfg.env, sm.Value());
    }

    // -------------------------------------------------------------------------------------
    // The whole snapshot

    method PushStatic(v: Key)
      requires Valid()
      modifies q.Repr
      ensures Valid() && fresh(q.Repr - old(q.Repr))
      ensures q.State() == old(q.State()).Push(Wrap64(v.addr + cfg.env.bssAddrShift), v.typ, 0)
      ensures Value() == old(Value()).(m := old(Value()).m.(work := q.State()))
    {
      hide Work.Push, Wrap64;
      q.Push(Wrap64(v.addr + cfg.env.bssAddrShift), v.typ, 0);
    }

    /** Queues the static variables, at the addresses they were loaded to. */
    method PushStatics()
      requires Valid()
      modifies q.Repr
      ensures Valid() && fresh(q.Repr - old(q.Repr))
      ensures q.State() == PushAll(old(q.State()), Shifted(cfg.staticVariables, cfg.env.bssAddrShift))
      ensures Value() == old(Value()).(m := old(Value()).m.(work := q.State()))
    {
      hide Work.Push, Wrap64;
      ghost var keys := Shifted(cfg.staticVariables, cfg.env.bssAddrShift);
      ghost var start := q.State();
      var i := 0;
      assert keys[0..] == keys;
      while i < |cfg.staticVariables|
        invariant 0 <= i <= |cfg.staticVariables|
        invariant Valid() && fresh(q.Repr - old(q.Repr))
        invariant PushAll(q.State(), keys[i..]) == PushAll(start, keys)
        invariant Value() == old(Value()).(m := old(Value()).m.(work := q.State()))
      {
        var v := cfg.staticVariables[i];
        PushStatic(v);
        assert keys[i..][1..] == keys[i + 1..];
        i := i + 1;
      }
    }

    method SetHeaderField(at: nat, v: u32)
      requires Valid() && at + 4 <= SNAPSHOT_HEADER
      modifies b.out
      ensures Valid()
      ensures Value() == WithBuf(old(Value()), SetHeader(old(Value()).m.buf, at, v))
    {
      hide Le32;
      b.Put(at, Le32(v));
    }

    /** Before anything is taken: the header and the static variables. */
    method Prepare()
      requires Valid() && Value() == Shot(StartMachine(Buf(Zeros(b.out.Length), 0, false), EMPTY_WORK), map[])
      modifies b, q.Repr
      ensures Valid() && fresh(q.Repr - old(q.Repr))
      ensures Value() == StartShot(cfg, b.out.Length)
    {
      hide PushAll, Shifted;
      var header := b.WriteSnapshotHeader();
      PushStatics();
    }

    /** The length of the goroutine section, and the worklist. */
    method FinishGoroutines() returns (fault: Option<Fault>)
      requires Valid() && sm.Value().work.Inv()
      modifies sm, sm.decoder, b, b.out, q.Repr
      ensures Valid() && fresh(q.Repr - old(q.Repr))
      ensures var s := old(Value());
              var buf := SetHeader(s.m.buf, GOROUTINES_LEN, Wrap32(s.m.buf.len - SNAPSHOT_HEADER));
              DoesProcess(fault, Process(cfg.env, s.m.(buf := buf)))
    {
      hide Process, Work.Inv, SetHeader, Wrap32;
      SetHeaderField(GOROUTINES_LEN, Wrap32(b.len - SNAPSHOT_HEADER));
      fault := ProcessQueue();
    }

    method Finish() returns (fault: Option<Fault>)
      requires Valid() && sm.Value().work.Inv()
      modifies sm, sm.decoder, b, b.out, q.Repr
      ensures Valid() && DoesProcess(fault, FinishShot(cfg, old(Value())))
    {
      hide Process, Work.Inv, SetHeader, Wrap32;
      fault := FinishGoroutines();
      if fault.Some? {
        return;
      }
      SetHeaderField(DATA_LEN, b.len);
    }

    /** Takes the snapshot; the output is then in the buffer. */
    method TakeSnapshot(gs: seq<Goroutine>) returns (fault: Option<Fault>)
      requires Valid() && Value() == Shot(StartMachine(Buf(Zeros(b.out.Length), 0, false), EMPTY_WORK), map[])
      modifies this, sm, sm.decoder, b, b.out, q.Repr, unwinder, unwinder.pcBuf, unwinder.fpBuf
      ensures Valid()
      ensures match TakeGoroutines(cfg, StartShot(cfg, b.out.Length), gs)
              case Failed(f) => fault == Some(f)
              case Taken(s) => s.m.work.Inv() && DoesProcess(fault, FinishShot(cfg, s))
    {
      hide TakeGoroutines, FinishShot, StartShot, Drains, Closed, Work.Inv, StartMachine;
      Prepare();
      fault := SnapshotGoroutines(gs);
      if fault.Some? {
        return;
      }
      SnapshotIsClosed(cfg, b.out.Length, gs, Value());
      fault := Finish();
    }
  }
}
