/** Snapshots whose programs never fault: they are taken, and add up, without any assumption about
  * their runs. */
module SafeSnapshots {
  import opened Words
  import opened Bytes
  import opened Worklist
  import opened Buffer
  import opened Machine
  import opened FramedRun
  import opened Draining
  import opened Records
  import opened Unwinding
  import opened Snapshots
  import opened Accounting
  import opened WholeOutput
  import opened FrameTypes
  import opened FramePrograms
  import opened DrainPrograms
  import opened SafePrograms
  import opened SafeDrains
  import Containment
  import Murmur
  import opened D = Decoder

  ghost predicate SafeAt(env: Env, pc: u32, ops: seq<Op>) {
    SafeStraight(env, Ready, 0, ops) && Follows(env.prog, pc, ops) && |ops| <= FUEL
  }

  /** At the pc there is a safe straight-line program, or nothing. */
  ghost predicate IsSafeProgram(env: Env, pc: u32) {
    pc >= |env.prog| || exists ops :: SafeAt(env, pc, ops)
  }

  lemma {:induction false} SlotOpsAreEncodable(slots: seq<FrameSlot>)
    ensures forall op :: op in SlotOps(slots) ==> Encodable(op)
    ensures |SlotOps(slots)| <= 5 * |slots| + 2
    decreases |slots|
  {
    if slots != [] { SlotOpsAreEncodable(slots[1..]); }
  }

  function FrameOps(prog: u32, n: u32, typ: u32, slots: seq<FrameSlot>): (ops: seq<Op>)
    ensures forall op :: op in ops ==> Encodable(op)
    ensures |ops| <= 5 * |slots| + 3
  {
    SlotOpsAreEncodable(slots);
    [PrepareFrameData(prog, n, typ)] + SlotOps(slots)
  }

  /** A frame with any list of slots in it, wherever it is encoded, is such a program. */
  lemma EncodedFrameIsSafe(env: Env, before: seq<u8>, after: seq<u8>, prog: u32, n: u32, typ: u32,
                           slots: seq<FrameSlot>)
    requires n < 0x3fff_fff0 && (forall s :: s in slots ==> s.In(n)) && 5 * |slots| + 3 <= FUEL
    requires env.prog == before + EncodeAll(FrameOps(prog, n, typ, slots)) + after
    ensures IsSafeProgram(env, |before|)
  {
    FrameIsSafe(env, prog, n, typ, slots);
    var ops := FrameOps(prog, n, typ, slots);
    hide SafeStraight, Follows, EncodeAll, FrameSlot.In, FrameOps, SlotOps;
    EncodedFollow(before, ops, after);
    assert SafeAt(env, |before|, ops);
  }

  /** All programs that the classifier knows are such programs. */
  ghost predicate OnlySafePrograms(cfg: Config) {
    forall pc :: pc in cfg.classifier.progPc && pc != 0 ==> IsSafeProgram(cfg.env, pc)
  }

  lemma SafeIsFrameProgram(env: Env, pc: u32)
    requires IsSafeProgram(env, pc)
    ensures IsFrameProgram(env, pc)
  {
    hide SafeStraight, Straight, Follows;
    if pc < |env.prog| {
      var ops :| SafeAt(env, pc, ops);
      SafeIsStraight(env, Ready, 0, ops);
      assert StraightAt(env, pc, ops);
    }
  }

  lemma SafeAreFramePrograms(cfg: Config)
    requires OnlySafePrograms(cfg)
    ensures OnlyFramePrograms(cfg)
  {
    hide IsSafeProgram, IsFrameProgram;
    forall pc | pc in cfg.classifier.progPc && pc != 0 ensures IsFrameProgram(cfg.env, pc) {
      SafeIsFrameProgram(cfg.env, pc);
    }
  }

  /** The frame is one of those unwound, and its program is safe. */
  ghost predicate SafeFrame(env: Env, f: FrameOfInterest, frames: nat) {
    f.idx < frames && IsSafeProgram(env, f.pc)
  }

  ghost predicate SafeFrames(env: Env, fs: seq<FrameOfInterest>, frames: nat) {
    forall f :: f in fs ==> SafeFrame(env, f, frames)
  }

  lemma SafeFramesAreFramePrograms(env: Env, fs: seq<FrameOfInterest>, frames: nat)
    requires SafeFrames(env, fs, frames)
    ensures AllFramePrograms(env, fs)
  {
    hide IsSafeProgram, IsFrameProgram;
    forall f | f in fs ensures IsFrameProgram(env, f.pc) {
      assert SafeFrame(env, f, frames);
      SafeIsFrameProgram(env, f.pc);
    }
  }

  /** One frame of a goroutine. */
  lemma FrameNeverFaults(base: seq<u8>, env: Env, depth: u32, m: State, pc: u32, cfa: u64, l: Layout)
    requires Section(base, m, l, false) && Complete(l, false) && m.stack == [] && IsSafeProgram(env, pc)
    ensures m.Ok() && !Run(env, m, pc, cfa, depth, m.buf.len).Crash?
  {
    hide Follows, Iterate, LaidOut, SafeStraight;
    if pc < |env.prog| {
      var ops :| SafeAt(env, pc, ops);
      SafeRuns(base, env, depth, Starting(m, pc, cfa, m.buf.len), l, false, Ready, 0, ops, FUEL);
    }
  }

  /** All frames of a goroutine. */
  lemma {:induction false} FramesNeverFault(base: seq<u8>, env: Env, m: State, cfas: seq<u64>,
                                            frames: seq<FrameOfInterest>, l: Layout)
    requires Section(base, m, l, false) && Complete(l, false) && m.stack == [] && SafeFrames(env, frames, |cfas|)
    ensures m.Ok() && !RunFrames(env, m, cfas, frames).Crash?
    decreases |frames|
  {
    hide Containment.Contained, Run, FinalLayout, Complete, IsSafeProgram, IsFrameProgram, Section;
    SectionOk(base, m, l, false);
    RunFramesOnce(env, m, cfas, frames);
    if frames != [] {
      var foi, rest := frames[|frames| - 1], frames[..|frames| - 1];
      assert SafeFrame(env, foi, |cfas|);
      assert SafeFrames(env, rest, |cfas|);
      FrameNeverFaults(base, env, foi.idx, m, foi.pc, cfas[foi.idx], l);
      var r := Run(env, m, foi.pc, cfas[foi.idx], foi.idx, m.buf.len);
      if r.Done? && r.ok {
        if foi.pc >= |env.prog| { RunNowhere(env, m, foi.pc, cfas[foi.idx], foi.idx, m.buf.len); }
        SafeIsFrameProgram(env, foi.pc);
        FrameIsContained(base, env, foi.idx, m, foi.pc, cfas[foi.idx], l);
        RunKeeps(base, env, foi.idx, m, foi.pc, cfas[foi.idx], m.buf.len, l, false);
        var (l', open') := FinalLayout(env, foi.idx, Starting(m, foi.pc, cfas[foi.idx], m.buf.len), l, false, FUEL);
        assert !open' by { CompleteIsClosed(l', open'); }
        FramesNeverFault(base, env, r.m, cfas, rest, l');
      }
    }
  }

  function FrameCount(cfg: Config, g: Goroutine): nat {
    |Unwind(cfg.env.memory, cfg.textBase, g.pc, g.bp, g.stackTop).cfas|
  }

  /** Live goroutines whose stacks have the same hash have stacks of the same length. */
  ghost predicate HashesAgree(cfg: Config, gs: seq<Goroutine>) {
    forall g, h :: g in gs && h in gs && Live(g) && Live(h) && StackHash(cfg, g) == StackHash(cfg, h) ==>
      FrameCount(cfg, g) == FrameCount(cfg, h)
  }

  /** A stack already in the output is of the length of that of each goroutine to come that shares it. */
  ghost predicate StacksFit(cfg: Config, stacks: map<u64, seq<FrameOfInterest>>, gs: seq<Goroutine>) {
    forall g :: g in gs && Live(g) && StackHash(cfg, g) in stacks ==>
      SafeFrames(cfg.env, stacks[StackHash(cfg, g)], FrameCount(cfg, g))
  }

  lemma InterestingAreSafe(cfg: Config, pcs: seq<u64>)
    requires OnlySafePrograms(cfg) && |pcs| <= MAX_FRAMES
    ensures SafeFrames(cfg.env, Interesting(cfg.classifier, pcs, 0), |pcs|)
  {
    hide IsSafeProgram, Search;
    InterestingIff(cfg.classifier, pcs, 0);
    hide Interesting;
    forall f | f in Interesting(cfg.classifier, pcs, 0) ensures SafeFrame(cfg.env, f, |pcs|) {
      assert f == FrameOfInterest(f.idx, f.pc);
    }
  }

  lemma DataNeverFails(cfg: Config, s: Shot, g: Goroutine, stack: Stack, hash: u64, start: nat, stackBytes: u32,
                       frames: seq<FrameOfInterest>)
    requires FrameShot(cfg, s) && !s.m.buf.full && s.m.buf.InRange(start, GOROUTINE_HEADER)
    requires SafeFrames(cfg.env, frames, |stack.cfas|)
    ensures var t := WriteData(cfg, s, g, stack, hash, start, stackBytes, frames); t.Taken? && t.s.stacks == s.stacks
  {
    hide RunFrames, Records.RecordBytes, AllFramePrograms, SafeFrames;
    NothingIsASection(s.m);
    FramesNeverFault(s.m.buf.mem, cfg.env, s.m, stack.cfas, frames, NothingSince(s.m.buf.len));
  }

  lemma StackNeverFails(cfg: Config, s: Shot, g: Goroutine, stack: Stack, hash: u64, start: nat)
    requires OnlySafePrograms(cfg) && FrameShot(cfg, s) && !s.m.buf.full && s.m.buf.InRange(start, GOROUTINE_HEADER)
    requires |stack.pcs| == |stack.cfas| <= MAX_FRAMES
    ensures var t := WriteWithStack(cfg, s, g, stack, hash, start);
            && t.Taken?
            && (t.s.stacks == s.stacks || t.s.stacks == s.stacks[hash := Interesting(cfg.classifier, stack.pcs, 0)])
  {
    hide WriteData, Interesting, Records.StackBytes, AllFramePrograms, SafeFrames, Splice, Wrap32, OnlySafePrograms;
    InterestingAreSafe(cfg, stack.pcs);
    var (b, ok) := WriteStack(s.m.buf, stack.pcs);
    if ok {
      var frames := Interesting(cfg.classifier, stack.pcs, 0);
      SafeFramesAreFramePrograms(cfg.env, frames, |stack.cfas|);
      var s1 := WithBuf(s, b).(stacks := s.stacks[hash := frames]);
      DataNeverFails(cfg, s1, g, stack, hash, start, 8 * |stack.pcs|, frames);
    }
  }

  /** One goroutine: it is taken, and its stack may be added to those in the output. */
  lemma GoroutineNeverFails(cfg: Config, s: Shot, g: Goroutine)
    requires OnlySafePrograms(cfg) && FrameShot(cfg, s) && StacksFit(cfg, s.stacks, [g])
    ensures var t := TakeWhole(cfg, s, g);
            var stack := Unwind(cfg.env.memory, cfg.textBase, g.pc, g.bp, g.stackTop);
            && t.Taken?
            && (|| t.s.stacks == s.stacks
                || (Live(g) && t.s.stacks == s.stacks[StackHash(cfg, g) := Interesting(cfg.classifier, stack.pcs, 0)]))
  {
    hide WriteData, WriteWithStack, Interesting, AllFramePrograms, OnlySafePrograms, Unwind, Murmur.Hash,
         Snapshots.WriteStack, Wrap32, Le32, Read32, Splice, SafeFrames;
    if !s.m.buf.full && Live(g) {
      var s1 := WithBuf(s, Bump(s.m.buf, NUM_GOROUTINES));
      var stack := Unwind(cfg.env.memory, cfg.textBase, g.pc, g.bp, g.stackTop);
      var hash, start := Murmur.Hash(stack.pcs, 0), s.m.buf.len;
      WrapSmall(start + GOROUTINE_HEADER);
      var (b, ok) := s1.m.buf.EnsureLen(Wrap32(start + GOROUTINE_HEADER));
      if ok {
        if hash in s.stacks {
          assert g in [g] && StackHash(cfg, g) == hash;
          DataNeverFails(cfg, WithBuf(s1, b), g, stack, hash, start, 0, s.stacks[hash]);
        } else {
          StackNeverFails(cfg, WithBuf(s1, b), g, stack, hash, start);
        }
      }
    }
  }

  lemma StacksStillFit(cfg: Config, stacks: map<u64, seq<FrameOfInterest>>, stacks': map<u64, seq<FrameOfInterest>>,
                       g: Goroutine, gs: seq<Goroutine>)
    requires OnlySafePrograms(cfg) && HashesAgree(cfg, [g] + gs) && StacksFit(cfg, stacks, [g] + gs)
    requires var stack := Unwind(cfg.env.memory, cfg.textBase, g.pc, g.bp, g.stackTop);
             || stacks' == stacks
             || (Live(g) && stacks' == stacks[StackHash(cfg, g) := Interesting(cfg.classifier, stack.pcs, 0)])
    ensures StacksFit(cfg, stacks', gs)
  {
    hide SafeFrames, StackHash, Interesting, OnlySafePrograms;
    InterestingAreSafe(cfg, Unwind(cfg.env.memory, cfg.textBase, g.pc, g.bp, g.stackTop).pcs);
    forall h | h in gs && Live(h) && StackHash(cfg, h) in stacks'
      ensures SafeFrames(cfg.env, stacks'[StackHash(cfg, h)], FrameCount(cfg, h))
    {
      assert h in [g] + gs && g in [g] + gs;
    }
  }

  /** Whatever the goroutines and the memory, no run of a snapshot with such programs faults. */
  lemma {:induction false} SnapshotNeverFails(cfg: Config, s: Shot, gs: seq<Goroutine>)
    requires OnlySafePrograms(cfg) && FrameShot(cfg, s) && HashesAgree(cfg, gs) && StacksFit(cfg, s.stacks, gs)
    ensures TakeGoroutines(cfg, s, gs).Taken?
    decreases |gs|
  {
    hide GoroutineContained, TakeWhole, OnlySafePrograms, OnlyFramePrograms, HashesAgree, StacksFit, AllFramePrograms,
         Interesting;
    if gs != [] {
      assert gs == [gs[0]] + gs[1..];
      FitsParts(cfg, s.stacks, gs[0], gs[1..]);
      SafeAreFramePrograms(cfg);
      GoroutineIsContained(cfg, s, gs[0]);
      GoroutineNeverFails(cfg, s, gs[0]);
      var t := TakeWhole(cfg, s, gs[0]);
      StacksStillFit(cfg, s.stacks, t.s.stacks, gs[0], gs[1..]);
      SnapshotNeverFails(cfg, t.s, gs[1..]);
    }
  }

  lemma FitsParts(cfg: Config, stacks: map<u64, seq<FrameOfInterest>>, g: Goroutine, gs: seq<Goroutine>)
    ensures StacksFit(cfg, stacks, [g] + gs) ==> StacksFit(cfg, stacks, [g])
    ensures HashesAgree(cfg, [g] + gs) ==> HashesAgree(cfg, gs)
  {
    hide SafeFrames, StackHash, FrameCount;
    assert forall h :: h in gs || h in [g] ==> h in [g] + gs;
  }

  lemma StartFits(cfg: Config, capacity: nat, gs: seq<Goroutine>)
    requires SNAPSHOT_HEADER <= capacity < 0x8000_0000
    ensures StacksFit(cfg, StartShot(cfg, capacity).stacks, gs)
  {
    hide PushAll, Shifted, Zeros;
  }

  /** Whatever the goroutines and the memory, all goroutines of a snapshot with safe programs are
    * taken without a fault, and the goroutine section adds up. */
  lemma SafeProgramsAddUp(cfg: Config, capacity: nat, gs: seq<Goroutine>) returns (s: Shot, rs: seq<Record>, n: nat)
    requires OnlySafePrograms(cfg) && HashesAgree(cfg, gs) && SNAPSHOT_HEADER <= capacity < 0x8000_0000
    ensures TakeGoroutines(cfg, StartShot(cfg, capacity), gs) == Taken(s)
    ensures n <= |gs| && Accounted(s, rs, true) && RecordsOf(cfg, rs, LiveOnes(gs[..n]))
    ensures !s.m.buf.full ==> n == |gs|
  {
    hide StartShot, FrameShot, OnlyFramePrograms, OnlySafePrograms, HashesAgree, StacksFit, TakeGoroutines, Accounted,
         RecordsOf;
    SafeAreFramePrograms(cfg);
    StartIsFrameShot(cfg, capacity);
    StartFits(cfg, capacity, gs);
    SnapshotNeverFails(cfg, StartShot(cfg, capacity), gs);
    s := TakeGoroutines(cfg, StartShot(cfg, capacity), gs).s;
    rs, n := FrameProgramsAddUp(cfg, capacity, gs);
  }

  // ---------------------------------------------------------------------------------------
  // The objects

  lemma {:induction false} FrameShotIsKept(cfg: Config, s: Shot, gs: seq<Goroutine>)
    requires OnlyFramePrograms(cfg) && FrameShot(cfg, s)
    ensures var t := TakeGoroutines(cfg, s, gs); t.Taken? ==> FrameShot(cfg, t.s)
    decreases |gs|
  {
    hide TakeWhole, GoroutineContained, OnlyFramePrograms, AllFramePrograms;
    if gs != [] {
      GoroutineIsContained(cfg, s, gs[0]);
      var t := TakeWhole(cfg, s, gs[0]);
      if t.Taken? { FrameShotIsKept(cfg, t.s, gs[1..]); }
    }
  }

  lemma DrainStartsQuiet(cfg: Config, s: Shot)
    requires FrameShot(cfg, s) && s.m.work.Inv() && QuietTypes(cfg.env) && AllFit(cfg.env, AtDrain(s))
    ensures DrainContained(cfg.env, AtDrain(s), NothingSince(s.m.buf.len), false, true)
  {
    hide AllFramePrograms, Work.Inv, QuietTypes, AllFit, DrainContained;
    if s.m.buf.full {
      FullDrainIsContained(cfg.env, AtDrain(s), NothingSince(s.m.buf.len));
    } else {
      QuietDrainIsContained(cfg.env, AtDrain(s), NothingSince(s.m.buf.len));
    }
  }

  lemma FullDrainIsContained(env: Env, m: State, l: Layout)
    requires m.Ok() && m.work.Inv() && m.buf.full
    ensures DrainContained(env, m, l, false, true)
  {
    hide Work.Inv;
  }

  /** A finished snapshot whose frame programs are straight lines and whose types are quiet adds up as
    * soon as there was room for the objects: a reader visits the records of the goroutines kept, and,
    * unless the output overflowed, stepping by the lengths of the objects from there on lands on the
    * length in the header, with everything the worklist produced among them. */
  lemma QuietSnapshotAddsUp(cfg: Config, capacity: nat, gs: seq<Goroutine>, s: Shot, m: State)
    returns (rs: seq<Record>, n: nat)
    requires OnlyFramePrograms(cfg) && QuietTypes(cfg.env) && SNAPSHOT_HEADER <= capacity < 0x8000_0000
    requires TakeGoroutines(cfg, StartShot(cfg, capacity), gs) == Taken(s) && s.m.work.Inv()
    requires AllFit(cfg.env, AtDrain(s)) && FinishShot(cfg, s) == Done(true, m)
    ensures AddsUp(cfg, gs, n, m, rs, true)
    ensures var (l, open) := ObjectsLayout(cfg, s); !m.buf.full ==> ObjectsAddUp(cfg, m, l, open, true)
  {
    hide StartShot, FrameShot, OnlyFramePrograms, GoroutinesContained, TakeGoroutines, QuietTypes, AllFit,
         DrainContained, Work.Inv, AtDrain, FinishShot, ObjectsLayout, AddsUp, ObjectsAddUp;
    StartIsFrameShot(cfg, capacity);
    SnapshotIsContained(cfg, StartShot(cfg, capacity), gs);
    FrameShotIsKept(cfg, StartShot(cfg, capacity), gs);
    DrainStartsQuiet(cfg, s);
    rs, n := SnapshotAddsUp(cfg, capacity, gs, true, true, s, m);
  }

  /** There is room for every object that is drained. */
  ghost predicate RoomForObjects(cfg: Config, capacity: nat, gs: seq<Goroutine>)
    requires SNAPSHOT_HEADER <= capacity < 0x8000_0000
  {
    var t := TakeGoroutines(cfg, StartShot(cfg, capacity), gs);
    t.Taken? && t.s.m.work.Inv() ==> AllRoomy(cfg.env, AtDrain(t.s))
  }

  lemma FinishNeverFails(cfg: Config, s: Shot)
    requires FrameShot(cfg, s) && s.m.work.Inv() && SafeTypes(cfg.env) && AllRoomy(cfg.env, AtDrain(s))
    ensures var r := FinishShot(cfg, s); r.Done? && r.ok
  {
    hide AllFramePrograms, Work.Inv, SafeTypes, AllRoomy, Process;
    if s.m.buf.full {
      ProcessOnce(cfg.env, AtDrain(s));
    } else {
      DrainNeverFaults(cfg.env, AtDrain(s), NothingSince(s.m.buf.len));
    }
  }

  /** A snapshot with safe programs and safe types, and with room for the objects, is finished without
    * a fault and adds up, whatever the goroutines and the memory. */
  lemma SafeSnapshotAddsUp(cfg: Config, capacity: nat, gs: seq<Goroutine>)
    returns (s: Shot, m: State, rs: seq<Record>, n: nat)
    requires OnlySafePrograms(cfg) && SafeTypes(cfg.env) && HashesAgree(cfg, gs)
    requires SNAPSHOT_HEADER <= capacity < 0x8000_0000 && RoomForObjects(cfg, capacity, gs)
    ensures TakeGoroutines(cfg, StartShot(cfg, capacity), gs) == Taken(s) && s.m.work.Inv()
    ensures FinishShot(cfg, s) == Done(true, m)
    ensures AddsUp(cfg, gs, n, m, rs, true)
    ensures var (l, open) := ObjectsLayout(cfg, s); !m.buf.full ==> ObjectsAddUp(cfg, m, l, open, true)
  {
    hide StartShot, FrameShot, OnlyFramePrograms, OnlySafePrograms, HashesAgree, TakeGoroutines, SafeTypes, QuietTypes,
         AllRoomy, AllFit, Work.Inv, SetHeader, FinishShot, ObjectsLayout, AddsUp, ObjectsAddUp;
    s, rs, n := SafeProgramsAddUp(cfg, capacity, gs);
    SafeAreFramePrograms(cfg);
    StartIsFrameShot(cfg, capacity);
    FrameShotIsKept(cfg, StartShot(cfg, capacity), gs);
    assert s.m.work.Inv() by { SnapshotIsClosed(cfg, capacity, gs, s); }
    FinishNeverFails(cfg, s);
    m := FinishShot(cfg, s).m;
    SafeIsQuiet(cfg.env);
    RoomyIsFit(cfg.env, AtDrain(s));
    rs, n := QuietSnapshotAddsUp(cfg, capacity, gs, s, m);
  }
}
