/** A snapshot on values: a record for every live goroutine, then the objects reachable from their
  * frames and from the static variables. */
module Snapshots {
  import opened Words
  import opened Bytes
  import opened Wrappers
  import opened Worklist
  import opened Buffer
  import opened Machine
  import opened MachineFrame
  import opened Records
  import opened Unwinding
  import opened Draining
  import Murmur

  // Where the fields of the snapshot header are.
  const DATA_LEN := 0
  const GOROUTINES_LEN := 4
  const NUM_GOROUTINES := 32
  const NON_LIVE := 36

  const GRUNNING := 2
  const GDEAD := 6
  const GSCAN := 0x1000

  datatype Goroutine = Goroutine(goid: u64, status: u32, pc: u64, bp: u64, stackTop: u64)

  /** Sorted ends of address ranges, and for each range the program for frames in it, or 0. The
    * ranges and the programs are parallel lists. */
  datatype Targets = Targets(targetPc: seq<u64>, progPc: seq<u32>)
  type Classifier = c: Targets | |c.targetPc| <= |c.progPc| witness Targets([], [])

  datatype Config = Config(
    env: Env,
    classifier: Classifier,
    textBase: u64,
    staticVariables: seq<Key>)

  datatype FrameOfInterest = FrameOfInterest(idx: u32, pc: u32)

  // ---------------------------------------------------------------------------------------
  // Goroutines

  /** The status without its scan bit. */
  function Unscanned(status: u32): u32 {
    if status / GSCAN % 2 == 1 then status - GSCAN else status
  }

  predicate Live(g: Goroutine) {
    Unscanned(g.status) != GDEAD && Unscanned(g.status) != GRUNNING
  }

  function TargetProgram(c: Classifier, pc: u64): Option<u32> {
    var j := Search(c.targetPc, pc, 0, |c.targetPc|);
    if j < |c.targetPc| && c.progPc[j] != 0 then Some(c.progPc[j]) else None
  }

  /** The frames from index i on that a program wants to see, leaf first. */
  function Interesting(c: Classifier, pcs: seq<u64>, i: nat): seq<FrameOfInterest>
    requires i <= |pcs| <= MAX_FRAMES
    decreases |pcs| - i
  {
    if i == |pcs| then []
    else
      (match TargetProgram(c, pcs[i]) case Some(prog) => [FrameOfInterest(i, prog)] case None => [])
      + Interesting(c, pcs, i + 1)
  }

  /** Runs the programs of the frames from the last to the first, that is from the root to the leaf,
    * until one fails. */
  function RunFrames(env: Env, m: State, cfas: seq<u64>, frames: seq<FrameOfInterest>): (r: Outcome)
    requires m.Ok()
    ensures r.Keeps(m) && !r.Next?
    decreases |frames|
  {
    hide Run;
    if frames == [] then Done(true, m)
    else
      var foi := frames[|frames| - 1];
      if foi.idx >= |cfas| then Crash(IndexFault)
      else match Run(env, m, foi.pc, cfas[foi.idx], foi.idx, m.buf.len)
        case Done(ok, m') => if ok then RunFrames(env, m', cfas, frames[..|frames| - 1]) else Done(false, m')
        case r => r
  }

  /** The run of one frame. */
  function RunFrame(env: Env, m: State, cfas: seq<u64>, foi: FrameOfInterest): (r: Outcome)
    requires m.Ok()
    ensures r.Keeps(m) && !r.Next?
  {
    hide Run;
    if foi.idx >= |cfas| then Crash(IndexFault) else Run(env, m, foi.pc, cfas[foi.idx], foi.idx, m.buf.len)
  }

  lemma RunFramesOnce(env: Env, m: State, cfas: seq<u64>, frames: seq<FrameOfInterest>)
    requires m.Ok()
    ensures frames == [] ==> RunFrames(env, m, cfas, frames) == Done(true, m)
    ensures frames != [] ==>
              var r := RunFrame(env, m, cfas, frames[|frames| - 1]);
              RunFrames(env, m, cfas, frames)
              == if r.Done? && r.ok then RunFrames(env, r.m, cfas, frames[..|frames| - 1]) else r
  {
    hide Run;
  }

  /** The state of the snapshot: that of the stack machine, and the stacks already in the output. */
  datatype Shot = Shot(m: State, stacks: map<u64, seq<FrameOfInterest>>) {
    predicate Ok() {
      m.Ok() && SNAPSHOT_HEADER <= |m.buf.mem|
    }
  }

  datatype ShotResult = Taken(s: Shot) | Failed(fault: Fault) {
    predicate Keeps(s: Shot) {
      this.Failed? || (this.s.Ok() && |this.s.m.buf.mem| == |s.m.buf.mem|)
    }
  }

  function WithBuf(s: Shot, b: Buf): Shot { s.(m := s.m.(buf := b)) }

  /** Adds one to a counter in the snapshot header. */
  function Bump(b: Buf, at: nat): Buf
    requires b.InRange(at, 4)
  {
    b.Write(at, Le32(Wrap32(Read32(b.mem, at) + 1)))
  }

  /** Appends a stack. */
  function WriteStack(b: Buf, pcs: seq<u64>): (r: (Buf, bool))
    requires b.Ok() && |pcs| <= MAX_FRAMES
    ensures r.0.Ok() && |r.0.mem| == |b.mem|
  {
    var (b', ok) := b.EnsureLen(Wrap32(b.len + 8 * |pcs|));
    if ok then (b'.Write(b.len, StackBytes(pcs)), true) else (b', false)
  }

  /** Writes the record of a goroutine, with the number counted; the header comes last, over the
    * room left for it. */
  function WriteGoroutine(cfg: Config, s: Shot, g: Goroutine): (r: ShotResult)
    requires s.Ok()
    ensures r.Keeps(s)
  {
    hide Unwind, Murmur.Hash, WriteWithStack, WriteData;
    var stack := Unwind(cfg.env.memory, cfg.textBase, g.pc, g.bp, g.stackTop);
    var hash := Murmur.Hash(stack.pcs, 0);
    var start := s.m.buf.len;
    var (b, ok) := s.m.buf.EnsureLen(Wrap32(start + GOROUTINE_HEADER));
    if !ok then Taken(WithBuf(s, b))
    else if hash in s.stacks then
      WriteData(cfg, WithBuf(s, b), g, stack, hash, start, 0, s.stacks[hash])
    else WriteWithStack(cfg, WithBuf(s, b), g, stack, hash, start)
  }

  /** Writes a stack that is not in the output yet, and remembers which of its frames are of
    * interest. */
  function WriteWithStack(cfg: Config, s: Shot, g: Goroutine, stack: Stack, hash: u64, start: nat): (r: ShotResult)
    requires s.Ok() && s.m.buf.InRange(start, GOROUTINE_HEADER) && |stack.pcs| <= MAX_FRAMES
    ensures r.Keeps(s)
  {
    hide Interesting, WriteStack, WriteData;
    var (b, ok) := WriteStack(s.m.buf, stack.pcs);
    if !ok then Taken(WithBuf(s, b))
    else
      var frames := Interesting(cfg.classifier, stack.pcs, 0);
      WriteData(cfg, WithBuf(s, b).(stacks := s.stacks[hash := frames]), g, stack, hash, start, 8 * |stack.pcs|, frames)
  }

  /** Runs the programs of the frames, and fills in the header of the record at start. */
  function WriteData(cfg: Config, s: Shot, g: Goroutine, stack: Stack, hash: u64, start: nat, stackBytes: u32,
                     frames: seq<FrameOfInterest>): (r: ShotResult)
    requires s.Ok() && s.m.buf.InRange(start, GOROUTINE_HEADER)
    ensures r.Keeps(s)
  {
    hide RunFrames, RecordBytes;
    match RunFrames(cfg.env, s.m, stack.cfas, frames)
    case Crash(fault) => Failed(fault)
    case Done(_, m) =>
      var dataLen := Wrap32(m.buf.len - (start + GOROUTINE_HEADER));
      var record := Record(g.goid, hash, Unscanned(g.status), stackBytes, dataLen);
      Taken(Shot(m.(buf := m.buf.Write(start, RecordBytes(record))), s.stacks))
  }

  function TakeGoroutine(cfg: Config, s: Shot, g: Goroutine): (r: ShotResult)
    requires s.Ok()
    ensures r.Keeps(s)
  {
    hide WriteGoroutine;
    if s.m.buf.full then Taken(s)
    else if Unscanned(g.status) == GDEAD then Taken(WithBuf(s, Bump(s.m.buf, NON_LIVE)))
    else if Unscanned(g.status) == GRUNNING then Taken(s)
    else WriteGoroutine(cfg, WithBuf(s, Bump(s.m.buf, NUM_GOROUTINES)), g)
  }

  /** A goroutine that overflows the output is cut off again. */
  function TakeWhole(cfg: Config, s: Shot, g: Goroutine): (r: ShotResult)
    requires s.Ok()
    ensures r.Keeps(s)
  {
    hide TakeGoroutine;
    match TakeGoroutine(cfg, s, g)
    case Failed(fault) => Failed(fault)
    case Taken(s') => Taken(if s'.m.buf.full then WithBuf(s', s'.m.buf.Truncate(s.m.buf.len)) else s')
  }

  function TakeGoroutines(cfg: Config, s: Shot, gs: seq<Goroutine>): (r: ShotResult)
    requires s.Ok()
    ensures r.Keeps(s)
    decreases |gs|
  {
    hide TakeWhole;
    if gs == [] then Taken(s)
    else match TakeWhole(cfg, s, gs[0])
      case Failed(fault) => Failed(fault)
      case Taken(s') => TakeGoroutines(cfg, s', gs[1..])
  }

  lemma TakeOnce(cfg: Config, s: Shot, gs: seq<Goroutine>, i: nat)
    requires s.Ok() && i <= |gs|
    ensures i == |gs| ==> TakeGoroutines(cfg, s, gs[i..]) == Taken(s)
    ensures i < |gs| ==>
              var r := TakeWhole(cfg, s, gs[i]);
              TakeGoroutines(cfg, s, gs[i..]) == if r.Taken? then TakeGoroutines(cfg, r.s, gs[i + 1..]) else r
  {
    hide TakeWhole;
    if i < |gs| { assert gs[i..][1..] == gs[i + 1..]; }
  }

  // ---------------------------------------------------------------------------------------
  // The whole snapshot

  function StartMachine(b: Buf, work: Work): State {
    State(0, [], 0, 0, None, 0, 0, ExprType.Frame, 0, QueueEntry(0, 0, 0), 0, 0, b, work)
  }

  function PushAll(w: Work, keys: seq<Key>): Work
    decreases |keys|
  {
    if keys == [] then w else PushAll(w.Push(keys[0].addr, keys[0].typ, 0), keys[1..])
  }

  /** The addresses of the static variables, shifted to where the process was loaded. */
  function Shifted(keys: seq<Key>, shift: u64): seq<Key> {
    seq(|keys|, i requires 0 <= i < |keys| => keys[i].(addr := Wrap64(keys[i].addr + shift)))
  }

  /** After the header was written and the static variables were queued. */
  function StartShot(cfg: Config, capacity: nat): (s: Shot)
    requires SNAPSHOT_HEADER <= capacity < 0x8000_0000
    ensures s.Ok() && |s.m.buf.mem| == capacity
  {
    var work := PushAll(EMPTY_WORK, Shifted(cfg.staticVariables, cfg.env.bssAddrShift));
    Shot(StartMachine(Buf(Zeros(capacity), SNAPSHOT_HEADER, false), work), map[])
  }

  function SetHeader(b: Buf, at: nat, v: u32): Buf
    requires b.InRange(at, 4)
  {
    b.Write(at, Le32(v))
  }

  /** The length of the goroutine section goes to the header, and the worklist is drained. */
  ghost function FinishShot(cfg: Config, s: Shot): (r: Outcome)
    requires s.Ok() && s.m.work.Inv()
    ensures r.Keeps(s.m) && !r.Next?
  {
    hide Process;
    var b := SetHeader(s.m.buf, GOROUTINES_LEN, Wrap32(s.m.buf.len - SNAPSHOT_HEADER));
    var r := Process(cfg.env, s.m.(buf := b));
    if r.Crash? then r
    else Done(true, r.m.(buf := SetHeader(r.m.buf, DATA_LEN, r.m.buf.len)))
  }

  // ---------------------------------------------------------------------------------------
  // The worklist over the goroutines

  lemma {:induction false} PushAllKeepsInv(w: Work, keys: seq<Key>)
    requires w.Inv()
    ensures PushAll(w, keys).Inv()
    decreases |keys|
  {
    hide Work.Inv;
    if keys != [] {
      PushKeepsInv(w, keys[0].addr, keys[0].typ, 0);
      PushAllKeepsInv(w.Push(keys[0].addr, keys[0].typ, 0), keys[1..]);
    }
  }

  lemma {:induction false} FramesAreMonotone(env: Env, m: State, cfas: seq<u64>, frames: seq<FrameOfInterest>)
    requires m.Ok()
    ensures var r := RunFrames(env, m, cfas, frames); r.Crash? || BufferMonotone(m, r.m)
    decreases |frames|
  {
    hide Run, WorkGrows;
    WorkSteps(m.work);
    if frames != [] {
      var foi := frames[|frames| - 1];
      if foi.idx < |cfas| {
        RunIsMonotone(env, m, foi.pc, cfas[foi.idx], foi.idx, m.buf.len);
        var r := Run(env, m, foi.pc, cfas[foi.idx], foi.idx, m.buf.len);
        if r.Done? && r.ok {
          FramesAreMonotone(env, r.m, cfas, frames[..|frames| - 1]);
          var last := RunFrames(env, r.m, cfas, frames[..|frames| - 1]);
          if !last.Crash? { WorkTrans(m.work, r.m.work, last.m.work); }
        }
      }
    }
  }

  lemma DataIsMonotone(cfg: Config, s: Shot, g: Goroutine, stack: Stack, hash: u64, start: nat, stackBytes: u32,
                       frames: seq<FrameOfInterest>)
    requires s.Ok() && s.m.buf.InRange(start, GOROUTINE_HEADER)
    ensures var r := WriteData(cfg, s, g, stack, hash, start, stackBytes, frames);
            r.Failed? || BufferMonotone(s.m, r.s.m)
  {
    hide RunFrames, WorkGrows, RecordBytes;
    FramesAreMonotone(cfg.env, s.m, stack.cfas, frames);
  }

  lemma StackIsMonotone(cfg: Config, s: Shot, g: Goroutine, stack: Stack, hash: u64, start: nat)
    requires s.Ok() && s.m.buf.InRange(start, GOROUTINE_HEADER) && |stack.pcs| <= MAX_FRAMES
    ensures var r := WriteWithStack(cfg, s, g, stack, hash, start); r.Failed? || BufferMonotone(s.m, r.s.m)
  {
    hide WriteData, WorkGrows, StackBytes, Interesting, Splice, Wrap32;
    WorkSteps(s.m.work);
    var (b, ok) := WriteStack(s.m.buf, stack.pcs);
    if ok {
      var frames := Interesting(cfg.classifier, stack.pcs, 0);
      DataIsMonotone(cfg, WithBuf(s, b).(stacks := s.stacks[hash := frames]), g, stack, hash, start,
                     8 * |stack.pcs|, frames);
    }
  }

  lemma GoroutineIsMonotone(cfg: Config, s: Shot, g: Goroutine)
    requires s.Ok()
    ensures var r := WriteGoroutine(cfg, s, g); r.Failed? || BufferMonotone(s.m, r.s.m)
  {
    hide WriteData, WriteWithStack, WorkGrows, Unwind, Wrap32, Murmur.Hash;
    WorkSteps(s.m.work);
    var stack := Unwind(cfg.env.memory, cfg.textBase, g.pc, g.bp, g.stackTop);
    var hash := Murmur.Hash(stack.pcs, 0);
    var start := s.m.buf.len;
    var (b, ok) := s.m.buf.EnsureLen(Wrap32(start + GOROUTINE_HEADER));
    if ok {
      assert start + GOROUTINE_HEADER <= |b.mem| by { WrapSmall(start + GOROUTINE_HEADER); }
      if hash in s.stacks {
        DataIsMonotone(cfg, WithBuf(s, b), g, stack, hash, start, 0, s.stacks[hash]);
      } else {
        StackIsMonotone(cfg, WithBuf(s, b), g, stack, hash, start);
      }
    }
  }

  lemma WholeIsMonotone(cfg: Config, s: Shot, g: Goroutine)
    requires s.Ok()
    ensures var r := TakeWhole(cfg, s, g); r.Failed? || BufferMonotone(s.m, r.s.m)
  {
    hide WriteGoroutine, WorkGrows, Le32, Splice, Read32;
    WorkSteps(s.m.work);
    GoroutineIsMonotone(cfg, WithBuf(s, Bump(s.m.buf, NUM_GOROUTINES)), g);
  }

  lemma {:induction false} GoroutinesAreMonotone(cfg: Config, s: Shot, gs: seq<Goroutine>)
    requires s.Ok()
    ensures var r := TakeGoroutines(cfg, s, gs); r.Failed? || BufferMonotone(s.m, r.s.m)
    decreases |gs|
  {
    hide TakeWhole, WorkGrows;
    WorkSteps(s.m.work);
    if gs != [] {
      WholeIsMonotone(cfg, s, gs[0]);
      var r := TakeWhole(cfg, s, gs[0]);
      if r.Taken? {
        GoroutinesAreMonotone(cfg, r.s, gs[1..]);
        var last := TakeGoroutines(cfg, r.s, gs[1..]);
        if last.Taken? { WorkTrans(s.m.work, r.s.m.work, last.s.m.work); }
      }
    }
  }

  /** A snapshot pops every object at most once, in the order in which it was first pushed, and if it
    * does not overflow it leaves nothing it has seen behind: every key that was ever seen has been
    * popped, or was recorded as a context. */
  lemma SnapshotIsClosed(cfg: Config, capacity: nat, gs: seq<Goroutine>, s: Shot)
    requires SNAPSHOT_HEADER <= capacity < 0x8000_0000
    requires TakeGoroutines(cfg, StartShot(cfg, capacity), gs) == Taken(s)
    ensures s.m.work.Inv()
    ensures s.m.work.popped == []
    ensures var r := FinishShot(cfg, s);
            r.Done? ==> r.m.work.Inv() && Drains(s.m.work, r.m.work) && (!r.m.buf.full ==> Closed(r.m.work))
  {
    hide TakeGoroutines, Process, Drains, Closed;
    var s0 := StartShot(cfg, capacity);
    PushAllKeepsInv(EMPTY_WORK, Shifted(cfg.staticVariables, cfg.env.bssAddrShift));
    PushAllPopsNothing(EMPTY_WORK, Shifted(cfg.staticVariables, cfg.env.bssAddrShift));
    GoroutinesAreMonotone(cfg, s0, gs);
    assert s.m.work.Inv() && s.m.work.popped == [];
    hide Work.Inv;
    ProcessedIsClosed(cfg.env, s.m.(buf := SetHeader(s.m.buf, GOROUTINES_LEN, Wrap32(s.m.buf.len - SNAPSHOT_HEADER))));
  }

  lemma {:induction false} PushAllPopsNothing(w: Work, keys: seq<Key>)
    ensures PushAll(w, keys).popped == w.popped
    decreases |keys|
  {
    if keys != [] { PushAllPopsNothing(w.Push(keys[0].addr, keys[0].typ, 0), keys[1..]); }
  }

  // ---------------------------------------------------------------------------------------
  // Classification

  predicate Sorted(a: seq<u64>) {
    forall i, j :: 0 <= i < j < |a| ==> a[i] <= a[j]
  }

  /** On a sorted list the bisection finds the least index at which x <= a[i]. */
  lemma {:induction false} SearchFindsLeast(a: seq<u64>, x: u64, lo: nat, hi: nat)
    requires Sorted(a) && lo <= hi <= |a|
    ensures var i := Search(a, x, lo, hi);
            && (forall k :: lo <= k < i ==> a[k] < x)
            && (forall k :: i <= k < hi ==> x <= a[k])
    decreases hi - lo
  {
    if lo < hi {
      var h := (lo + hi) / 2;
      assert lo <= h < hi;
      if x <= a[h] { SearchFindsLeast(a, x, lo, h); } else { SearchFindsLeast(a, x, h + 1, hi); }
    }
  }

  /** A frame is of interest exactly when the range its pc lies in has a program, whatever other
    * frames there are; frames are listed leaf first and each at most once. */
  lemma {:induction false} InterestingIff(c: Classifier, pcs: seq<u64>, i: nat)
    requires i <= |pcs| <= MAX_FRAMES
    ensures var fs := Interesting(c, pcs, i);
            && (forall k: u32, prog: u32 :: FrameOfInterest(k, prog) in fs <==>
                  i <= k < |pcs| && TargetProgram(c, pcs[k]) == Some(prog))
            && (forall a, b :: 0 <= a < b < |fs| ==> fs[a].idx < fs[b].idx)
    decreases |pcs| - i
  {
    hide TargetProgram;
    if i < |pcs| {
      InterestingIff(c, pcs, i + 1);
      var rest := Interesting(c, pcs, i + 1);
      assert forall a :: 0 <= a < |rest| ==> rest[a] in rest && FrameOfInterest(rest[a].idx, rest[a].pc) == rest[a];
    }
  }
}
