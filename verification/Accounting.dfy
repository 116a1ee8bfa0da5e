/** The goroutine section adds up: stepping from record to record visits exactly the goroutines that
  * were kept, even when a later one overflowed the output and was cut off. */
module Accounting {
  import opened Words
  import opened Bytes
  import opened Wrappers
  import opened Worklist
  import opened Buffer
  import opened Machine
  import opened Framing
  import opened FramedRun
  import opened Expression
  import opened Containment
  import opened Records
  import opened Unwinding
  import opened Snapshots
  import Murmur

  // ---------------------------------------------------------------------------------------
  // The frames of one goroutine

  /** Nothing was written since lo. */
  function NothingSince(lo: nat): Layout { Layout(lo, [], None, []) }

  /** Every frame that was opened is closed. */
  predicate Complete(l: Layout, open: bool) {
    !open && l.header.None? && l.entries == []
  }

  /** The state in which a run starts. */
  function Starting(m: State, pc: u32, cfa: u64, offset: u32): State {
    m.(pc := pc, cfa := cfa, offset := offset)
  }

  /** The runs of the frames are contained; if framed, each of them completes what it opened unless
    * it overflows the output. */
  ghost predicate FramesContained(env: Env, m: State, cfas: seq<u64>, frames: seq<FrameOfInterest>,
                                  l: Layout, open: bool, framed: bool)
    requires m.Ok()
    decreases |frames|
  {
    hide Contained, Run, FinalLayout;
    frames == [] ||
    var foi := frames[|frames| - 1];
    (foi.idx < |cfas| && foi.pc < |env.prog| ==>
      var start := Starting(m, foi.pc, cfas[foi.idx], m.buf.len);
      && Contained(env, foi.idx, start, l, open, FUEL)
      && var r := Run(env, m, foi.pc, cfas[foi.idx], foi.idx, m.buf.len);
         r.Done? && !r.m.buf.full ==>
           var (l', open') := FinalLayout(env, foi.idx, start, l, open, FUEL);
           && (framed ==> Complete(l', open'))
           && (r.ok ==> FramesContained(env, r.m, cfas, frames[..|frames| - 1], l', open', framed)))
  }

  lemma {:induction false} FinalLayoutStaysThere(env: Env, depth: u32, m: State, l: Layout, open: bool, fuel: nat)
    requires m.Ok()
    ensures FinalLayout(env, depth, m, l, open, fuel).0.lo == l.lo
    decreases fuel
  {
    hide Step, LayoutAfter, Alignment.OpenAfter, D.Decode, Runs.Fetched, Runs.Current;
    if fuel > 0 && Runs.Current(env, m).Some? && Runs.Fetched(env, m).Ok() {
      var op := Runs.Current(env, m).value;
      var r := Step(env, depth, m);
      if !r.Crash? {
        LayoutStaysThere(env, Runs.Fetched(env, m), op, r.m, l);
        if r.Next? {
          FinalLayoutStaysThere(env, depth, r.m, LayoutAfter(env, Runs.Fetched(env, m), op, r.m, l),
                                Alignment.OpenAfter(env, Runs.Fetched(env, m), op, open), fuel - 1);
        }
      }
    }
  }

  /** One contained run, from a framed output. */
  lemma RunKeeps(base: seq<u8>, env: Env, depth: u32, m: State, pc: u32, cfa: u64, offset: u32, l: Layout, open: bool)
    requires Section(base, m, l, open) && pc < |env.prog|
    requires Contained(env, depth, Starting(m, pc, cfa, offset), l, open, FUEL)
    ensures var r := Run(env, m, pc, cfa, depth, offset);
            var (l', open') := FinalLayout(env, depth, Starting(m, pc, cfa, offset), l, open, FUEL);
            && l'.lo == l.lo
            && (r.Done? ==> Kept(base, r.m, l.lo) && (r.m.buf.full ==> !r.ok))
            && (r.Done? && !r.m.buf.full ==> Section(base, r.m, l', open'))
  {
    hide Iterate, FinalLayout, LaidOut, OrderlyRun, Unrefused;
    var start := Starting(m, pc, cfa, offset);
    assert Section(base, start, l, open);
    hide Section, Kept;
    RunStaysAbove(base, env, depth, start, l, open, FUEL);
    RunIsFramed(base, env, depth, start, l, open, FUEL);
    FinalLayoutStaysThere(env, depth, start, l, open, FUEL);
  }

  lemma CompleteIsFramed(base: seq<u8>, m: State, l: Layout, open: bool)
    requires Section(base, m, l, open) && Complete(l, open)
    ensures Framed(m.buf.mem, l.lo, m.buf.len)
  {
    hide FramesAt, EntriesAt;
  }

  lemma {:induction false} FramesStayAbove(base: seq<u8>, env: Env, m: State, cfas: seq<u64>,
                                           frames: seq<FrameOfInterest>, l: Layout, open: bool, framed: bool)
    requires Section(base, m, l, open) && FramesContained(env, m, cfas, frames, l, open, framed)
    requires framed ==> Complete(l, open)
    ensures var r := RunFrames(env, m, cfas, frames);
            r.Done? ==>
              && Kept(base, r.m, l.lo)
              && (framed && !r.m.buf.full ==> Framed(r.m.buf.mem, l.lo, r.m.buf.len))
    decreases |frames|
  {
    hide Run, Contained, FinalLayout, Section, Kept, Framed, Complete;
    SectionOk(base, m, l, open);
    SectionKeeps(base, m, l, open);
    if framed { CompleteIsFramed(base, m, l, open); }
    if frames != [] {
      var foi := frames[|frames| - 1];
      if foi.idx < |cfas| {
        if foi.pc >= |env.prog| {
          RunNowhere(env, m, foi.pc, cfas[foi.idx], foi.idx, m.buf.len);
        } else {
          RunKeeps(base, env, foi.idx, m, foi.pc, cfas[foi.idx], m.buf.len, l, open);
          var r := Run(env, m, foi.pc, cfas[foi.idx], foi.idx, m.buf.len);
          if r.Done? && !r.m.buf.full {
            var start := Starting(m, foi.pc, cfas[foi.idx], m.buf.len);
            var (l', open') := FinalLayout(env, foi.idx, start, l, open, FUEL);
            if framed { CompleteIsFramed(base, r.m, l', open'); }
            if r.ok { FramesStayAbove(base, env, r.m, cfas, frames[..|frames| - 1], l', open', framed); }
          }
        }
      }
    }
  }

  lemma RunNowhere(env: Env, m: State, pc: u32, cfa: u64, depth: u32, offset: u32)
    requires m.Ok() && pc >= |env.prog|
    ensures Run(env, m, pc, cfa, depth, offset) == Done(false, m)
  {
  }

  // ---------------------------------------------------------------------------------------
  // One goroutine

  ghost predicate DataContained(cfg: Config, s: Shot, cfas: seq<u64>, frames: seq<FrameOfInterest>, framed: bool)
    requires s.Ok()
  {
    FramesContained(cfg.env, s.m, cfas, frames, NothingSince(s.m.buf.len), false, framed)
  }

  /** The runs for a goroutine are contained in its record. */
  ghost predicate GoroutineContained(cfg: Config, s: Shot, g: Goroutine, framed: bool)
    requires s.Ok()
  {
    hide DataContained, Unwind, Murmur.Hash, Interesting, Snapshots.WriteStack;
    s.m.buf.full || !Live(g) ||
    var stack := Unwind(cfg.env.memory, cfg.textBase, g.pc, g.bp, g.stackTop);
    var hash := Murmur.Hash(stack.pcs, 0);
    var (b, ok) := Bump(s.m.buf, NUM_GOROUTINES).EnsureLen(Wrap32(s.m.buf.len + GOROUTINE_HEADER));
    (ok ==>
      if hash in s.stacks then DataContained(cfg, WithBuf(s, b), stack.cfas, s.stacks[hash], framed)
      else
        var (b', ok') := WriteStack(b, stack.pcs);
        ok' ==> DataContained(cfg, WithBuf(s, b'), stack.cfas, Interesting(cfg.classifier, stack.pcs, 0), framed))
  }

  function StackHash(cfg: Config, g: Goroutine): u64 {
    Murmur.Hash(Unwind(cfg.env.memory, cfg.textBase, g.pc, g.bp, g.stackTop).pcs, 0)
  }

  /** A record of the goroutine. */
  predicate RecordOf(cfg: Config, r: Record, g: Goroutine) {
    r.goid == g.goid && r.stackHash == StackHash(cfg, g) && r.status == Unscanned(g.status)
  }

  /** The records rs fill the goroutine section; the stacks known are those in the output; and the
    * header counts the records, and the goroutine that overflowed if there is one. */
  ghost predicate Accounted(s: Shot, rs: seq<Record>, framed: bool) {
    && s.Ok()
    && RecordsAt(s.m.buf.mem, SNAPSHOT_HEADER, s.m.buf.len, rs, framed)
    && Deduplicated(rs)
    && (!s.m.buf.full ==> forall h: u64 :: h in s.stacks <==> HasStack(rs, h))
    && Read32(s.m.buf.mem, NUM_GOROUTINES) == Wrap32(|rs| + if s.m.buf.full then 1 else 0)
  }

  /** What is there while a record is being written: the records before it, and its stack. */
  ghost predicate Appending(s: Shot, rs: seq<Record>, framed: bool, start: nat, hash: u64, stackBytes: u32) {
    && s.Ok() && !s.m.buf.full
    && SNAPSHOT_HEADER <= start && s.m.buf.len == start + GOROUTINE_HEADER + stackBytes
    && RecordsAt(s.m.buf.mem, SNAPSHOT_HEADER, start, rs, framed)
    && stackBytes % 8 == 0
    && (stackBytes > 0 ==> Murmur.Hash(StackAt(s.m.buf.mem, start + GOROUTINE_HEADER, stackBytes / 8), 0) == hash)
  }

  lemma NothingIsASection(m: State)
    requires m.Ok() && !m.buf.full
    ensures Section(m.buf.mem, m, NothingSince(m.buf.len), false)
    ensures Complete(NothingSince(m.buf.len), false)
  {
  }

  /** The bytes of a record are complete once its header is written. */
  lemma RecordIsComplete(mem: seq<u8>, was: seq<u8>, start: nat, len: nat, r: Record, rs: seq<Record>, framed: bool)
    requires |was| == |mem| && SNAPSHOT_HEADER <= start && start + GOROUTINE_HEADER + r.stackBytes <= len <= |mem|
    requires forall i :: 0 <= i < start + GOROUTINE_HEADER + r.stackBytes ==> mem[i] == was[i]
    requires RecordsAt(was, SNAPSHOT_HEADER, start, rs, framed) && r.stackBytes % 8 == 0
    requires r.stackBytes > 0 ==>
               Murmur.Hash(StackAt(was, start + GOROUTINE_HEADER, r.stackBytes / 8), 0) == r.stackHash
    requires framed ==> Framed(mem, start + GOROUTINE_HEADER + r.stackBytes, len)
    requires r.dataLen == len - (start + GOROUTINE_HEADER)
    ensures var mem' := Splice(mem, start, RecordBytes(r));
            && RecordsAt(mem', SNAPSHOT_HEADER, len, rs + [r], framed)
            && SameBelow(was, mem', start)
  {
    hide RecordsAt, RecordBytes, StackAt, Framed, RecordAt, Murmur.Hash;
    var mem' := Splice(mem, start, RecordBytes(r));
    RecordAfterWrite(mem, start, r);
    BodyIsThere(mem, was, mem', start + GOROUTINE_HEADER, len, r, framed);
    hide BodyAt, Splice;
    RecordsBelow(was, mem', SNAPSHOT_HEADER, start, rs, framed);
    RecordsAppend(mem', SNAPSHOT_HEADER, start, rs, r, framed);
  }

  lemma BodyIsThere(mem: seq<u8>, was: seq<u8>, mem': seq<u8>, at: nat, len: nat, r: Record, framed: bool)
    requires |was| == |mem| == |mem'| && at + r.stackBytes <= len <= |mem|
    requires forall i :: at <= i < at + r.stackBytes ==> mem[i] == was[i]
    requires forall i :: at <= i < |mem| ==> mem'[i] == mem[i]
    requires r.stackBytes % 8 == 0
    requires r.stackBytes > 0 ==> Murmur.Hash(StackAt(was, at, r.stackBytes / 8), 0) == r.stackHash
    requires framed ==> Framed(mem, at + r.stackBytes, len)
    requires r.dataLen == len - at
    ensures BodyAt(mem', at, r, framed)
  {
    hide StackAt, Murmur.Hash, Framed;
    if r.stackBytes > 0 { StackIsLocal(was, mem', at, r.stackBytes / 8); }
    if framed { FramedBelow(mem, mem', at + r.stackBytes, len); }
  }

  lemma FramedBelow(a: seq<u8>, b: seq<u8>, lo: nat, hi: nat)
    requires Framed(a, lo, hi) && hi <= |b|
    requires forall i :: lo <= i < hi && i < |a| ==> a[i] == b[i]
    ensures Framed(b, lo, hi)
  {
    var fs :| FramesAt(a, lo, hi, fs);
    FramesBelow(a, b, lo, hi, fs);
  }

  /** Writing the data of a goroutine completes its record, or overflows and leaves the records
    * before it alone. */
  lemma DataIsRecorded(cfg: Config, s: Shot, g: Goroutine, stack: Stack, start: nat, stackBytes: u32,
                       frames: seq<FrameOfInterest>, rs: seq<Record>, framed: bool) returns (r: Record)
    requires Appending(s, rs, framed, start, StackHash(cfg, g), stackBytes)
    requires DataContained(cfg, s, stack.cfas, frames, framed)
    ensures RecordOf(cfg, r, g) && r.stackBytes == stackBytes
    ensures var t := WriteData(cfg, s, g, stack, StackHash(cfg, g), start, stackBytes, frames);
            t.Taken? ==>
              && t.s.Ok() && t.s.stacks == s.stacks
              && SameBelow(s.m.buf.mem, t.s.m.buf.mem, start)
              && (!t.s.m.buf.full ==> RecordsAt(t.s.m.buf.mem, SNAPSHOT_HEADER, t.s.m.buf.len, rs + [r], framed))
  {
    hide RunFrames, Section, FramesContained, Framed, RecordsAt, RecordBytes, StackAt, Unwind, Murmur.Hash, Complete;
    var hash := StackHash(cfg, g);
    NothingIsASection(s.m);
    FramesStayAbove(s.m.buf.mem, cfg.env, s.m, stack.cfas, frames, NothingSince(s.m.buf.len), false, framed);
    var run := RunFrames(cfg.env, s.m, stack.cfas, frames);
    var dataLen := if run.Done? then Wrap32(run.m.buf.len - (start + GOROUTINE_HEADER)) else 0;
    r := Record(g.goid, hash, Unscanned(g.status), stackBytes, dataLen);
    if run.Done? {
      WrapSmall(run.m.buf.len - (start + GOROUTINE_HEADER));
      if !run.m.buf.full {
        RecordIsComplete(run.m.buf.mem, s.m.buf.mem, start, run.m.buf.len, r, rs, framed);
      }
    }
  }

  /** The outcome of a goroutine that was given a record. */
  ghost predicate RecordWritten(cfg: Config, s: Shot, g: Goroutine, rs: seq<Record>, framed: bool, r: Record,
                                t: ShotResult) {
    s.Ok() && t.Taken? ==>
      && t.s.Ok()
      && Read32(t.s.m.buf.mem, NUM_GOROUTINES) == Read32(s.m.buf.mem, NUM_GOROUTINES)
      && (t.s.m.buf.full ==> RecordsAt(t.s.m.buf.mem, SNAPSHOT_HEADER, s.m.buf.len, rs, framed))
      && (!t.s.m.buf.full ==>
            && RecordOf(cfg, r, g)
            && RecordsAt(t.s.m.buf.mem, SNAPSHOT_HEADER, t.s.m.buf.len, rs + [r], framed)
            && (r.stackBytes == 0 <==> StackHash(cfg, g) in s.stacks)
            && t.s.stacks.Keys == s.stacks.Keys + {StackHash(cfg, g)})
  }

  lemma RecordsKept(a: seq<u8>, b: seq<u8>, hi: nat, rs: seq<Record>, framed: bool)
    requires RecordsAt(a, SNAPSHOT_HEADER, hi, rs, framed) && SameBelow(a, b, hi) && hi <= |b|
    ensures SNAPSHOT_HEADER <= hi
    ensures RecordsAt(b, SNAPSHOT_HEADER, hi, rs, framed)
    ensures NUM_GOROUTINES + 4 <= |a| && NUM_GOROUTINES + 4 <= |b|
    ensures Read32(b, NUM_GOROUTINES) == Read32(a, NUM_GOROUTINES)
  {
    RecordsEnd(a, SNAPSHOT_HEADER, hi, rs, framed);
    hide RecordsAt, Read32;
    RecordsBelow(a, b, SNAPSHOT_HEADER, hi, rs, framed);
    ReadSame(a, b, NUM_GOROUTINES);
  }

  /** A record that shares the stack of an earlier one. */
  lemma SharedIsRecorded(cfg: Config, s: Shot, b: Buf, g: Goroutine, stack: Stack, rs: seq<Record>, framed: bool)
    returns (r: Record)
    requires s.Ok() && !s.m.buf.full && RecordsAt(s.m.buf.mem, SNAPSHOT_HEADER, s.m.buf.len, rs, framed)
    requires b == s.m.buf.(len := s.m.buf.len + GOROUTINE_HEADER) && b.Ok()
    requires StackHash(cfg, g) in s.stacks
    requires DataContained(cfg, WithBuf(s, b), stack.cfas, s.stacks[StackHash(cfg, g)], framed)
    ensures RecordWritten(cfg, s, g, rs, framed, r,
                          WriteData(cfg, WithBuf(s, b), g, stack, StackHash(cfg, g), s.m.buf.len, 0,
                                    s.stacks[StackHash(cfg, g)]))
  {
    hide RecordsAt, WriteData, Read32, StackAt, Murmur.Hash, DataContained, StackHash;
    var hash := StackHash(cfg, g);
    RecordsKept(s.m.buf.mem, s.m.buf.mem, s.m.buf.len, rs, framed);
    r := DataIsRecorded(cfg, WithBuf(s, b), g, stack, s.m.buf.len, 0, s.stacks[hash], rs, framed);
    var t := WriteData(cfg, WithBuf(s, b), g, stack, hash, s.m.buf.len, 0, s.stacks[hash]);
    if t.Taken? { RecordsKept(s.m.buf.mem, t.s.m.buf.mem, s.m.buf.len, rs, framed); }
  }

  /** A record with a stack of its own. */
  lemma NewStackIsRecorded(cfg: Config, s: Shot, b: Buf, g: Goroutine, stack: Stack, rs: seq<Record>, framed: bool)
    returns (r: Record)
    requires s.Ok() && !s.m.buf.full && RecordsAt(s.m.buf.mem, SNAPSHOT_HEADER, s.m.buf.len, rs, framed)
    requires b == s.m.buf.(len := s.m.buf.len + GOROUTINE_HEADER) && b.Ok()
    requires StackHash(cfg, g) !in s.stacks && 1 <= |stack.pcs| <= MAX_FRAMES
    requires StackHash(cfg, g) == Murmur.Hash(stack.pcs, 0)
    requires WriteStack(b, stack.pcs).1 ==>
               DataContained(cfg, WithBuf(s, WriteStack(b, stack.pcs).0), stack.cfas,
                             Interesting(cfg.classifier, stack.pcs, 0), framed)
    ensures RecordWritten(cfg, s, g, rs, framed, r,
                          WriteWithStack(cfg, WithBuf(s, b), g, stack, StackHash(cfg, g), s.m.buf.len))
  {
    hide RecordsAt, WriteData, Read32, StackAt, Murmur.Hash, DataContained, StackHash, Interesting, StackBytes;
    var hash, start := StackHash(cfg, g), s.m.buf.len;
    RecordsKept(s.m.buf.mem, s.m.buf.mem, start, rs, framed);
    WrapSmall(b.len + 8 * |stack.pcs|);
    var (b', ok) := WriteStack(b, stack.pcs);
    r := Record(0, 0, 0, 0, 0);
    if ok {
      StackAfterWrite(b.mem, b.len, stack.pcs);
      assert b'.mem == Splice(b.mem, b.len, StackBytes(stack.pcs));
      hide Snapshots.WriteStack, Splice;
      RecordsKept(s.m.buf.mem, b'.mem, start, rs, framed);
      var frames := Interesting(cfg.classifier, stack.pcs, 0);
      var s1 := WithBuf(s, b').(stacks := s.stacks[hash := frames]);
      assert DataContained(cfg, s1, stack.cfas, frames, framed) by {
        SameContainment(cfg, WithBuf(s, b'), s1, stack.cfas, frames, framed);
      }
      assert 8 * |stack.pcs| / 8 == |stack.pcs| && 8 * |stack.pcs| % 8 == 0;
      assert Appending(s1, rs, framed, start, hash, 8 * |stack.pcs|);
      r := DataIsRecorded(cfg, s1, g, stack, start, 8 * |stack.pcs|, frames, rs, framed);
      var t := WriteData(cfg, s1, g, stack, hash, start, 8 * |stack.pcs|, frames);
      if t.Taken? { RecordsKept(s.m.buf.mem, t.s.m.buf.mem, start, rs, framed); }
    }
  }

  lemma SameContainment(cfg: Config, s: Shot, t: Shot, cfas: seq<u64>, frames: seq<FrameOfInterest>, framed: bool)
    requires s.Ok() && t.Ok() && s.m == t.m
    ensures DataContained(cfg, s, cfas, frames, framed) == DataContained(cfg, t, cfas, frames, framed)
  {
    hide FramesContained;
  }

  /** Counting leaves the records alone. */
  lemma BumpKeepsRecords(b: Buf, at: nat, rs: seq<Record>, framed: bool)
    requires b.Ok() && RecordsAt(b.mem, SNAPSHOT_HEADER, b.len, rs, framed)
    requires SNAPSHOT_HEADER <= |b.mem| && (at == NON_LIVE || at == NUM_GOROUTINES)
    ensures Bump(b, at).Ok() && Bump(b, at) == b.(mem := Bump(b, at).mem)
    ensures RecordsAt(Bump(b, at).mem, SNAPSHOT_HEADER, b.len, rs, framed)
    ensures Read32(Bump(b, at).mem, NUM_GOROUTINES)
            == if at == NON_LIVE then Read32(b.mem, NUM_GOROUTINES) else Wrap32(Read32(b.mem, NUM_GOROUTINES) + 1)
  {
    hide RecordsAt, Read32, Le32, Wrap32;
    ReadAfterWrite32(b.mem, at, Wrap32(Read32(b.mem, at) + 1));
    var mem := Bump(b, at).mem;
    assert SameOutside(b.mem, mem, at, at + 4);
    if at == NON_LIVE { ReadSame(b.mem, mem, NUM_GOROUTINES); }
    hide Splice;
    RecordsBelow(b.mem, mem, SNAPSHOT_HEADER, b.len, rs, framed);
  }

  lemma WrapOfSum(n: nat)
    ensures Wrap32(Wrap32(n) + 1) == Wrap32(n + 1)
  {
  }

  /** A live goroutine gets its record, or overflows the output. */
  lemma LiveIsRecorded(cfg: Config, s: Shot, g: Goroutine, rs: seq<Record>, framed: bool) returns (r: Record)
    requires s.Ok() && !s.m.buf.full && Live(g) && GoroutineContained(cfg, s, g, framed)
    requires RecordsAt(s.m.buf.mem, SNAPSHOT_HEADER, s.m.buf.len, rs, framed)
    ensures var s1 := WithBuf(s, Bump(s.m.buf, NUM_GOROUTINES));
            RecordWritten(cfg, s1, g, rs, framed, r, WriteGoroutine(cfg, s1, g))
  {
    hide RecordsAt, WriteData, WriteWithStack, Unwind, Murmur.Hash, DataContained, Interesting, Read32, Wrap32,
         RecordOf, Snapshots.WriteStack, Le32;
    BumpKeepsRecords(s.m.buf, NUM_GOROUTINES, rs, framed);
    hide Splice;
    var s1 := WithBuf(s, Bump(s.m.buf, NUM_GOROUTINES));
    var stack := Unwind(cfg.env.memory, cfg.textBase, g.pc, g.bp, g.stackTop);
    WrapSmall(s.m.buf.len + GOROUTINE_HEADER);
    hide Bump;
    var (b, ok) := s1.m.buf.EnsureLen(Wrap32(s.m.buf.len + GOROUTINE_HEADER));
    r := Record(0, 0, 0, 0, 0);
    if ok {
      if StackHash(cfg, g) in s.stacks {
        r := SharedIsRecorded(cfg, s1, b, g, stack, rs, framed);
      } else {
        r := NewStackIsRecorded(cfg, s1, b, g, stack, rs, framed);
      }
    }
  }

  /** One goroutine: it is skipped, gets its record, or overflows the output and is cut off. */
  lemma GoroutineIsAccounted(cfg: Config, s: Shot, g: Goroutine, rs: seq<Record>, framed: bool) returns (r: Record)
    requires Accounted(s, rs, framed) && GoroutineContained(cfg, s, g, framed)
    ensures var t := TakeWhole(cfg, s, g);
            t.Taken? ==>
              if s.m.buf.full || !Live(g) || t.s.m.buf.full then Accounted(t.s, rs, framed)
              else RecordOf(cfg, r, g) && Accounted(t.s, rs + [r], framed)
  {
    hide RecordsAt, WriteGoroutine, GoroutineContained, Read32, Wrap32, StackHash, Deduplicated, HasStack, Bump;
    r := Record(0, 0, 0, 0, 0);
    if s.m.buf.full {
    } else if Unscanned(g.status) == GDEAD {
      BumpKeepsRecords(s.m.buf, NON_LIVE, rs, framed);
    } else if Live(g) {
      r := LiveIsRecorded(cfg, s, g, rs, framed);
      BumpKeepsRecords(s.m.buf, NUM_GOROUTINES, rs, framed);
      WrapOfSum(|rs|);
      var t := TakeWhole(cfg, s, g);
      if t.Taken? && !t.s.m.buf.full {
        DeduplicatedGrows(rs, r);
        forall h: u64 ensures h in t.s.stacks <==> HasStack(rs + [r], h) {
          HasStackGrows(rs, r, h);
        }
      }
    }
  }

  // ---------------------------------------------------------------------------------------
  // All goroutines

  ghost predicate GoroutinesContained(cfg: Config, s: Shot, gs: seq<Goroutine>, framed: bool)
    requires s.Ok()
    decreases |gs|
  {
    hide GoroutineContained, TakeWhole;
    gs == [] ||
    (&& GoroutineContained(cfg, s, gs[0], framed)
     && var t := TakeWhole(cfg, s, gs[0]);
        t.Taken? ==> GoroutinesContained(cfg, t.s, gs[1..], framed))
  }

  function LiveOnes(gs: seq<Goroutine>): seq<Goroutine>
    decreases |gs|
  {
    if gs == [] then [] else (if Live(gs[0]) then [gs[0]] else []) + LiveOnes(gs[1..])
  }

  /** The records are those of the goroutines, one by one. */
  ghost predicate RecordsOf(cfg: Config, rs: seq<Record>, gs: seq<Goroutine>) {
    |rs| == |gs| && forall i :: 0 <= i < |rs| ==> RecordOf(cfg, rs[i], gs[i])
  }

  /** Once the output is full no goroutine is looked at. */
  lemma {:induction false} FullTakesNothing(cfg: Config, s: Shot, gs: seq<Goroutine>)
    requires s.Ok() && s.m.buf.full
    ensures TakeGoroutines(cfg, s, gs) == Taken(s)
    decreases |gs|
  {
    hide WriteGoroutine, Bump;
    if gs != [] { FullTakesNothing(cfg, s, gs[1..]); }
  }

  lemma AccountedIsOk(s: Shot, rs: seq<Record>, framed: bool)
    requires Accounted(s, rs, framed)
    ensures s.Ok()
  {
    hide RecordsAt;
  }

  /** The records in the output are those of the live goroutines, in order, up to the first one that
    * overflowed it; if none did, they are those of all live goroutines. */
  lemma {:induction false} GoroutinesAreAccounted(cfg: Config, s: Shot, gs: seq<Goroutine>, rs: seq<Record>,
                                                  framed: bool)
    returns (new_: seq<Record>, n: nat)
    requires Accounted(s, rs, framed) && GoroutinesContained(cfg, s, gs, framed)
    ensures n <= |gs|
    ensures var t := TakeGoroutines(cfg, s, gs);
            t.Taken? ==>
              && Accounted(t.s, rs + new_, framed)
              && (if s.m.buf.full then new_ == [] else RecordsOf(cfg, new_, LiveOnes(gs[..n])))
              && (!t.s.m.buf.full ==> n == |gs|)
    decreases |gs|
  {
    hide GoroutineContained, TakeWhole, Accounted, RecordOf;
    new_, n := [], 0;
    assert rs + [] == rs;
    assert s.Ok() by { AccountedIsOk(s, rs, framed); }
    if s.m.buf.full {
      FullTakesNothing(cfg, s, gs);
    } else if gs != [] {
      var r := GoroutineIsAccounted(cfg, s, gs[0], rs, framed);
      var t := TakeWhole(cfg, s, gs[0]);
      if t.Taken? {
        if t.s.m.buf.full {
          FullTakesNothing(cfg, t.s, gs[1..]);
        } else {
          var one := if Live(gs[0]) then [r] else [];
          assert Accounted(t.s, rs + one, framed);
          AccountedIsOk(t.s, rs + one, framed);
          var rest, k := GoroutinesAreAccounted(cfg, t.s, gs[1..], rs + one, framed);
          new_, n := one + rest, k + 1;
          assert rs + one + rest == rs + new_;
          assert gs[..n][1..] == gs[1..][..k];
        }
      }
    }
  }
}
