/** The stack between runs: a run that returns true has used up its stack; what a run that fails
  * leaves on it is there when the next one starts. */
module Leftovers {
  import opened Words
  import opened Bytes
  import opened Wrappers
  import opened Buffer
  import opened Machine
  import opened Runs
  import opened Records
  import opened Unwinding
  import opened Snapshots
  import opened Accounting
  import opened Overwriting
  import opened D = Decoder
  import StackShape
  import Murmur

  // ---------------------------------------------------------------------------------------
  // One run

  lemma OnlyReturnSucceeds(env: Env, depth: u32, m: State, op: Op)
    requires m.Ok()
    ensures var r := Exec(env, depth, m, op); r.Done? && r.ok ==> r.m.stack == []
  {
    hide ExecControl, ExecEnqueue, ExecDereferencePtr, ExecGoContext;
    if IsControl(op) {
      ControlSucceeds(env, m, op);
    } else if op.EnqueueHMapHeader? {
      HMapGoesOn(env, m, op);
    } else if op.DereferencePtr? {
      PointerSucceeds(env, m, op.bias, op.byteLen);
    } else {
      hide Exec;
      StackShape.OtherKeeps(env, depth, m, op);
    }
  }

  lemma ControlSucceeds(env: Env, m: State, op: Op)
    requires m.Ok() && IsControl(op)
    ensures var r := ExecControl(env, m, op); r.Done? && r.ok ==> r.m.stack == []
  {
    hide Wrap32, Quotient;
  }

  lemma HMapGoesOn(env: Env, m: State, op: Op)
    requires m.Ok() && op.EnqueueHMapHeader?
    ensures !ExecEnqueue(env, m, op).Done?
  {
    hide BucketsEnqueued, Read64, Wrap32;
  }

  lemma PointerSucceeds(env: Env, m: State, bias: u32, n: u32)
    requires m.Ok()
    ensures var r := ExecDereferencePtr(env, m, bias, n); r.Done? && r.ok ==> r.m.stack == []
  {
    hide Buf.WriteEntry, Buf.WriteEntrySafe, Read64;
  }

  lemma {:induction false} SuccessEmptiesStack(env: Env, depth: u32, m: State, fuel: nat)
    requires m.Ok()
    ensures var r := Iterate(env, depth, m, fuel); r.Done? && r.ok ==> r.m.stack == []
    decreases fuel
  {
    hide Step, Iterate;
    IterateOnce(env, depth, m, fuel);
    if fuel > 0 {
      StepSucceeds(env, depth, m);
      var r := Step(env, depth, m);
      if r.Next? { SuccessEmptiesStack(env, depth, r.m, fuel - 1); }
    }
  }

  lemma StepSucceeds(env: Env, depth: u32, m: State)
    requires m.Ok()
    ensures var r := Step(env, depth, m); r.Done? && r.ok ==> r.m.stack == []
  {
    hide Exec, Decode;
    if Current(env, m).Some? {
      StepExecutes(env, depth, m);
      OnlyReturnSucceeds(env, depth, Fetched(env, m), Current(env, m).value);
    }
  }

  /** A run that returns true leaves an empty stack, whatever the program, and whatever was on the stack
    * when it started. */
  lemma RunEmptiesStack(env: Env, m: State, pc: u32, cfa: u64, depth: u32, offset: u32)
    requires m.Ok()
    ensures var r := Run(env, m, pc, cfa, depth, offset); r.Done? && r.ok ==> r.m.stack == []
  {
    hide Iterate;
    if pc < |env.prog| { SuccessEmptiesStack(env, depth, Starting(m, pc, cfa, offset), FUEL); }
  }

  // ---------------------------------------------------------------------------------------
  // All runs of the goroutines

  /** Every run for the frames of a goroutine starts on an empty stack. */
  ghost predicate FramesStartEmpty(env: Env, m: State, cfas: seq<u64>, frames: seq<FrameOfInterest>)
    requires m.Ok()
    decreases |frames|
  {
    hide Run;
    frames == [] ||
    (&& m.stack == []
     && var r := RunFrame(env, m, cfas, frames[|frames| - 1]);
        r.Done? && r.ok ==> FramesStartEmpty(env, r.m, cfas, frames[..|frames| - 1]))
  }

  lemma {:induction false} FramesEmptyStack(env: Env, m: State, cfas: seq<u64>, frames: seq<FrameOfInterest>)
    requires m.Ok() && m.stack == []
    ensures FramesStartEmpty(env, m, cfas, frames)
    ensures var r := RunFrames(env, m, cfas, frames); r.Done? && r.ok ==> r.m.stack == []
    decreases |frames|
  {
    hide Run;
    RunFramesOnce(env, m, cfas, frames);
    if frames != [] {
      var foi := frames[|frames| - 1];
      if foi.idx < |cfas| { RunEmptiesStack(env, m, foi.pc, cfas[foi.idx], foi.idx, m.buf.len); }
      var r := RunFrame(env, m, cfas, foi);
      if r.Done? && r.ok { FramesEmptyStack(env, r.m, cfas, frames[..|frames| - 1]); }
    }
  }

  /** The runs for a goroutine: the state in which they start, and the frames. */
  ghost function RunsOf(cfg: Config, s: Shot, g: Goroutine): Option<(State, seq<u64>, seq<FrameOfInterest>)>
    requires s.Ok()
  {
    hide Unwind, Murmur.Hash, Interesting, Snapshots.WriteStack;
    if s.m.buf.full || !Live(g) then None
    else
      var stack := Unwind(cfg.env.memory, cfg.textBase, g.pc, g.bp, g.stackTop);
      var hash := Murmur.Hash(stack.pcs, 0);
      var (b, ok) := Bump(s.m.buf, NUM_GOROUTINES).EnsureLen(Wrap32(s.m.buf.len + GOROUTINE_HEADER));
      if !ok then None
      else if hash in s.stacks then Some((s.m.(buf := b), stack.cfas, s.stacks[hash]))
      else
        var (b', ok') := Snapshots.WriteStack(b, stack.pcs);
        if !ok' then None else Some((s.m.(buf := b'), stack.cfas, Interesting(cfg.classifier, stack.pcs, 0)))
  }

  /** A goroutine leaves the stack as its last run left it. */
  lemma StackAfterGoroutine(cfg: Config, s: Shot, g: Goroutine)
    requires s.Ok()
    ensures var t, runs := TakeWhole(cfg, s, g), RunsOf(cfg, s, g);
            if runs.None? then t.Taken? && t.s.m.stack == s.m.stack && (s.m.buf.full ==> t.s.m.buf.full)
            else
              var (m, cfas, frames) := runs.value;
              && m.Ok() && m.stack == s.m.stack
              && var r := RunFrames(cfg.env, m, cfas, frames);
                 && (t.Taken? <==> r.Done?)
                 && (t.Taken? ==> t.s.m.stack == r.m.stack && t.s.m.buf.full == r.m.buf.full)
  {
    hide RunFrames, Interesting, Unwind, Murmur.Hash, Snapshots.WriteStack, Wrap32, Le32, Read32, Splice,
         RecordBytes;
    WrapSmall(s.m.buf.len + GOROUTINE_HEADER);
  }

  /** Every run for the goroutines starts on an empty stack, and so does what comes after them. */
  ghost predicate StartEmpty(cfg: Config, s: Shot, gs: seq<Goroutine>)
    requires s.Ok()
    decreases |gs|
  {
    hide TakeWhole, RunsOf;
    && (s.m.buf.full || s.m.stack == [])
    && (gs == [] ||
        (&& (match RunsOf(cfg, s, gs[0])
             case None => true
             case Some((m, cfas, frames)) => m.Ok() && FramesStartEmpty(cfg.env, m, cfas, frames))
         && var t := TakeWhole(cfg, s, gs[0]);
            t.Taken? ==> StartEmpty(cfg, t.s, gs[1..])))
  }

  /** A run that fails does so with an empty stack, or because the output overflows. */
  ghost predicate FailEmpty(cfg: Config, s: Shot, gs: seq<Goroutine>)
    requires s.Ok()
    decreases |gs|
  {
    hide TakeWhole, RunsOf, RunFrames;
    gs == [] ||
    (&& (match RunsOf(cfg, s, gs[0])
         case None => true
         case Some((m, cfas, frames)) =>
           m.Ok() ==>
             var r := RunFrames(cfg.env, m, cfas, frames);
             r.Done? && !r.ok ==> r.m.buf.full || r.m.stack == [])
     && var t := TakeWhole(cfg, s, gs[0]);
        t.Taken? ==> FailEmpty(cfg, t.s, gs[1..]))
  }

  /** All runs of a snapshot start on an empty stack exactly if the runs that fail, other than for want
    * of room, leave none behind. */
  lemma {:induction false} StacksStayEmpty(cfg: Config, s: Shot, gs: seq<Goroutine>)
    requires s.Ok() && (s.m.buf.full || s.m.stack == [])
    ensures StartEmpty(cfg, s, gs) <==> FailEmpty(cfg, s, gs)
    decreases |gs|
  {
    hide TakeWhole, RunsOf, RunFrames, FramesStartEmpty;
    if gs != [] {
      var t, runs := TakeWhole(cfg, s, gs[0]), RunsOf(cfg, s, gs[0]);
      StackAfterGoroutine(cfg, s, gs[0]);
      if runs.Some? {
        FullRunsNothing(cfg, s, gs[0]);
        var (m, cfas, frames) := runs.value;
        FramesEmptyStack(cfg.env, m, cfas, frames);
      }
      if t.Taken? && (t.s.m.buf.full || t.s.m.stack == []) {
        StacksStayEmpty(cfg, t.s, gs[1..]);
      } else if t.Taken? {
        assert !StartEmpty(cfg, t.s, gs[1..]);
        assert !FailEmpty(cfg, s, gs);
      }
    }
  }

  lemma FullRunsNothing(cfg: Config, s: Shot, g: Goroutine)
    requires s.Ok()
    ensures s.m.buf.full ==> RunsOf(cfg, s, g) == None
  {
  }

  // ---------------------------------------------------------------------------------------
  // A stack that is left

  /** The program at pc 1 returns to an address that no program has; the one at pc 6 only returns. */
  const OPS: seq<Op> := [Return, PushImm(100), Return]

  const STARTS: seq<nat> := [0, 1, 6, 7]

  lemma Sizes()
    ensures forall op :: op in OPS ==> Encodable(op)
    ensures forall j :: 0 <= j < |OPS| ==> STARTS[j + 1] == STARTS[j] + |Encode(OPS[j])|
  {
    hide Encode;
    forall j | 0 <= j < |OPS| ensures STARTS[j + 1] == STARTS[j] + |Encode(OPS[j])| { SizeOfEncoding(OPS[j]); }
  }

  function LeavingProgram(): (prog: Program)
    ensures |prog| == 7
  {
    Sizes();
    LastStart(OPS, STARTS);
    EncodeAll(OPS)
  }

  lemma Decodes(i: nat)
    requires i < |OPS|
    ensures Decode(LeavingProgram(), STARTS[i]) == Some((OPS[i], STARTS[i + 1]))
  {
    hide Decode, Encode;
    Sizes();
    LaidOutAt([], OPS, STARTS, i);
    assert [] + EncodeAll(OPS) == LeavingProgram();
  }

  /** One goroutine waits in a frame that the program at pc 1 is for; there are no static variables. */
  function OneFrame(): Config {
    Config(Env(LeavingProgram(), map[], 0, 0, map[], map[], [], [], 0, 0, 0), Targets([10], [1]), 0, [])
  }

  const WAITING := Goroutine(1, 4, 5, 0, 0)

  lemma ReturnRuns(m: State)
    requires m.Ok() && (m.stack == [] || m.stack == [100])
    ensures var r := Run(OneFrame().env, m, 6, 0, 0, 0);
            r.Done? && r.ok == (m.stack == []) && r.m.stack == m.stack
  {
    hide Decode, Iterate, LeavingProgram;
    Decodes(2);
    IterateOnce(OneFrame().env, 0, Starting(m, 6, 0, 0), FUEL);
  }

  lemma FrameRuns(m: State, cfa: u64, depth: u32, offset: u32)
    requires m.Ok() && m.stack == []
    ensures var r := Run(OneFrame().env, m, 1, cfa, depth, offset);
            r.Done? && !r.ok && r.m.stack == [100] && r.m.buf == m.buf
  {
    hide Decode, Iterate, LeavingProgram;
    Decodes(1);
    Decodes(2);
    var env, m0 := OneFrame().env, Starting(m, 1, cfa, offset);
    var m1 := m0.(pc := 6, stack := [100]);
    assert Step(env, depth, m0) == Next(m1) by { assert m0.stack + [100] == [100]; }
    assert Step(env, depth, m1) == Done(false, m1.(pc := 7));
    IterateOnce(env, depth, m0, FUEL);
    IterateOnce(env, depth, m1, FUEL - 1);
  }

  lemma FrameIsInteresting()
    ensures Unwind(map[], 0, 5, 0, 0) == Stack([5], [0])
    ensures Interesting(OneFrame().classifier, [5], 0) == [FrameOfInterest(0, 1)]
  {
    hide LeavingProgram;
    var c := OneFrame().classifier;
    assert Search(c.targetPc, 5, 0, 1) == 0;
    assert Interesting(c, [5], 1) == [];
  }

  /** In this snapshot the run for the goroutine fails with room left, and its word stays on the stack.
    * A run that then only returns fails, where it would succeed on an empty stack. */
  lemma StackIsLeft() returns (s: Shot)
    ensures TakeGoroutines(OneFrame(), StartShot(OneFrame(), CAPACITY), [WAITING]) == Taken(s)
    ensures !s.m.buf.full && s.m.stack == [100]
    ensures !StartEmpty(OneFrame(), StartShot(OneFrame(), CAPACITY), [WAITING])
    ensures var r := Run(OneFrame().env, s.m, 6, 0, 0, 0); r.Done? && !r.ok
    ensures var r := Run(OneFrame().env, s.m.(stack := []), 6, 0, 0, 0); r.Done? && r.ok
  {
    hide StartShot, Run, RunFrames, TakeWhole, RunsOf, LeavingProgram, OneFrame;
    var cfg, start := OneFrame(), StartShot(OneFrame(), CAPACITY);
    StartsPlain();
    RunsOfWaiting(start);
    var (m, cfas, frames) := RunsOf(cfg, start, WAITING).value;
    RunFramesOnce(cfg.env, m, cfas, frames);
    FrameRuns(m, 0, 0, m.buf.len);
    StackAfterGoroutine(cfg, start, WAITING);
    var t := TakeWhole(cfg, start, WAITING);
    TakeOnce(cfg, start, [WAITING], 0);
    assert [WAITING][0..] == [WAITING];
    TakeOnce(cfg, t.s, [WAITING], 1);
    s := t.s;
    ReturnRuns(s.m);
    ReturnRuns(s.m.(stack := []));
  }

  lemma StartsPlain()
    ensures var s := StartShot(OneFrame(), CAPACITY);
            !s.m.buf.full && s.m.stack == [] && s.m.buf.len == SNAPSHOT_HEADER && s.stacks == map[] && s.Ok()
            && |s.m.buf.mem| == CAPACITY
  {
    hide PushAll, Shifted, Zeros, OneFrame;
  }

  lemma RunsOfWaiting(s: Shot)
    requires s.Ok() && !s.m.buf.full && s.stacks == map[] && s.m.buf.len == SNAPSHOT_HEADER && |s.m.buf.mem| == CAPACITY
    ensures match RunsOf(OneFrame(), s, WAITING)
            case None => false
            case Some((m, cfas, frames)) =>
              m.Ok() && !m.buf.full && m.stack == s.m.stack && cfas == [0] && frames == [FrameOfInterest(0, 1)]
  {
    hide LeavingProgram, Unwind, Interesting, Murmur.Hash, Splice, Le32, Read32, StackBytes;
    FrameIsInteresting();
    WrapSmall(SNAPSHOT_HEADER + GOROUTINE_HEADER);
    WrapSmall(SNAPSHOT_HEADER + GOROUTINE_HEADER + 8);
  }
}
