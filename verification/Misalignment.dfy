/** A snapshot that finishes with a length that is not a multiple of 8. */
module Misalignment {
  import opened Words
  import opened Bytes
  import opened Wrappers
  import opened Worklist
  import opened Buffer
  import opened Machine
  import opened Draining
  import opened Snapshots
  import opened Overwriting
  import opened D = Decoder

  /** A slot of 4 bytes, read relative to the frame base. */
  const SLOT := DereferenceCFAOffset(0, 4, 0)

  /** No program starts at pc 0; the one for the type of the static variable starts at pc 1, moves to the
    * end of the snapshot header and writes the slot there. */
  const OPS: seq<Op> := [Return, AdvanceOffset(56), SLOT, Return]

  const STARTS: seq<nat> := [0, 1, 6, 19, 20]

  lemma Sizes()
    ensures forall op :: op in OPS ==> Encodable(op)
    ensures forall j :: 0 <= j < |OPS| ==> STARTS[j + 1] == STARTS[j] + |Encode(OPS[j])|
  {
    hide Encode;
    forall j | 0 <= j < |OPS| ensures STARTS[j + 1] == STARTS[j] + |Encode(OPS[j])| { SizeOfEncoding(OPS[j]); }
  }

  function SlotProgram(): (prog: Program)
    ensures |prog| == 20
  {
    Sizes();
    LastStart(OPS, STARTS);
    EncodeAll(OPS)
  }

  lemma Decodes(i: nat)
    requires i < |OPS|
    ensures Decode(SlotProgram(), STARTS[i]) == Some((OPS[i], STARTS[i + 1]))
  {
    hide Decode, Encode;
    Sizes();
    LaidOutAt([], OPS, STARTS, i);
    assert [] + EncodeAll(OPS) == SlotProgram();
  }

  /** One static variable of 8 bytes, which is not serialized; no goroutines, no readable memory. */
  function OneSlot(): Config {
    var ti := TypeInfo(1, 8, false, None, None, None, None);
    Config(Env(SlotProgram(), map[], 0, 0, map[], map[1 := ti], [], [], 0, 0, 0), Targets([], []), 0, [OBJECT])
  }

  /** The output after the slot. */
  function SlotWritten(b: Buf): Buf
    requires 60 <= |b.mem|
  {
    b.(mem := Splice(b.mem, 56, Zeros(4)), len := 60)
  }

  lemma SlotIsZeroed(m: State)
    requires m.Ok() && m.offset == 56 && m.buf.len == 56 && 60 <= |m.buf.mem| && m.cfa == 0
    ensures Exec(OneSlot().env, 0, m, SLOT) == Next(m.(buf := SlotWritten(m.buf)))
  {
    hide SlotProgram, Splice, Zeros;
    WrapSmall(60);
    var mem: Memory := map[];
    assert Address(0, 0) !in mem;
    assert !Readable(mem, 0, 4);
  }

  lemma Steps(m: State, i: nat, next: State)
    requires m.Ok() && i < |OPS| && m.pc == STARTS[i]
    requires Exec(OneSlot().env, 0, m.(pc := STARTS[i + 1]), OPS[i]) == Next(next)
    ensures Step(OneSlot().env, 0, m) == Next(next)
  {
    hide Decode, Exec, SlotProgram;
    Decodes(i);
  }

  /** The run for the type of the variable. */
  lemma SlotRuns(m: State)
    requires m.Ok() && m.stack == [] && m.buf.len == 56 && 60 <= |m.buf.mem|
    ensures var r := Run(OneSlot().env, m, 1, 0, 0, 0);
            r.Done? && r.ok && r.m.buf == SlotWritten(m.buf) && r.m.work == m.work
  {
    hide Step, Iterate, SlotProgram, SlotWritten;
    var env := OneSlot().env;
    var m0 := m.(pc := 1, cfa := 0, offset := 0);
    var m1 := m0.(pc := 6, offset := 56);
    WrapSmall(56);
    Steps(m0, 1, m1);
    SlotIsZeroed(m1.(pc := 19));
    var m2 := m1.(pc := 19, buf := SlotWritten(m.buf));
    Steps(m1, 2, m2);
    assert m2.Ok() by { assert SlotWritten(m.buf).len == 60; }
    ReturnEnds(m2);
    IterateOnce(env, 0, m0, FUEL);
    IterateOnce(env, 0, m1, FUEL - 1);
    IterateOnce(env, 0, m2, FUEL - 2);
  }

  lemma ReturnEnds(m: State)
    requires m.Ok() && m.pc == 19 && m.stack == []
    ensures Step(OneSlot().env, 0, m) == Done(true, m.(pc := 20))
  {
    hide Decode, SlotProgram;
    Decodes(3);
  }

  /** The snapshot, at the capacity of the program, is not full, and the length in its header is 60. */
  lemma SnapshotIsMisaligned()
    ensures var s := StartShot(OneSlot(), CAPACITY);
            && TakeGoroutines(OneSlot(), s, []) == Taken(s) && s.m.work.Inv()
            && var r := FinishShot(OneSlot(), s);
               r.Done? && !r.m.buf.full && r.m.buf.len == 60 && Read32(r.m.buf.mem, DATA_LEN) == 60
  {
    hide StartShot, SlotProgram, Splice, Run, Work.Inv, Le32, Zeros, Read32;
    var cfg := OneSlot();
    StartOfOneObject(cfg);
    var s := StartShot(cfg, CAPACITY);
    WrapSmall(0);
    var start := s.m.(buf := SetHeader(s.m.buf, GOROUTINES_LEN, 0));
    var e := QueueEntry(1, 8, 0x1000);
    var m := Popped(start).(chased := e);
    SlotRuns(m);
    var r := Run(cfg.env, m, 1, 0, 0, 0);
    assert ProcessEntry(cfg.env, Popped(start), start.work.fifo[0]) == r;
    ProcessOnce(cfg.env, start);
    ProcessOnce(cfg.env, r.m);
    ReadAfterWrite32(r.m.buf.mem, DATA_LEN, 60);
  }
}
