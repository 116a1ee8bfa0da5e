/** An object for which there is no room overwrites the header of the snapshot, or memory that is not
  * the output's. */
module Overwriting {
  import opened Words
  import opened Bytes
  import opened Wrappers
  import opened Worklist
  import opened Buffer
  import opened Machine
  import opened Containment
  import opened Draining
  import opened Snapshots

  /** Whatever the snapshot, an object that is serialized without room for it replaces the start of
    * the output, from the header on, by its own bytes; then the program of its type is run. */
  lemma RefusedObjectOverwritesStart(env: Env, m: State, e: QueueEntry, ti: TypeInfo)
    requires m.Ok() && e.len > 0 && ti.serializeBeforeEnqueue
    requires Refused(m.buf, e.len) && e.len <= |m.buf.mem| && Readable(env.memory, e.addr, e.len)
    ensures var b := m.buf.(mem := Splice(m.buf.mem, 0, Fetch(env.memory, e.addr, e.len)), full := true);
            ProcessObject(env, m, e, ti) == EnqueueReferences(env, m.(buf := b), e, ti.enqueuePc, 0)
  {
    hide Buf.WriteEntry, Buf.WriteEntrySafe, Refused, Fetch, Splice, Readable, EnqueueReferences;
    RefusedEntryOverwritesStart(m.buf, env.memory, e);
  }

  /** One that is too large for the array, or cannot be read, makes the program write outside it. */
  lemma RefusedObjectLeavesArray(env: Env, m: State, e: QueueEntry, ti: TypeInfo)
    requires m.Ok() && e.len > 0 && ti.serializeBeforeEnqueue
    requires Refused(m.buf, e.len) && !(e.len <= |m.buf.mem| && Readable(env.memory, e.addr, e.len))
    ensures ProcessObject(env, m, e, ti) == Crash(BufferFault)
  {
    hide Buf.WriteEntry, Buf.WriteEntrySafe, Refused, Readable, EnqueueReferences;
    RefusedEntryLeavesArray(m.buf, env.memory, e);
  }

  /** The capacity of the program. */
  const CAPACITY := 0x10_0000
  const OBJECT := Key(0x1000, 1)

  /** One static variable of n bytes, in the given memory; no goroutines. */
  function OneObject(n: u32, memory: Memory): Config {
    var ti := TypeInfo(0, n, true, None, None, None, None);
    Config(Env([], memory, 0, 0, map[], map[OBJECT.typ := ti], [], [], 0, 0, 0), Targets([], []), 0, [OBJECT])
  }

  /** What a snapshot with one static variable starts with. */
  lemma StartOfOneObject(cfg: Config)
    requires cfg.staticVariables == [OBJECT] && cfg.env.bssAddrShift == 0
    ensures var s := StartShot(cfg, CAPACITY);
            && s.m.work.fifo == [QueueEntry(1, 0, 0x1000)] && s.m.work.Inv()
            && s.m.buf == Buf(Zeros(CAPACITY), 56, false) && s.m.stack == []
  {
    hide Zeros;
    assert Shifted([OBJECT], 0) == [OBJECT];
    var w := EMPTY_WORK.Push(0x1000, 1, 0);
    assert [OBJECT][1..] == [];
    assert PushAll(w, []) == w;
    assert PushAll(EMPTY_WORK, [OBJECT]) == w;
    PushAllKeepsInv(EMPTY_WORK, [OBJECT]);
  }

  /** The snapshot ends as the processing of its one object does. */
  lemma OneObjectFinishes(n: u32, memory: Memory) returns (m: State)
    requires n > 0
    ensures StartShot(OneObject(n, memory), CAPACITY).m.work.Inv()
    ensures m.Ok() && m.buf.len == 56 && |m.buf.mem| == CAPACITY
    ensures var cfg := OneObject(n, memory);
            var r := ProcessObject(cfg.env, m, QueueEntry(1, n, 0x1000), cfg.env.typeInfo[1]);
            r.Crash? || r.m.buf.full ==>
              FinishShot(cfg, StartShot(cfg, CAPACITY))
              == if r.Crash? then r else Done(true, r.m.(buf := SetHeader(r.m.buf, DATA_LEN, r.m.buf.len)))
  {
    hide StartShot, Splice, ProcessObject, Work.Inv, Le32, Zeros;
    var cfg := OneObject(n, memory);
    StartOfOneObject(cfg);
    var s := StartShot(cfg, CAPACITY);
    WrapSmall(0);
    var start := s.m.(buf := SetHeader(s.m.buf, GOROUTINES_LEN, 0));
    m := Popped(start);
    var e := QueueEntry(1, n, 0x1000);
    var r := ProcessObject(cfg.env, m, e, cfg.env.typeInfo[1]);
    assert ProcessEntry(cfg.env, m, start.work.fifo[0]) == r;
    ProcessOnce(cfg.env, start);
    if r.Done? { ProcessOnce(cfg.env, r.m); }
  }

  /** With an object of the size of the whole output, every byte 255: the output is then full, and the
    * header says that the goroutine section, which is empty, has 2^32 - 1 bytes. */
  lemma HeaderIsOverwritten()
    ensures var cfg := OneObject(CAPACITY, Filled(0x1000, CAPACITY, 255));
            && StartShot(cfg, CAPACITY).m.work.Inv()
            && var r := FinishShot(cfg, StartShot(cfg, CAPACITY));
               r.Done? && r.m.buf.full && r.m.buf.len == 56 && Read32(r.m.buf.mem, GOROUTINES_LEN) == 0xffff_ffff
  {
    hide StartShot, Splice, Filled, Fetch, Readable, Read32, ProcessObject, Work.Inv, Le32, FinishShot;
    var memory := Filled(0x1000, CAPACITY, 255);
    var cfg, e := OneObject(CAPACITY, memory), QueueEntry(1, CAPACITY, 0x1000);
    var m := OneObjectFinishes(CAPACITY, memory);
    FilledIsReadable(0x1000, CAPACITY, 255);
    RefusedObjectOverwritesStart(cfg.env, m, e, cfg.env.typeInfo[1]);
    HeaderBytes(m.buf.mem, Fetch(memory, e.addr, e.len));
  }

  lemma HeaderBytes(mem: seq<u8>, data: seq<u8>)
    requires |mem| == CAPACITY && |data| == CAPACITY && forall i :: 0 <= i < CAPACITY ==> data[i] == 255
    ensures Read32(Splice(Splice(mem, 0, data), 0, Le32(56)), GOROUTINES_LEN) == 0xffff_ffff
  {
    hide Le32;
  }

  /** With an object of 2 MiB, readable or not, or with one of the size of the whole output that cannot
    * be read, the program writes outside the backing array. */
  lemma ArrayIsLeft(memory: Memory)
    ensures StartShot(OneObject(2 * CAPACITY, memory), CAPACITY).m.work.Inv()
    ensures FinishShot(OneObject(2 * CAPACITY, memory), StartShot(OneObject(2 * CAPACITY, memory), CAPACITY))
            == Crash(BufferFault)
    ensures StartShot(OneObject(CAPACITY, map[]), CAPACITY).m.work.Inv()
    ensures FinishShot(OneObject(CAPACITY, map[]), StartShot(OneObject(CAPACITY, map[]), CAPACITY))
            == Crash(BufferFault)
  {
    hide StartShot, ProcessObject, Work.Inv, FinishShot, Readable;
    var cfg := OneObject(2 * CAPACITY, memory);
    var m := OneObjectFinishes(2 * CAPACITY, memory);
    RefusedObjectLeavesArray(cfg.env, m, QueueEntry(1, 2 * CAPACITY, 0x1000), cfg.env.typeInfo[1]);
    cfg := OneObject(CAPACITY, map[]);
    m := OneObjectFinishes(CAPACITY, map[]);
    NothingToRead(0x1000, CAPACITY);
    RefusedObjectLeavesArray(cfg.env, m, QueueEntry(1, CAPACITY, 0x1000), cfg.env.typeInfo[1]);
  }
}
