/** The whole output of a snapshot: a header whose lengths are right, the goroutine section, and the
  * objects from the worklist, all found again by a reader that steps by the lengths. */
module WholeOutput {
  import opened Words
  import opened Bytes
  import opened Wrappers
  import opened Worklist
  import opened Buffer
  import opened BufferFacts
  import opened Machine
  import opened Framing
  import opened FramedRun
  import opened Containment
  import opened Records
  import opened Draining
  import opened Snapshots
  import opened Accounting
  import opened D = Decoder

  // ---------------------------------------------------------------------------------------
  // One object

  ghost predicate ReferencesContained(env: Env, m: State, e: QueueEntry, pc: u32, offset: u32, l: Layout, open: bool)
    requires m.Ok()
  {
    pc == 0 || pc >= |env.prog| || Contained(env, 0, Starting(m.(chased := e), pc, 0, offset), l, open, FUEL)
  }

  /** The entry goes where the entries end, there is room for it, and the run that enqueues its
    * references is contained. */
  ghost predicate ObjectContained(env: Env, m: State, e: QueueEntry, ti: TypeInfo, l: Layout, open: bool)
    requires m.Ok()
  {
    hide ReferencesContained, Buf.WriteEntry, Buf.WriteEntrySafe;
    e.len == 0 ||
    if !ti.serializeBeforeEnqueue then ReferencesContained(env, m, e, ti.enqueuePc, 0, l, open)
    else
      && !open && Small(e.len) && !Refused(m.buf, e.len)
      && (m.buf.WriteEntrySafe(env.memory, e) ==>
            var (b, r) := m.buf.WriteEntry(env.memory, e);
            r.Some? && m.(buf := b).Ok() ==>
              ReferencesContained(env, m.(buf := b), e, ti.enqueuePc, r.value, l.Add(e), false))
  }

  ghost predicate EntryContained(env: Env, m: State, e: QueueEntry, l: Layout, open: bool)
    requires m.Ok()
  {
    e.typ in env.typeInfo ==>
      ObjectContained(env, m, Clamped(e, env.typeInfo[e.typ]), env.typeInfo[e.typ], l, open)
  }

  ghost function ReferencesLayout(env: Env, m: State, e: QueueEntry, pc: u32, offset: u32, l: Layout, open: bool)
    : (Layout, bool)
    requires m.Ok()
  {
    if pc == 0 || pc >= |env.prog| then (l, open)
    else FinalLayout(env, 0, Starting(m.(chased := e), pc, 0, offset), l, open, FUEL)
  }

  ghost function ObjectLayout(env: Env, m: State, e: QueueEntry, ti: TypeInfo, l: Layout, open: bool): (Layout, bool)
    requires m.Ok()
  {
    hide ReferencesLayout, Buf.WriteEntry, Buf.WriteEntrySafe;
    if e.len == 0 then (l, open)
    else if !ti.serializeBeforeEnqueue then ReferencesLayout(env, m, e, ti.enqueuePc, 0, l, open)
    else if !m.buf.WriteEntrySafe(env.memory, e) then (l, open)
    else
      var (b, r) := m.buf.WriteEntry(env.memory, e);
      if r.None? || !m.(buf := b).Ok() then (l.Add(Recorded(e, false)), open)
      else ReferencesLayout(env, m.(buf := b), e, ti.enqueuePc, r.value, l.Add(e), false)
  }

  ghost function EntryLayout(env: Env, m: State, e: QueueEntry, l: Layout, open: bool): (Layout, bool)
    requires m.Ok()
  {
    if e.typ !in env.typeInfo then (l, open)
    else ObjectLayout(env, m, Clamped(e, env.typeInfo[e.typ]), env.typeInfo[e.typ], l, open)
  }

  /** Everything a layout holds, in the order in which it was written. */
  function Contents(l: Layout): seq<QueueEntry> { Flatten(l.frames) + l.entries }

  function Flatten(fs: seq<seq<QueueEntry>>): seq<QueueEntry>
    decreases |fs|
  {
    if fs == [] then [] else Flatten(fs[..|fs| - 1]) + fs[|fs| - 1]
  }

  lemma ContentsGrow(env: Env, m: State, op: Op, m': State, l: Layout, open: bool)
    requires m.Ok() && Orderly(env, m, op, l, open)
    ensures Contents(l) <= Contents(LayoutAfter(env, m, op, m', l))
  {
    hide Read64, Layout.DataAt;
    var l' := LayoutAfter(env, m, op, m', l);
    if op.ConcludeFrameData? {
      assert l'.frames[..|l'.frames| - 1] == l.frames;
      assert Contents(l') == Contents(l);
    } else {
      assert l'.frames == l.frames && l.entries <= l'.entries;
    }
  }

  lemma {:induction false} RunContentsGrow(env: Env, depth: u32, m: State, l: Layout, open: bool, fuel: nat)
    requires m.Ok() && OrderlyRun(env, depth, m, l, open, fuel)
    ensures Contents(l) <= Contents(FinalLayout(env, depth, m, l, open, fuel).0)
    decreases fuel
  {
    hide Step, LayoutAfter, Alignment.OpenAfter, D.Decode, Runs.Fetched, Runs.Current, Orderly, Contents;
    if fuel > 0 && Runs.Current(env, m).Some? {
      var op, m1 := Runs.Current(env, m).value, Runs.Fetched(env, m);
      var r := Step(env, depth, m);
      if !r.Crash? {
        ContentsGrow(env, m1, op, r.m, l, open);
        if r.Next? {
          RunContentsGrow(env, depth, r.m, LayoutAfter(env, m1, op, r.m, l), Alignment.OpenAfter(env, m1, op, open),
                          fuel - 1);
        }
      }
    }
  }

  /** What the output is expected to hold after a step: nothing below the layout changed, and unless
    * it overflowed, it is laid out as l', with everything l held and after it, entry x. */
  ghost predicate Grown(base: seq<u8>, r: Outcome, l: Layout, l': Layout, open': bool, x: Option<QueueEntry>) {
    r.Done? ==>
      && Kept(base, r.m, l.lo)
      && (!r.m.buf.full ==>
            && Section(base, r.m, l', open') && l'.lo == l.lo
            && Contents(l) <= Contents(l')
            && (x.Some? ==> x.value in Contents(l')))
  }

  lemma ReferencesGrow(base: seq<u8>, env: Env, m: State, e: QueueEntry, pc: u32, offset: u32, l: Layout, open: bool)
    requires Section(base, m, l, open) && ReferencesContained(env, m, e, pc, offset, l, open)
    ensures var (l', open') := ReferencesLayout(env, m, e, pc, offset, l, open);
            Grown(base, EnqueueReferences(env, m, e, pc, offset), l, l', open', None)
  {
    hide Run, FinalLayout, LaidOut, OrderlyRun, Unrefused, Contents;
    var m1 := m.(chased := e);
    assert Section(base, m1, l, open);
    SectionKeeps(base, m, l, open);
    SectionKeeps(base, m1, l, open);
    hide Section, Kept;
    if pc != 0 {
      if pc >= |env.prog| {
        RunNowhere(env, m1, pc, 0, 0, offset);
        assert Section(base, m1, l, open);
      } else {
        RunKeeps(base, env, 0, m1, pc, 0, offset, l, open);
        RunContentsGrow(env, 0, Starting(m1, pc, 0, offset), l, open, FUEL);
      }
    }
  }

  lemma AddedContents(l: Layout, e: QueueEntry)
    ensures Contents(l) <= Contents(l.Add(e)) && e in Contents(l.Add(e))
  {
    assert Contents(l.Add(e)) == Contents(l) + [e];
  }

  lemma WrittenSection(base: seq<u8>, env: Env, m: State, e: QueueEntry, l: Layout)
    requires Section(base, m, l, false) && Small(e.len) && !Refused(m.buf, e.len)
    requires m.buf.WriteEntrySafe(env.memory, e)
    ensures var (b, r) := m.buf.WriteEntry(env.memory, e);
            && b.Ok() && r.Some? == Readable(env.memory, e.addr, e.len)
            && Section(base, m.(buf := b), l.Add(Recorded(e, r.Some?)), false)
  {
    hide LaidOut, Buf.WriteEntry, Buf.WriteEntrySafe, Refused, HeaderAt, Pad8, Readable;
    SmallIsAccommodated(m.buf, e.len);
    AcceptedEntryIsLocal(m.buf, env.memory, e);
    WriteEntryFits(m.buf, env.memory, e);
    var (b, r) := m.buf.WriteEntry(env.memory, e);
    AppendedSection(base, env, m, l, e, m.(buf := b));
  }

  lemma ObjectGrows(base: seq<u8>, env: Env, m: State, e: QueueEntry, ti: TypeInfo, l: Layout, open: bool)
    requires Section(base, m, l, open) && ObjectContained(env, m, e, ti, l, open)
    ensures var (l', open') := ObjectLayout(env, m, e, ti, l, open);
            var x := if e.len == 0 || !ti.serializeBeforeEnqueue then None
                     else Some(Recorded(e, Readable(env.memory, e.addr, e.len)));
            Grown(base, ProcessObject(env, m, e, ti), l, l', open', x)
  {
    hide ReferencesContained, ReferencesLayout, EnqueueReferences, Buf.WriteEntry, Buf.WriteEntrySafe, Contents, Kept,
         Readable;
    SectionKeeps(base, m, l, open);
    if e.len == 0 {
    } else if !ti.serializeBeforeEnqueue {
      hide Section;
      ReferencesGrow(base, env, m, e, ti.enqueuePc, 0, l, open);
    } else if m.buf.WriteEntrySafe(env.memory, e) {
      WrittenSection(base, env, m, e, l);
      var (b, r) := m.buf.WriteEntry(env.memory, e);
      var l1 := l.Add(Recorded(e, r.Some?));
      AddedContents(l, Recorded(e, r.Some?));
      SectionKeeps(base, m.(buf := b), l1, false);
      hide Section;
      if r.Some? {
        ReferencesGrow(base, env, m.(buf := b), e, ti.enqueuePc, r.value, l1, false);
      }
    }
  }

  // ---------------------------------------------------------------------------------------
  // The whole worklist

  /** An entry of the worklist whose object is to be serialized is in the output, flagged if it could
    * not be read. */
  ghost predicate Shown(env: Env, e: QueueEntry, contents: seq<QueueEntry>) {
    e.typ in env.typeInfo ==>
      var ti := env.typeInfo[e.typ];
      var c := Clamped(e, ti);
      ti.serializeBeforeEnqueue && c.len > 0 ==> Recorded(c, Readable(env.memory, c.addr, c.len)) in contents
  }

  lemma EntryGrows(base: seq<u8>, env: Env, m: State, e: QueueEntry, l: Layout, open: bool)
    requires Section(base, m, l, open) && EntryContained(env, m, e, l, open)
    ensures var (l', open') := EntryLayout(env, m, e, l, open);
            var r := ProcessEntry(env, m, e);
            Grown(base, r, l, l', open', None) && (r.Done? && !r.m.buf.full ==> Shown(env, e, Contents(l')))
  {
    hide ProcessObject, ObjectLayout, ObjectContained, Contents, Kept, Readable;
    SectionKeeps(base, m, l, open);
    hide Section;
    if e.typ in env.typeInfo {
      ObjectGrows(base, env, m, Clamped(e, env.typeInfo[e.typ]), env.typeInfo[e.typ], l, open);
    }
  }

  /** Only complete entries: every expression is closed, and there are no frames. */
  predicate EntriesOnly(l: Layout, open: bool) {
    !open && l.header.None? && l.frames == []
  }

  /** Every entry popped is contained; if closed, it leaves only complete entries unless it overflows
    * the output. */
  ghost predicate DrainContained(env: Env, m: State, l: Layout, open: bool, closed: bool)
    requires m.Ok() && m.work.Inv()
    decreases Unseen(m.work), |m.work.fifo|
  {
    hide ProcessEntry, EntryContained, EntryLayout, Drains, Work.Inv;
    m.buf.full || m.work.fifo == [] ||
    (&& EntryContained(env, Popped(m), m.work.fifo[0], l, open)
     && (EntryMakesProgress(env, m);
         var r := ProcessEntry(env, Popped(m), m.work.fifo[0]);
         var (l', open') := EntryLayout(env, Popped(m), m.work.fifo[0], l, open);
         r.Done? ==>
           && (closed && !r.m.buf.full ==> EntriesOnly(l', open'))
           && DrainContained(env, r.m, l', open', closed)))
  }

  /** What the output holds after the worklist is drained. */
  ghost function DrainLayout(env: Env, m: State, l: Layout, open: bool): (Layout, bool)
    requires m.Ok() && m.work.Inv()
    decreases Unseen(m.work), |m.work.fifo|
  {
    hide ProcessEntry, EntryLayout, Drains, Work.Inv;
    if m.buf.full || m.work.fifo == [] then (l, open)
    else
      EntryMakesProgress(env, m);
      var r := ProcessEntry(env, Popped(m), m.work.fifo[0]);
      var (l', open') := EntryLayout(env, Popped(m), m.work.fifo[0], l, open);
      if r.Done? then DrainLayout(env, r.m, l', open') else (l, open)
  }

  ghost predicate AllShown(env: Env, popped: seq<QueueEntry>, from_: nat, contents: seq<QueueEntry>) {
    forall i :: from_ <= i < |popped| ==> Shown(env, popped[i], contents)
  }

  lemma AllShownGrows(env: Env, popped: seq<QueueEntry>, from_: nat, e: QueueEntry, a: seq<QueueEntry>,
                      b: seq<QueueEntry>)
    requires from_ < |popped| && popped[from_] == e && Shown(env, e, a) && a <= b
    requires AllShown(env, popped, from_ + 1, b)
    ensures AllShown(env, popped, from_, b)
  {
    forall x | x in a ensures x in b {
      var i :| 0 <= i < |a| && a[i] == x;
      assert b[i] == x;
    }
  }

  /** What draining leaves: below the layout nothing changed, even if the output overflowed; if it did
    * not, it is laid out as l', in which the objects of all entries popped are. */
  ghost predicate Drained(base: seq<u8>, env: Env, r: Outcome, from_: nat, l: Layout, l': Layout, open': bool,
                          closed: bool) {
    && Grown(base, r, l, l', open', None)
    && (r.Done? && !r.m.buf.full ==>
          && AllShown(env, r.m.work.popped, from_, Contents(l'))
          && (closed ==> EntriesOnly(l', open')))
  }

  lemma {:induction false} DrainGrows(base: seq<u8>, env: Env, m: State, l: Layout, open: bool, closed: bool)
    requires Section(base, m, l, open) && m.work.Inv() && DrainContained(env, m, l, open, closed)
    requires closed ==> EntriesOnly(l, open)
    ensures var (l', open') := DrainLayout(env, m, l, open);
            Drained(base, env, Process(env, m), |m.work.popped|, l, l', open', closed)
    decreases Unseen(m.work), |m.work.fifo|
  {
    hide ProcessEntry, EntryContained, EntryLayout, Contents, Kept, Work.Inv, Shown, Section, EntriesOnly;
    SectionOk(base, m, l, open);
    SectionKeeps(base, m, l, open);
    ProcessOnce(env, m);
    if m.work.fifo != [] {
      EntryMakesProgress(env, m);
      assert Section(base, Popped(m), l, open) by { PoppedSection(base, m, l, open); }
      EntryGrows(base, env, Popped(m), m.work.fifo[0], l, open);
      var r := ProcessEntry(env, Popped(m), m.work.fifo[0]);
      var (l1, open1) := EntryLayout(env, Popped(m), m.work.fifo[0], l, open);
      if r.Done? {
        EntryPops(env, m);
        if r.m.buf.full {
          ProcessOnce(env, r.m);
        } else {
          DrainGrows(base, env, r.m, l1, open1, closed);
          var last := Process(env, r.m);
          var (l', _) := DrainLayout(env, r.m, l1, open1);
          if last.Done? && !last.m.buf.full {
            ProcessedIsClosed(env, r.m);
            AllShownGrows(env, last.m.work.popped, |m.work.popped|, m.work.fifo[0], Contents(l1), Contents(l'));
          }
        }
      }
    }
  }

  lemma PoppedSection(base: seq<u8>, m: State, l: Layout, open: bool)
    requires Section(base, m, l, open) && m.work.fifo != []
    ensures Section(base, Popped(m), l, open)
  {
    hide LaidOut;
  }

  lemma EntryPops(env: Env, m: State)
    requires m.Ok() && m.work.Inv() && m.work.fifo != []
    ensures var r := ProcessEntry(env, Popped(m), m.work.fifo[0]);
            r.Done? ==> r.m.work.popped == m.work.popped + [m.work.fifo[0]]
  {
    hide ProcessEntry;
    PopKeepsInv(m.work);
    EntryIsMonotone(env, Popped(m), m.work.fifo[0]);
  }

  // ---------------------------------------------------------------------------------------
  // The whole snapshot

  /** A field of the snapshot header lies below every section. */
  lemma HeaderKeepsSection(base: seq<u8>, m: State, l: Layout, open: bool, at: nat, v: u32)
    requires Section(base, m, l, open) && at + 4 <= SNAPSHOT_HEADER <= l.lo <= m.buf.len
    ensures Section(Splice(base, at, Le32(v)), m.(buf := SetHeader(m.buf, at, v)), l, open)
  {
    hide Le32, FramesAt, EntriesAt;
    var mem, mem' := m.buf.mem, SetHeader(m.buf, at, v).mem;
    FramesBelow(mem, mem', l.lo, l.FramesEnd(), l.frames);
    EntriesBelow(mem, mem', l.Tail(), l.End(), l.entries);
    if l.header.Some? { ReadSame(mem, mem', l.header.value); }
  }

  lemma StartIsAccounted(cfg: Config, capacity: nat, framed: bool)
    requires SNAPSHOT_HEADER <= capacity < 0x8000_0000
    ensures Accounted(StartShot(cfg, capacity), [], framed) && !StartShot(cfg, capacity).m.buf.full
  {
    hide PushAll, Shifted, Read32, Zeros, Wrap32;
    ZeroWord(capacity, NUM_GOROUTINES);
    WrapSmall(0);
  }

  lemma ZeroWord(n: nat, off: nat)
    requires off + 4 <= n
    ensures Read32(Zeros(n), off) == 0
  {
  }

  /** What a reader of a finished snapshot finds. */
  ghost predicate AddsUp(cfg: Config, gs: seq<Goroutine>, n: nat, m: State, rs: seq<Record>, framed: bool) {
    && m.Ok() && SNAPSHOT_HEADER <= |m.buf.mem| && n <= |gs|
    && Read32(m.buf.mem, DATA_LEN) == m.buf.len
    && var end := SNAPSHOT_HEADER + Read32(m.buf.mem, GOROUTINES_LEN);
       && end <= m.buf.len
       && RecordsAt(m.buf.mem, SNAPSHOT_HEADER, end, rs, framed)
       && ReadRecords(m.buf.mem, SNAPSHOT_HEADER, end) == Some(rs)
       && Deduplicated(rs)
       && RecordsOf(cfg, rs, LiveOnes(gs[..n]))
       && (!m.buf.full ==> n == |gs|)
  }

  /** The objects behind the goroutine section: they are laid out as l, up to the length of the output
    * or to where an expression was left open, and everything the worklist popped is among them. If
    * closed, a reader that steps by the lengths from the end of the goroutine section on recovers
    * them and lands on the length in the header. */
  ghost predicate ObjectsAddUp(cfg: Config, m: State, l: Layout, open: bool, closed: bool) {
    && m.Ok() && SNAPSHOT_HEADER <= |m.buf.mem|
    && l.lo == SNAPSHOT_HEADER + Read32(m.buf.mem, GOROUTINES_LEN)
    && LaidOut(m.buf.mem, l)
    && (if open then l.End() <= m.buf.len else l.End() == m.buf.len)
    && AllShown(cfg.env, m.work.popped, 0, Contents(l))
    && (!open && l.header.None? ==>
          && ReadFrames(m.buf.mem, l.lo, l.FramesEnd()) == Some(l.frames)
          && ReadEntries(m.buf.mem, l.FramesEnd(), m.buf.len) == Some(l.entries))
    && (closed ==>
          && Contents(l) == l.entries
          && ReadEntries(m.buf.mem, l.lo, Read32(m.buf.mem, DATA_LEN)) == Some(l.entries))
  }

  /** The state in which the worklist is drained: the length of the goroutine section is in the
    * header. */
  function AtDrain(s: Shot): (m: State)
    requires s.Ok()
    ensures m.Ok()
  {
    s.m.(buf := SetHeader(s.m.buf, GOROUTINES_LEN, Wrap32(s.m.buf.len - SNAPSHOT_HEADER)))
  }

  /** The length of the goroutine section, as written to the header. */
  lemma SectionLength(s: Shot, rs: seq<Record>, framed: bool)
    requires Accounted(s, rs, framed)
    ensures SNAPSHOT_HEADER <= s.m.buf.len
    ensures var m := AtDrain(s);
            && Read32(m.buf.mem, GOROUTINES_LEN) == s.m.buf.len - SNAPSHOT_HEADER
            && RecordsAt(m.buf.mem, SNAPSHOT_HEADER, s.m.buf.len, rs, framed)
  {
    hide RecordsAt, RecordsSize, Read32, Le32, Wrap32, Deduplicated, HasStack, Splice;
    RecordsEnd(s.m.buf.mem, SNAPSHOT_HEADER, s.m.buf.len, rs, framed);
    var v := s.m.buf.len - SNAPSHOT_HEADER;
    WrapSmall(v);
    ReadAfterWrite32(s.m.buf.mem, GOROUTINES_LEN, v);
    RecordsBelow(s.m.buf.mem, AtDrain(s).buf.mem, SNAPSHOT_HEADER, s.m.buf.len, rs, framed);
  }

  /** The last thing written is the length of the output. */
  lemma TotalLength(m: State, lo: nat, was: seq<u8>, rs: seq<Record>, framed: bool)
    requires Kept(was, m, lo) && SNAPSHOT_HEADER <= lo
    requires RecordsAt(was, SNAPSHOT_HEADER, lo, rs, framed)
    ensures var mem := SetHeader(m.buf, DATA_LEN, m.buf.len).mem;
            && Read32(mem, DATA_LEN) == m.buf.len
            && Read32(mem, GOROUTINES_LEN) == Read32(was, GOROUTINES_LEN)
            && RecordsAt(mem, SNAPSHOT_HEADER, lo, rs, framed)
            && ReadRecords(mem, SNAPSHOT_HEADER, lo) == Some(rs)
  {
    hide RecordsAt, Read32, Le32, ReadRecords;
    var mem := SetHeader(m.buf, DATA_LEN, m.buf.len).mem;
    ReadAfterWrite32(m.buf.mem, DATA_LEN, m.buf.len);
    ReadSame(was, mem, GOROUTINES_LEN);
    RecordsBelow(was, mem, SNAPSHOT_HEADER, lo, rs, framed);
    ReadRecordsFinds(mem, SNAPSHOT_HEADER, lo, rs, framed);
  }

  /** The objects that draining the worklist leaves behind the goroutine section. */
  ghost function ObjectsLayout(cfg: Config, s: Shot): (Layout, bool)
    requires s.Ok() && s.m.work.Inv()
  {
    DrainLayout(cfg.env, AtDrain(s), NothingSince(s.m.buf.len), false)
  }

  /** A snapshot whose runs are contained adds up. Stepping from byte 56 over each record by its data
    * length visits exactly the goroutines kept, which are the live ones up to the first that
    * overflowed, and ends where the header says; a record without a stack has an earlier one with
    * the same stack; and unless the output overflowed, all goroutines are there, and behind them
    * every object the worklist produced. */
  lemma SnapshotAddsUp(cfg: Config, capacity: nat, gs: seq<Goroutine>, framed: bool, closed: bool, s: Shot, m: State)
    returns (rs: seq<Record>, n: nat)
    requires SNAPSHOT_HEADER <= capacity < 0x8000_0000
    requires GoroutinesContained(cfg, StartShot(cfg, capacity), gs, framed)
    requires TakeGoroutines(cfg, StartShot(cfg, capacity), gs) == Taken(s) && s.m.work.Inv()
    requires DrainContained(cfg.env, AtDrain(s), NothingSince(s.m.buf.len), false, closed)
    requires FinishShot(cfg, s) == Done(true, m)
    ensures AddsUp(cfg, gs, n, m, rs, framed)
    ensures var (l, open) := ObjectsLayout(cfg, s); !m.buf.full ==> ObjectsAddUp(cfg, m, l, open, closed)
  {
    hide TakeGoroutines, GoroutinesContained, DrainContained, Process, Accounted, RecordsOf, StartShot, Work.Inv,
         RecordsAt, Deduplicated, ObjectsAddUp, ReadRecords, Wrap32, Read32, AtDrain, ObjectsLayout, FinishShot;
    StartIsAccounted(cfg, capacity, framed);
    rs, n := GoroutinesAreAccounted(cfg, StartShot(cfg, capacity), gs, [], framed);
    assert [] + rs == rs;
    AccountedIsOk(s, rs, framed);
    assert Accounted(s, rs, framed) && s.m.work.popped == [] by { SnapshotIsClosed(cfg, capacity, gs, s); }
    FinishAddsUp(cfg, gs, s, m, rs, n, framed, closed);
  }

  lemma FinishIs(cfg: Config, s: Shot)
    requires s.Ok() && s.m.work.Inv()
    ensures var r, r' := Process(cfg.env, AtDrain(s)), FinishShot(cfg, s);
            r.Done? == r'.Done? && (r'.Done? ==> r'.m == r.m.(buf := SetHeader(r.m.buf, DATA_LEN, r.m.buf.len)))
  {
    hide Process, Work.Inv, SetHeader;
  }

  lemma FinishAddsUp(cfg: Config, gs: seq<Goroutine>, s: Shot, m: State, rs: seq<Record>, n: nat, framed: bool,
                     closed: bool)
    requires Accounted(s, rs, framed) && s.m.work.Inv() && s.m.work.popped == []
    requires DrainContained(cfg.env, AtDrain(s), NothingSince(s.m.buf.len), false, closed)
    requires FinishShot(cfg, s) == Done(true, m)
    requires n <= |gs| && RecordsOf(cfg, rs, LiveOnes(gs[..n])) && (!s.m.buf.full ==> n == |gs|)
    ensures AddsUp(cfg, gs, n, m, rs, framed)
    ensures var (l, open) := ObjectsLayout(cfg, s); !m.buf.full ==> ObjectsAddUp(cfg, m, l, open, closed)
  {
    hide DrainContained, DrainLayout, Process, FinishShot, RecordsOf, Work.Inv, RecordsAt, LiveOnes, Le32, Splice,
         Deduplicated, HasStack, Section, Contents, AllShown, ReadRecords, Wrap32, ObjectsAddUp, Read32;
    SectionLength(s, rs, framed);
    FinishIs(cfg, s);
    var start, lo := AtDrain(s), s.m.buf.len;
    var base := start.buf.mem;
    var r := Process(cfg.env, start);
    ProcessedIsClosed(cfg.env, start);
    if s.m.buf.full {
      ProcessOnce(cfg.env, start);
      TotalLength(start, lo, base, rs, framed);
    } else {
      NothingIsASection(start);
      DrainGrows(base, cfg.env, start, NothingSince(lo), false, closed);
      TotalLength(r.m, lo, base, rs, framed);
      if !r.m.buf.full {
        var (l, open) := ObjectsLayout(cfg, s);
        HeaderKeepsSection(base, r.m, l, open, DATA_LEN, r.m.buf.len);
        SectionAddsUp(cfg, Splice(base, DATA_LEN, Le32(r.m.buf.len)), m, l, open, closed);
      }
    }
  }

  lemma NoFrames()
    ensures FramesSize([]) == 0
  {
  }

  lemma SectionAddsUp(cfg: Config, base: seq<u8>, m: State, l: Layout, open: bool, closed: bool)
    requires Section(base, m, l, open) && SNAPSHOT_HEADER <= |m.buf.mem|
    requires l.lo == SNAPSHOT_HEADER + Read32(m.buf.mem, GOROUTINES_LEN)
    requires Read32(m.buf.mem, DATA_LEN) == m.buf.len
    requires AllShown(cfg.env, m.work.popped, 0, Contents(l)) && (closed ==> EntriesOnly(l, open))
    ensures ObjectsAddUp(cfg, m, l, open, closed)
  {
    hide Read32, AllShown, ReadEntries, ReadFrames, FramesSize, FramesAt, EntriesAt;
    if !open && l.header.None? { SectionIsReadable(base, m, l); }
    if closed {
      NoFrames();
      assert Flatten(l.frames) + l.entries == l.entries;
    }
  }
}
