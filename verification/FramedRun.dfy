/** Runs of the stack machine keep the output framed, as long as their data goes where data belongs
  * and every reservation fits. */
module FramedRun {
  import opened Words
  import opened Bytes
  import opened Wrappers
  import opened Worklist
  import opened Buffer
  import opened BufferFacts
  import opened Machine
  import opened MachineFrame
  import opened Runs
  import opened Alignment
  import opened Framing
  import opened Expression
  import opened ContextWalk
  import opened D = Decoder

  /** What was written from lo on: complete frames, then possibly the header of a frame still being
    * written, then entries. */
  datatype Layout = Layout(lo: nat, frames: seq<seq<QueueEntry>>, header: Option<nat>, entries: seq<QueueEntry>) {
    function FramesEnd(): nat { lo + FramesSize(frames) }

    /** Where the entries that follow the complete frames start. */
    function Tail(): nat { FramesEnd() + if header.Some? then FRAME_HEADER else 0 }

    function End(): nat { Tail() + EntriesSize(entries) }

    function Add(e: QueueEntry): Layout { this.(entries := entries + [e]) }

    /** The bytes [off, off + n) hold data of an entry, or lie behind all entries. */
    predicate DataAt(off: int, n: nat) {
      n == 0 || (Tail() <= off && Avoids(Tail(), entries, off, n))
    }
  }

  ghost predicate LaidOut(mem: seq<u8>, l: Layout) {
    && l.End() <= |mem|
    && FramesAt(mem, l.lo, l.FramesEnd(), l.frames)
    && (l.header.Some? ==> l.header.value == l.FramesEnd() && Read32(mem, l.header.value) == l.Tail())
    && EntriesAt(mem, l.Tail(), l.End(), l.entries)
  }

  /** The output of a machine: below lo the bytes base, from lo on the layout, up to the length or,
    * while an expression is open, up to where its scratch area starts. */
  ghost predicate Section(base: seq<u8>, m: State, l: Layout, open: bool) {
    && m.Ok()
    && !m.buf.full
    && |base| == |m.buf.mem|
    && (forall i :: 0 <= i < l.lo && i < |base| ==> m.buf.mem[i] == base[i])
    && LaidOut(m.buf.mem, l)
    && (if open then m.resultsEnd == l.End() <= m.buf.len else m.buf.len == l.End())
    && (l.header.Some? ==> m.frameHeader == Some(l.header.value))
  }

  /** An instruction that writes data where data belongs, and appends only between expressions. */
  ghost predicate Orderly(env: Env, m: State, op: Op, l: Layout, open: bool) {
    match op
    case EnqueueEmptyInterface => l.DataAt(m.offset, 8)
    case EnqueueInterface => l.DataAt(m.offset, 8)
    case EnqueueSubroutine => !open
    case DereferenceCFAOffset(_, n, _) => SlotOrderly(m, n, l, open)
    case CopyFromRegister(_, n) => SlotOrderly(m, n, l, open)
    case PrepareExprEval => !open
    case SaveExprResult(o, n) => open && m.resultsOffset + o < 0x1_0000_0000 && l.DataAt(m.resultsOffset + o, n)
    case DereferencePtr(_, n) => open && Small(n)
    case ZeroFill(n) => l.DataAt(m.offset, n)
    case SetPresenceBit(b) => l.DataAt(Wrap32(m.resultsOffset + b / 8), 1)
    case PreparePointeeData => !open && Small(m.chased.len)
    case PrepareFrameData(_, n, _) => !open && n < 0x3fff_fff0 && l.header.None? && l.entries == []
    case ConcludeFrameData => !open && l.header.Some?
    case PrepareGoContext(n, _, _) =>
      !open && l.DataAt(m.offset, 8) && m.offset + 16 <= m.buf.len && TypesFit(env, n)
    case _ => true
  }

  predicate SlotOrderly(m: State, n: u32, l: Layout, open: bool) {
    l.DataAt(m.offset, n) && m.offset + n < 0x1_0000_0000 && (!open ==> m.offset + n <= m.buf.len)
  }

  /** The layout after an instruction. */
  function LayoutAfter(env: Env, m: State, op: Op, m': State, l: Layout): Layout {
    match op
    case EnqueueSubroutine =>
      if m'.buf.len == m.buf.len || !m.buf.InRange(m.offset, 8) then l
      else
        var addr := Read64(m.buf.mem, m.offset);
        l.Add(Recorded(QueueEntry(env.unresolvedSubroutine, 8, addr), Readable(env.memory, addr, 8)))
    case PreparePointeeData => l.Add(m.chased)
    case PrepareFrameData(_, n, t) =>
      l.(header := Some(m.buf.len), entries := [QueueEntry(t, Wrap32(n + 8), 0)])
    case ConcludeFrameData => l.(frames := l.frames + [l.entries], header := None, entries := [])
    case PrepareGoContext(n, t, _) =>
      if m'.buf.len == m.buf.len || !m.buf.InRange(m.offset, 16) then l
      else
        var addr := Read64(m.buf.mem, m.offset + 8);
        l.Add(Recorded(QueueEntry(t, n, addr), Readable(env.memory, addr, n)))
    case _ => l
  }

  // ---------------------------------------------------------------------------------------
  // Changes of the bytes

  /** A write to data leaves the layout as it is. */
  lemma DataKeepsLayout(a: seq<u8>, b: seq<u8>, l: Layout, off: int, n: nat)
    requires LaidOut(a, l) && SameOutside(a, b, off, off + n) && l.DataAt(off, n)
    ensures LaidOut(b, l)
    ensures forall i :: 0 <= i < l.lo && i < |a| ==> a[i] == b[i]
  {
    if n == 0 {
      assert a == b;
    } else {
      FramesBelow(a, b, l.lo, l.FramesEnd(), l.frames);
      EntriesKept(a, b, l.Tail(), l.End(), l.entries, off, n);
      if l.header.Some? {
        ReadSame(a, b, l.header.value);
      }
      hide FramesAt, EntriesAt, Read32;
    }
  }

  lemma ReadSame(a: seq<u8>, b: seq<u8>, off: nat)
    requires off + 4 <= |a| && off + 4 <= |b|
    requires forall i :: off <= i < off + 4 ==> a[i] == b[i]
    ensures Read32(a, off) == Read32(b, off)
  {
  }

  /** An entry behind the others is added to the layout; nothing below it may change. */
  lemma AppendToLayout(a: seq<u8>, b: seq<u8>, l: Layout, e: QueueEntry)
    requires LaidOut(a, l) && |a| == |b|
    requires forall i :: 0 <= i < l.End() ==> a[i] == b[i]
    requires l.End() + EntrySize(e.len) <= |b| && HeaderAt(b, l.End()) == e
    ensures LaidOut(b, l.Add(e)) && l.Add(e).End() == l.End() + EntrySize(e.len)
  {
    hide HeaderAt, FramesAt, EntriesAt, Pad8;
    FramesBelow(a, b, l.lo, l.FramesEnd(), l.frames);
    EntriesBelow(a, b, l.Tail(), l.End(), l.entries);
    if l.header.Some? { ReadSame(a, b, l.header.value); }
    EntriesAppend(b, l.Tail(), l.End(), l.entries, e);
    EntriesEnd(b, l.Tail(), l.End() + EntrySize(e.len), l.entries + [e]);
  }

  lemma LayoutBelow(a: seq<u8>, b: seq<u8>, l: Layout)
    requires LaidOut(a, l) && |a| == |b|
    requires forall i :: 0 <= i < l.End() ==> a[i] == b[i]
    ensures LaidOut(b, l)
  {
    hide FramesAt, EntriesAt;
    FramesBelow(a, b, l.lo, l.FramesEnd(), l.frames);
    EntriesBelow(a, b, l.Tail(), l.End(), l.entries);
    if l.header.Some? { ReadSame(a, b, l.header.value); }
  }

  // ---------------------------------------------------------------------------------------
  // One instruction

  /** The length and the open expression are as before, and only data changed. */
  lemma SectionAfterData(base: seq<u8>, m: State, m': State, l: Layout, open: bool, off: int, n: nat)
    requires Section(base, m, l, open) && l.DataAt(off, n)
    requires m'.Ok() && !m'.buf.full && m'.buf.len == m.buf.len && SameOutside(m.buf.mem, m'.buf.mem, off, off + n)
    requires m'.resultsEnd == m.resultsEnd && m'.frameHeader == m.frameHeader
    ensures Section(base, m', l, open)
  {
    DataKeepsLayout(m.buf.mem, m'.buf.mem, l, off, n);
    hide LaidOut, SameOutside;
  }

  lemma SectionControl(base: seq<u8>, env: Env, m: State, op: Op, l: Layout, open: bool)
    requires Section(base, m, l, open) && IsControl(op)
    ensures var r := ExecControl(env, m, op); !r.Crash? ==> Section(base, r.m, l, open)
  {
    hide LaidOut;
  }

  lemma SectionEnqueue(base: seq<u8>, env: Env, m: State, op: Op, l: Layout, open: bool)
    requires Section(base, m, l, open) && IsEnqueue(op) && !op.EnqueueSubroutine? && Orderly(env, m, op, l, open)
    ensures var r := ExecEnqueue(env, m, op); !r.Crash? ==> Section(base, r.m, l, open)
  {
    hide LaidOut, Work.Push, Read64, Wrap32, Buckets, ExecInterface, ExecEmptyInterface, ExecHMapHeader;
    match op {
      case EnqueueEmptyInterface => EmptyInterfaceLocal(base, env, m, l, open);
      case EnqueueInterface => InterfaceLocal(base, env, m, l, open);
      case EnqueueHMapHeader(t, n, a, b, c, d) =>
        HMapFrame(env, m, t, n, a, b, c, d);
        hide WorkGrows;
      case _ =>
    }
  }

  lemma EmptyInterfaceLocal(base: seq<u8>, env: Env, m: State, l: Layout, open: bool)
    requires Section(base, m, l, open) && l.DataAt(m.offset, 8)
    ensures var r := ExecEmptyInterface(env, m); !r.Crash? ==> Section(base, r.m, l, open)
  {
    hide LaidOut, Work.Push, Read64, Le64;
    var r := ExecEmptyInterface(env, m);
    if r.Next? { SectionAfterData(base, m, r.m, l, open, m.offset, 8); }
  }

  lemma InterfaceLocal(base: seq<u8>, env: Env, m: State, l: Layout, open: bool)
    requires Section(base, m, l, open) && l.DataAt(m.offset, 8)
    ensures var r := ExecInterface(env, m); !r.Crash? ==> Section(base, r.m, l, open)
  {
    hide LaidOut, Work.Push, Read64, Le64, LoadType;
    var r := ExecInterface(env, m);
    if r.Next? {
      LoadTypeIsLocal(env, m.buf, m.offset);
      SectionAfterData(base, m, r.m, l, open, m.offset, 8);
    }
  }

  lemma SectionSubroutine(base: seq<u8>, env: Env, m: State, l: Layout)
    requires Section(base, m, l, false)
    ensures var r := ExecSubroutine(env, m);
            !r.Crash? && !r.m.buf.full ==>
              Section(base, r.m, LayoutAfter(env, m, EnqueueSubroutine, r.m, l), false)
  {
    hide LaidOut, Buf.WriteEntry, Buf.WriteEntrySafe, HeaderAt, Search, Read64, Work.Push;
    if m.buf.InRange(m.offset, 8) {
      var addr := Read64(m.buf.mem, m.offset);
      var e := QueueEntry(env.unresolvedSubroutine, 8, addr);
      if m.buf.WriteEntrySafe(env.memory, e) {
        var r := ExecSubroutine(env, m);
        var (b, off) := m.buf.WriteEntry(env.memory, e);
        WriteEntryOk(m.buf, env.memory, e);
        if !b.full && !r.Crash? {
          WriteEntryFits(m.buf, env.memory, e);
          if off.Some? {
            var shifted := Wrap64(Read64(b.mem, off.value) - env.bssAddrShift);
            HeaderIsLocal(b.mem, b.Write(off.value, Le64(shifted)).mem, m.buf.len);
          }
          AppendedSection(base, env, m, l, e, r.m);
        }
      }
    }
  }

  lemma AppendedSection(base: seq<u8>, env: Env, m: State, l: Layout, e: QueueEntry, m': State)
    requires Section(base, m, l, false)
    requires m'.Ok() && !m'.buf.full && |m'.buf.mem| == |m.buf.mem| && m'.frameHeader == m.frameHeader
    requires SameBelow(m.buf.mem, m'.buf.mem, m.buf.len)
    requires
      || m'.buf.len == m.buf.len
      || (&& m'.buf.len == m.buf.len + EntrySize(e.len)
          && HeaderAt(m'.buf.mem, m.buf.len) == Recorded(e, Readable(env.memory, e.addr, e.len)))
    ensures Section(base, m',
              if m'.buf.len == m.buf.len then l else l.Add(Recorded(e, Readable(env.memory, e.addr, e.len))), false)
  {
    if m'.buf.len == m.buf.len {
      LayoutBelow(m.buf.mem, m'.buf.mem, l);
    } else {
      AppendToLayout(m.buf.mem, m'.buf.mem, l, Recorded(e, Readable(env.memory, e.addr, e.len)));
    }
    hide LaidOut, HeaderAt, Pad8;
  }

  lemma SectionSlot(base: seq<u8>, env: Env, depth: u32, m: State, op: Op, l: Layout, open: bool)
    requires Section(base, m, l, open) && Orderly(env, m, op, l, open)
    requires op.DereferenceCFAOffset? || op.CopyFromRegister? || op.ZeroFill? || op.SetPresenceBit?
    ensures var r := ExecData(env, depth, m, op); !r.Crash? && !r.m.buf.full ==> Section(base, r.m, l, open)
  {
    hide LaidOut, Wrap32, Wrap64, Buf.Zero, Buf.Dereference, Layout.DataAt, Read32, Read64, SameOutside, SetBit,
         Layout.End;
    match op {
      case DereferenceCFAOffset(o, n, bias) =>
        WrapSmall(m.offset + n);
        var (b, ok) := m.buf.EnsureLen(m.offset + n);
        if ok && b.ZeroSafe(m.offset, n) {
          var signed := if o < 0x8000_0000 then o else o - 0x1_0000_0000;
          DereferenceIsLocal(b, env.memory, m.offset, Wrap64(m.cfa + signed + bias), n);
          SectionAfterSlot(base, m, ExecData(env, depth, m, op).m, l, open, n);
        }
      case CopyFromRegister(_, n) =>
        WrapSmall(m.offset + n);
        var (b, ok) := m.buf.EnsureLen(m.offset + n);
        if ok && b.ZeroSafe(m.offset, n) {
          ZeroIsLocal(b, m.offset, n);
          SectionAfterSlot(base, m, ExecData(env, depth, m, op).m, l, open, n);
        }
      case ZeroFill(n) =>
        if m.buf.ZeroSafe(m.offset, n) {
          ZeroIsLocal(m.buf, m.offset, n);
          SectionAfterData(base, m, ExecData(env, depth, m, op).m, l, open, m.offset, n);
        }
      case SetPresenceBit(b) =>
        SectionBit(base, m, b, l, open);
    }
  }

  lemma SectionBit(base: seq<u8>, m: State, b: u32, l: Layout, open: bool)
    requires Section(base, m, l, open) && l.DataAt(Wrap32(m.resultsOffset + b / 8), 1)
    ensures var r := ExecPresenceBit(m, b); !r.Crash? ==> Section(base, r.m, l, open)
  {
    hide LaidOut, Wrap32, Layout.DataAt, SetBit;
    var at := Wrap32(m.resultsOffset + b / 8);
    if m.buf.InRange(at, 1) { SectionAfterData(base, m, ExecPresenceBit(m, b).m, l, open, at, 1); }
  }

  lemma SectionAfterSlot(base: seq<u8>, m: State, m': State, l: Layout, open: bool, n: u32)
    requires Section(base, m, l, open) && l.DataAt(m.offset, n) && (!open ==> m.offset + n <= m.buf.len)
    requires m'.Ok() && !m'.buf.full && SameOutside(m.buf.mem, m'.buf.mem, m.offset, m.offset + n)
    requires m'.buf.len == (if m.offset + n < m.buf.len then m.buf.len else m.offset + n)
    requires m'.resultsEnd == m.resultsEnd && m'.frameHeader == m.frameHeader
    ensures Section(base, m', l, open)
  {
    DataKeepsLayout(m.buf.mem, m'.buf.mem, l, m.offset, n);
    hide LaidOut, SameOutside;
  }

  lemma SectionOpen(base: seq<u8>, env: Env, m: State, l: Layout)
    requires Section(base, m, l, false)
    ensures var r := ExecPrepareExpr(m); !r.Crash? ==> Section(base, r.m, l, true)
  {
    hide LaidOut, Le64;
    var r := ExecPrepareExpr(m);
    if r.Next? {
      LayoutBelow(m.buf.mem, r.m.buf.mem, l);
      assert l.lo <= l.End();
    }
  }

  lemma SectionSave(base: seq<u8>, env: Env, m: State, o: u32, n: u32, l: Layout)
    requires Section(base, m, l, true) && m.resultsOffset + o < 0x1_0000_0000 && l.DataAt(m.resultsOffset + o, n)
    ensures var r := ExecSaveResult(m, o, n); !r.Crash? ==> Section(base, r.m, l, false)
  {
    hide LaidOut, Wrap32, CopyForward, Layout.DataAt;
    var dst := m.resultsOffset + o;
    WrapSmall(dst);
    var r := ExecSaveResult(m, o, n);
    if r.Next? {
      if m.buf.Copy(m.offset, dst, n) != m.buf {
        CopyIsLocal(m.buf.mem, m.offset, dst, n);
      }
      DataKeepsLayout(m.buf.mem, r.m.buf.mem, l, dst, n);
    }
  }

  lemma SectionDereference(base: seq<u8>, env: Env, m: State, bias: u32, n: u32, l: Layout)
    requires Section(base, m, l, true) && Small(n)
    ensures var r := ExecDereferencePtr(env, m, bias, n);
            !r.Crash? && !r.m.buf.full ==> Section(base, r.m, l, !PointerFails(env, m, bias, n))
  {
    hide LaidOut, Buf.WriteEntry, Buf.WriteEntrySafe, Read64, HeaderAt;
    if m.buf.InRange(m.offset, 8) {
      var e := QueueEntry(0, n, Wrap64(Read64(m.buf.mem, m.offset) + bias));
      if e.addr != 0 && m.buf.WriteEntrySafe(env.memory, e) {
        var (b, _) := m.buf.WriteEntry(env.memory, e);
        WriteEntryOk(m.buf, env.memory, e);
        if !b.full {
          WriteEntryFits(m.buf, env.memory, e);
          LayoutBelow(m.buf.mem, b.mem, l);
        }
      }
    }
  }

  lemma SectionPointee(base: seq<u8>, env: Env, m: State, l: Layout)
    requires Section(base, m, l, false) && Small(m.chased.len)
    ensures var r := ExecPreparePointee(m);
            r.Next? && !r.m.buf.full ==> Section(base, r.m, l.Add(m.chased), false)
    ensures var r := ExecPreparePointee(m); r.Done? ==> r.m.buf.full
  {
    hide LaidOut, Buf.Reserve, Buf.ReserveSafe, HeaderAt, Buf.Zero;
    if m.buf.ReserveSafe(m.chased.len) {
      var (b, r) := m.buf.Reserve(m.chased);
      RefusalIsRecorded(m.buf, m.chased);
      if !b.full {
        ReserveFits(m.buf, m.chased);
        if b.ZeroSafe(r.value, m.chased.len) {
          ZeroIsLocal(b, r.value, m.chased.len);
          var m' := ExecPreparePointee(m).m;
          HeaderIsLocal(b.mem, m'.buf.mem, m.buf.len);
          AppendToLayout(m.buf.mem, m'.buf.mem, l, m.chased);
        }
      } else {
        ZeroKeepsFull(b, r, m.chased.len);
      }
    }
  }

  lemma ZeroKeepsFull(b: Buf, r: Option<u32>, n: u32)
    ensures r.Some? && b.ZeroSafe(r.value, n) ==> b.Zero(r.value, n).full == b.full
  {
  }

  lemma RefusalIsRecorded(b: Buf, e: QueueEntry)
    requires b.Ok() && b.ReserveSafe(e.len)
    ensures b.Reserve(e).1.None? ==> b.Reserve(e).0.full
  {
  }

  lemma FrameSizes(len: nat, n: u32)
    requires len < 0x8000_0000 && n < 0x3fff_fff0
    ensures Pad8(n) + 8 == Pad8(n + 8) && n <= Pad8(n)
    ensures Wrap32(n + 8) == n + 8
    ensures Wrap32(len + 24 + n) == len + 24 + n && Wrap32(len + 28 + n) == len + 28 + n
  {
  }

  /** A frame is opened with its header, which holds where its entries start until it is closed, and
    * its first entry. */
  lemma FrameIsPrepared(b: Buf, typ: u32, prog: u32, n: u32, depth: u32)
    requires b.Ok() && b.FrameSafe(n) && n < 0x3fff_fff0
    requires !b.PrepareFrame(typ, prog, n, depth).0.full
    ensures var (b', r) := b.PrepareFrame(typ, prog, n, depth);
            var e := QueueEntry(typ, n + 8, 0);
            && r == Some((b.len, b.len + 24))
            && b'.Ok() && |b'.mem| == |b.mem|
            && b'.len == b.len + FRAME_HEADER + EntrySize(e.len)
            && SameBelow(b.mem, b'.mem, b.len)
            && Read32(b'.mem, b.len) == b.len + FRAME_HEADER
            && HeaderAt(b'.mem, b.len + FRAME_HEADER) == e
  {
    hide Le32, Le64, EntryBytes, HeaderAt, Read32, Pad8, Wrap32, Splice;
    FrameSizes(b.len, n);
    FrameBytes(b.mem, b.len, QueueEntry(typ, n + 8, 0), b.len + 24 + n, Le32(prog), Le32(depth));
  }

  lemma FrameBytes(mem: seq<u8>, len: u32, e: QueueEntry, at: nat, x: seq<u8>, y: seq<u8>)
    requires len + 24 <= at && at + 8 <= |mem| && |x| == 4 && |y| == 4 && len + 8 < 0x8000_0000
    ensures var m := Splice(Splice(Splice(Splice(mem, len, Le32(len + FRAME_HEADER) + Le32(0)),
                                          len + FRAME_HEADER, EntryBytes(e)), at, x), at + 4, y);
            && SameBelow(mem, m, len)
            && Read32(m, len) == len + FRAME_HEADER
            && HeaderAt(m, len + FRAME_HEADER) == e
  {
    hide Le32, Le64, EntryBytes, HeaderAt, Read32, Splice;
    var m1 := Splice(mem, len, Le32(len + FRAME_HEADER) + Le32(0));
    var m2 := Splice(m1, len + FRAME_HEADER, EntryBytes(e));
    var m4 := Splice(Splice(m2, at, x), at + 4, y);
    HeaderAfterWrite(m1, len + FRAME_HEADER, e);
    HeaderIsLocal(m2, m4, len + FRAME_HEADER);
    ReadFirstWord(mem, len, len + FRAME_HEADER, 0);
    ReadSame(m1, m4, len);
  }

  lemma ReadFirstWord(mem: seq<u8>, off: nat, v: u32, w: u32)
    requires off + 8 <= |mem|
    ensures Read32(Splice(mem, off, Le32(v) + Le32(w)), off) == v
  {
    hide Le32, Read32;
    assert Splice(mem, off, Le32(v) + Le32(w)) == Splice(Splice(mem, off + 4, Le32(w)), off, Le32(v));
    ReadAfterWrite32(Splice(mem, off + 4, Le32(w)), off, v);
  }

  lemma SectionFrame(base: seq<u8>, env: Env, depth: u32, m: State, prog: u32, n: u32, typ: u32, l: Layout)
    requires Section(base, m, l, false) && n < 0x3fff_fff0 && l.header.None? && l.entries == []
    ensures var r := ExecPrepareFrame(m, depth, prog, n, typ);
            !r.Crash? && !r.m.buf.full ==>
              Section(base, r.m, l.(header := Some(m.buf.len), entries := [QueueEntry(typ, Wrap32(n + 8), 0)]), false)
  {
    hide HeaderAt, Read32, Buf.PrepareFrame, Buf.FrameSafe, Pad8;
    if m.buf.FrameSafe(n) {
      var (b, r) := m.buf.PrepareFrame(typ, prog, n, depth);
      FrameRefusal(m.buf, typ, prog, n, depth);
      if !b.full {
        FrameIsPrepared(m.buf, typ, prog, n, depth);
        FrameSizes(m.buf.len, n);
        FramesBelow(m.buf.mem, b.mem, l.lo, l.FramesEnd(), l.frames);
        var e := QueueEntry(typ, n + 8, 0);
        assert [e][1..] == [];
        assert EntriesSize([e]) == EntrySize(e.len);
        assert EntriesAt(b.mem, m.buf.len + FRAME_HEADER, m.buf.len + FRAME_HEADER + EntrySize(e.len), [e]);
        hide FramesAt, EntriesAt;
      }
    }
  }

  lemma FrameRefusal(b: Buf, typ: u32, prog: u32, n: u32, depth: u32)
    requires b.Ok() && b.FrameSafe(n)
    ensures b.PrepareFrame(typ, prog, n, depth).1.None? ==> b.PrepareFrame(typ, prog, n, depth).0.full
  {
    hide Splice, Le32, EntryBytes;
  }

  /** Closing a frame makes its header the length of its entries. */
  lemma SectionConclude(base: seq<u8>, env: Env, m: State, l: Layout)
    requires Section(base, m, l, false) && l.header.Some?
    ensures var r := ExecConcludeFrame(m);
            !r.Crash? ==> Section(base, r.m, l.(frames := l.frames + [l.entries], header := None, entries := []), false)
  {
    hide LaidOut, Le32, Read32, Wrap32, Splice, EntriesSize, FramesSize;
    var h := l.header.value;
    HeaderIsPending(m.buf.mem, l);
    WrapSmall(m.buf.len - l.Tail());
    ConcludedLayout(m.buf.mem, l);
    assert !ExecConcludeFrame(m).Crash? ==>
      ExecConcludeFrame(m).m.buf == m.buf.(mem := Splice(m.buf.mem, h, Le32(l.End() - l.Tail())));
  }

  lemma HeaderIsPending(mem: seq<u8>, l: Layout)
    requires LaidOut(mem, l) && l.header.Some?
    ensures l.header.value == l.FramesEnd() && l.header.value + 8 == l.Tail() <= l.End() <= |mem|
    ensures Read32(mem, l.header.value) == l.Tail()
  {
  }

  lemma ConcludedLayout(mem: seq<u8>, l: Layout)
    requires LaidOut(mem, l) && l.header.Some? && |mem| < 0x8000_0000
    ensures l.header.value + 8 <= l.End() && l.Tail() <= l.End() <= |mem|
    ensures var mem' := Splice(mem, l.header.value, Le32(l.End() - l.Tail()));
            var l' := l.(frames := l.frames + [l.entries], header := None, entries := []);
            LaidOut(mem', l') && l'.End() == l.End() && SameBelow(mem, mem', l.lo)
  {
    hide Le32, Read32, Splice, EntriesAt, FramesAt, EntriesSize, FramesSize, LaidOut;
    HeaderIsPending(mem, l);
    var h, v := l.header.value, l.End() - l.Tail();
    var mem' := Splice(mem, h, Le32(v));
    ReadAfterWrite32(mem, h, v);
    FrameIsAdded(mem, mem', l, v);
    NoEntries(mem', l.End());
    LayoutOfFrames(mem', l.lo, l.frames + [l.entries], l.End());
  }

  lemma LayoutOfFrames(mem: seq<u8>, lo: nat, fs: seq<seq<QueueEntry>>, end: nat)
    requires FramesAt(mem, lo, end, fs) && end == lo + FramesSize(fs) <= |mem|
    ensures LaidOut(mem, Layout(lo, fs, None, []))
  {
    hide FramesAt, FramesSize;
  }

  lemma FrameIsAdded(mem: seq<u8>, mem': seq<u8>, l: Layout, v: u32)
    requires LaidOut(mem, l) && l.header.Some? && v == EntriesSize(l.entries)
    requires SameOutside(mem, mem', l.header.value, l.header.value + 4)
    requires Read32(mem', l.header.value) == v
    ensures FramesAt(mem', l.lo, l.End(), l.frames + [l.entries])
    ensures l.End() == l.lo + FramesSize(l.frames + [l.entries])
  {
    hide Read32, EntriesAt, FramesAt, EntriesSize, FramesSize;
    FramesBelow(mem, mem', l.lo, l.FramesEnd(), l.frames);
    EntriesBelow(mem, mem', l.Tail(), l.End(), l.entries);
    hide SameOutside;
    FramesAppend(mem', l.lo, l.FramesEnd(), l.frames, l.entries);
    Framing.FramesEnd(mem', l.lo, l.End(), l.frames + [l.entries]);
  }

  lemma NoEntries(mem: seq<u8>, at: nat)
    ensures EntriesAt(mem, at, at, []) && EntriesSize([]) == 0
  {
  }

  lemma SectionContext(base: seq<u8>, env: Env, m: State, n: u32, typ: u32, count: u8, l: Layout)
    requires Section(base, m, l, false) && TypesFit(env, n)
    requires Orderly(env, m, PrepareGoContext(n, typ, count), l, false)
    ensures var r := ExecGoContext(env, m, n, typ, count);
            !r.Crash? && !r.m.buf.full ==>
              Section(base, r.m, LayoutAfter(env, m, PrepareGoContext(n, typ, count), r.m, l), false)
  {
    hide LaidOut, ExecGoContext, Read64, HeaderAt, HoldsFirstOffers, WalkOffers, WalkStart, WorkGrows, TypesFit,
         Layout.DataAt, Pad8;
    var r := ExecGoContext(env, m, n, typ, count);
    ContextFrame(env, m, n, typ, count);
    ContextNeverEnds(env, m, n, typ, count);
    if r.Next? && !r.m.buf.full {
      var e := QueueEntry(typ, n, Read64(m.buf.mem, m.offset + 8));
      ContextIsCaptured(env, m, e, count, r.m);
      var (_, isNew) := m.work.ShouldRecord(e.addr, typ);
      if isNew {
        var rec := Recorded(e, Readable(env.memory, e.addr, n));
        BelowAndAbove(m.buf.mem, r.m.buf.mem, m.offset, m.buf.len);
        var mid := r.m.buf.mem[..m.buf.len] + m.buf.mem[m.buf.len..];
        DataKeepsLayout(m.buf.mem, mid, l, m.offset, 8);
        AppendToLayout(mid, r.m.buf.mem, l, rec);
      }
    }
  }

  lemma BelowAndAbove(a: seq<u8>, b: seq<u8>, off: nat, len: nat)
    requires WalkLocal(a, b, off, 0, 0, len) && len <= |a| && off + 8 <= len
    ensures var mid := b[..len] + a[len..];
            |mid| == |a| && SameOutside(a, mid, off, off + 8) && forall i :: 0 <= i < len ==> mid[i] == b[i]
  {
  }

  lemma ContextNeverEnds(env: Env, m: State, n: u32, typ: u32, count: u8)
    requires m.Ok()
    ensures !ExecGoContext(env, m, n, typ, count).Done?
  {
    hide Walk, Buf.WriteEntry, Buf.WriteEntrySafe, Read64, Buf.Zero;
  }

  lemma SectionExec(base: seq<u8>, env: Env, depth: u32, m: State, op: Op, l: Layout, open: bool)
    requires Section(base, m, l, open) && Orderly(env, m, op, l, open)
    ensures var r := Exec(env, depth, m, op);
            !r.Crash? && !r.m.buf.full ==>
              Section(base, r.m, LayoutAfter(env, m, op, r.m, l), OpenAfter(env, m, op, open))
  {
    hide Section, ExecControl, ExecEnqueue, ExecGoContext, ExecSubroutine, ExecPrepareExpr, ExecSaveResult,
         ExecDereferencePtr, ExecPreparePointee, ExecPrepareFrame, ExecConcludeFrame, ExecDereferenceCFA,
         ExecCopyRegister, ExecZeroFill, ExecPresenceBit, PointerFails, LaidOut, TypesFit, Layout.DataAt, Read64;
    assert m.Ok() by { SectionOk(base, m, l, open); }
    if IsControl(op) {
      SectionControl(base, env, m, op, l, open);
    } else if op.EnqueueSubroutine? {
      SectionSubroutine(base, env, m, l);
      EnqueueIs(env, m);
    } else if IsEnqueue(op) {
      SectionEnqueue(base, env, m, op, l, open);
    } else if IsData(op) {
      match op {
        case PrepareExprEval => SectionOpen(base, env, m, l);
        case SaveExprResult(o, n) => SectionSave(base, env, m, o, n, l);
        case DereferencePtr(b, n) => SectionDereference(base, env, m, b, n, l);
        case PreparePointeeData => SectionPointee(base, env, m, l);
        case PrepareFrameData(p, n, t) => SectionFrame(base, env, depth, m, p, n, t, l);
        case ConcludeFrameData => SectionConclude(base, env, m, l);
        case _ => SectionSlot(base, env, depth, m, op, l, open);
      }
    } else {
      SectionContext(base, env, m, op.dataByteLen, op.typeID, op.captureCount, l);
    }
  }

  lemma EnqueueIs(env: Env, m: State)
    requires m.Ok()
    ensures ExecEnqueue(env, m, EnqueueSubroutine) == ExecSubroutine(env, m)
  {
    hide ExecSubroutine;
  }

  lemma SectionOk(base: seq<u8>, m: State, l: Layout, open: bool)
    requires Section(base, m, l, open)
    ensures m.Ok() && !m.buf.full
  {
  }

  // ---------------------------------------------------------------------------------------
  // A whole run

  /** Every instruction of a run is orderly. */
  ghost predicate OrderlyRun(env: Env, depth: u32, m: State, l: Layout, open: bool, fuel: nat)
    requires m.Ok()
    decreases fuel
  {
    hide Step, Orderly, LayoutAfter, OpenAfter, Decode;
    fuel == 0 ||
    match Current(env, m)
    case None => true
    case Some(op) =>
      && Fetched(env, m).Ok()
      && Orderly(env, Fetched(env, m), op, l, open)
      && match Step(env, depth, m)
         case Next(m') =>
           OrderlyRun(env, depth, m', LayoutAfter(env, Fetched(env, m), op, m', l),
                      OpenAfter(env, Fetched(env, m), op, open), fuel - 1)
         case _ => true
  }

  /** The layout at the end of a run, and whether an expression was left open. */
  ghost function FinalLayout(env: Env, depth: u32, m: State, l: Layout, open: bool, fuel: nat): (Layout, bool)
    requires m.Ok()
    decreases fuel
  {
    hide Step, LayoutAfter, OpenAfter, Decode;
    if fuel == 0 || Current(env, m).None? || !Fetched(env, m).Ok() then (l, open)
    else
      var op := Current(env, m).value;
      match Step(env, depth, m)
      case Next(m') =>
        FinalLayout(env, depth, m', LayoutAfter(env, Fetched(env, m), op, m', l),
                    OpenAfter(env, Fetched(env, m), op, open), fuel - 1)
      case Done(_, m') => (LayoutAfter(env, Fetched(env, m), op, m', l), OpenAfter(env, Fetched(env, m), op, open))
      case Crash(_) => (l, open)
  }

  lemma SectionStep(base: seq<u8>, env: Env, depth: u32, m: State, op: Op, l: Layout, open: bool)
    requires Section(base, m, l, open) && Current(env, m) == Some(op)
    requires Fetched(env, m).Ok() && Orderly(env, Fetched(env, m), op, l, open)
    ensures var r := Step(env, depth, m);
            !r.Crash? && !r.m.buf.full ==>
              Section(base, r.m, LayoutAfter(env, Fetched(env, m), op, r.m, l),
                      OpenAfter(env, Fetched(env, m), op, open))
  {
    hide Exec, Decode, LaidOut, Orderly, LayoutAfter, OpenAfter;
    assert Section(base, Fetched(env, m), l, open);
    SectionExec(base, env, depth, Fetched(env, m), op, l, open);
    StepExecutes(env, depth, m);
  }

  /** An orderly run in which every reservation fits leaves the output framed. */
  lemma {:induction false} RunIsFramed(base: seq<u8>, env: Env, depth: u32, m: State, l: Layout, open: bool, fuel: nat)
    requires Section(base, m, l, open) && OrderlyRun(env, depth, m, l, open, fuel)
    ensures var r := Iterate(env, depth, m, fuel);
            var (l', open') := FinalLayout(env, depth, m, l, open, fuel);
            r.Done? && !r.m.buf.full ==> Section(base, r.m, l', open')
    decreases fuel
  {
    hide Step, Exec, Decode, Section, Orderly, LayoutAfter, OpenAfter, WorkGrows;
    SectionOk(base, m, l, open);
    if fuel > 0 {
      var r := Step(env, depth, m);
      if Current(env, m).None? {
        NoInstruction(env, depth, m);
      } else {
        var op := Current(env, m).value;
        SectionStep(base, env, depth, m, op, l, open);
        if r.Next? {
          IterateIsMonotone(env, depth, r.m, fuel - 1);
          var last := Iterate(env, depth, r.m, fuel - 1);
          if last.Done? && !last.m.buf.full {
            RunIsFramed(base, env, depth, r.m, LayoutAfter(env, Fetched(env, m), op, r.m, l),
                        OpenAfter(env, Fetched(env, m), op, open), fuel - 1);
          }
        }
      }
    }
  }

  lemma NoInstruction(env: Env, depth: u32, m: State)
    requires m.Ok() && Current(env, m).None?
    ensures Step(env, depth, m).Crash?
  {
    hide Exec;
  }

  /** What a reader finds of a framed output with no expression open: the frames and the entries
    * behind them, each where the one before it ends. */
  lemma SectionIsReadable(base: seq<u8>, m: State, l: Layout)
    requires Section(base, m, l, false) && l.header.None?
    ensures m.buf.len == l.End()
    ensures l.entries == [] ==> ReadFrames(m.buf.mem, l.lo, m.buf.len) == Some(l.frames)
    ensures l.frames == [] ==> ReadEntries(m.buf.mem, l.lo, m.buf.len) == Some(l.entries)
    ensures ReadFrames(m.buf.mem, l.lo, l.FramesEnd()) == Some(l.frames)
    ensures ReadEntries(m.buf.mem, l.FramesEnd(), m.buf.len) == Some(l.entries)
  {
    ReadFramesFinds(m.buf.mem, l.lo, l.FramesEnd(), l.frames);
    ReadEntriesFinds(m.buf.mem, l.FramesEnd(), l.End(), l.entries);
    hide ReadFrames, ReadEntries, FramesAt, EntriesAt;
  }
}
