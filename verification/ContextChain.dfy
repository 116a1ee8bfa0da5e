/** The chain of Go contexts as it lies in the memory of the process, and what a capture takes from
  * it, independently of how the walk copies it to the output. */
module ContextChain {
  import opened Words
  import opened Bytes
  import opened Wrappers
  import opened Worklist
  import opened Buffer
  import opened BufferFacts
  import opened CaptureMask
  import opened Machine
  import opened GoContext
  import opened ContextWalk
  import MachineFrame

  /** An interface value: its table, which starts 8 before the address of the type, and its data. */
  datatype Iface = Iface(itab: u64, data: u64)

  function IfaceAt(mem: seq<u8>, off: nat): Iface
    requires off + 16 <= |mem|
  {
    Iface(Read64(mem, off), Read64(mem, off + 8))
  }

  /** The type of the context an interface value holds. */
  function ContextType(env: Env, i: Iface): (r: Option<u32>)
    ensures r.Some? ==> r.value in env.typeInfo && env.typeInfo[r.value].contextImpl.Some?
  {
    var at := Wrap64(i.itab + 8);
    if i.itab == 0 || !Readable(env.memory, at, 8) then None
    else
      var id := env.TypeId(env.RuntimeType(Read64(Fetch(env.memory, at, 8), 0)));
      if id == 0 || id !in env.typeInfo || env.typeInfo[id].contextImpl.None? then None else Some(id)
  }

  /** The bytes of the context object, if it can be read. */
  function Object(env: Env, i: Iface): (r: Option<(seq<u8>, ContextImpl)>)
    ensures r.Some? ==> ContextType(env, i).Some? && |r.value.0| == env.typeInfo[ContextType(env, i).value].byteLen
  {
    match ContextType(env, i)
    case None => None
    case Some(id) =>
      var ti := env.typeInfo[id];
      if Readable(env.memory, i.data, ti.byteLen)
      then Some((Fetch(env.memory, i.data, ti.byteLen), ti.contextImpl.value))
      else None
  }

  /** The values that an object has for slots: by the type of its value, then by that of its key. */
  ghost function OffersIn(env: Env, bytes: seq<u8>, impl: ContextImpl): seq<Offer> {
    LinkOffers(env, Buf(bytes, |bytes|, false), 0, impl)
  }

  function Parent(bytes: seq<u8>, impl: ContextImpl): Option<Iface> {
    if impl.contextOffset.None? || impl.contextOffset.value + 16 > |bytes| then None
    else Some(IfaceAt(bytes, impl.contextOffset.value))
  }

  /** The values along the chain of parents, at most that many links far. */
  ghost function ChainOffers(env: Env, i: Iface, links: nat): seq<Offer>
    decreases links
  {
    if links == 0 then []
    else match Object(env, i)
      case None => []
      case Some((bytes, impl)) =>
        OffersIn(env, bytes, impl)
        + match Parent(bytes, impl)
          case None => []
          case Some(p) => ChainOffers(env, p, links - 1)
  }

  // ---------------------------------------------------------------------------------------
  // What is in memory is what the walk sees

  lemma ReadSlice(a: seq<u8>, x: nat)
    requires x + 8 <= |a|
    ensures Read64(a, x) == Read64(a[x..x + 8], 0)
  {
  }

  lemma IfaceSlice(a: seq<u8>, x: nat)
    requires x + 16 <= |a|
    ensures IfaceAt(a, x) == IfaceAt(a[x..x + 16], 0)
  {
    hide Read64;
    ReadSlice(a, x);
    ReadSlice(a, x + 8);
    ReadSlice(a[x..x + 16], 0);
    ReadSlice(a[x..x + 16], 8);
    assert a[x..x + 8] == a[x..x + 16][..8] && a[x + 8..x + 16] == a[x..x + 16][8..16];
  }

  lemma IfaceMoves(a: seq<u8>, x: nat, b: seq<u8>, y: nat)
    requires x + 16 <= |a| && y + 16 <= |b| && a[x..x + 16] == b[y..y + 16]
    ensures IfaceAt(a, x) == IfaceAt(b, y)
  {
    hide IfaceAt;
    IfaceSlice(a, x);
    IfaceSlice(b, y);
  }

  lemma ResolveMoves(env: Env, a: Buf, x: u32, b: Buf, y: u32)
    requires a.InRange(x, 16) && b.InRange(y, 16) && a.mem[x..x + 16] == b.mem[y..y + 16]
    ensures ResolveAny(env, a, x) == ResolveAny(env, b, y)
  {
    hide Read64;
    IfaceMoves(a.mem, x, b.mem, y);
  }

  lemma SliceOfSlice(a: seq<u8>, off: nat, bytes: seq<u8>, v: nat)
    requires off + |bytes| <= |a| && a[off..off + |bytes|] == bytes && v + 16 <= |bytes|
    ensures a[off + v..off + v + 16] == bytes[v..v + 16]
  {
    var p, q := a[off + v..off + v + 16], bytes[v..v + 16];
    forall i | 0 <= i < 16 ensures p[i] == q[i] {
      assert a[off..off + |bytes|][v + i] == bytes[v + i];
    }
  }

  /** The offers of an object do not depend on where it was copied to. */
  lemma OffersMove(env: Env, b: Buf, off: u32, bytes: seq<u8>, impl: ContextImpl)
    requires b.Ok() && off + |bytes| <= |b.mem| && b.mem[off..off + |bytes|] == bytes
    requires impl.keyOffset.Some? ==> impl.keyOffset.value + 16 <= |bytes|
    requires impl.valueOffset.Some? ==> impl.valueOffset.value + 16 <= |bytes|
    ensures LinkOffers(env, b, off, impl) == OffersIn(env, bytes, impl)
  {
    hide ResolveAny;
    var c := Buf(bytes, |bytes|, false);
    if impl.valueOffset.Some? {
      var v := impl.valueOffset.value;
      WrapSmall(off + v);
      WrapSmall(v);
      SliceOfSlice(b.mem, off, bytes, v);
      ResolveMoves(env, b, off + v, c, v);
    }
    if impl.keyOffset.Some? {
      var k := impl.keyOffset.value;
      WrapSmall(off + k);
      WrapSmall(k);
      SliceOfSlice(b.mem, off, bytes, k);
      ResolveMoves(env, b, off + k, c, k);
    }
    hide Wrap32;
  }

  /** The slots that the type descriptions name lie inside the context object. */
  lemma OffersFit(env: Env, b: Buf, off: u32, impl: ContextImpl, n: u32)
    requires TypesFit(env, n)
    ensures AllInside(LinkOffers(env, b, off, impl), n)
  {
    hide Read64, Wrap32, Buf.InRange;
  }

  lemma {:induction false} ChainFits(env: Env, i: Iface, links: nat, n: u32)
    requires TypesFit(env, n)
    ensures AllInside(ChainOffers(env, i, links), n)
    decreases links
  {
    hide Object, LinkOffers, TypesFit, IfaceAt;
    if links > 0 && Object(env, i).Some? {
      var (bytes, impl) := Object(env, i).value;
      OffersFit(env, Buf(bytes, |bytes|, false), 0, impl, n);
      if Parent(bytes, impl).Some? { ChainFits(env, Parent(bytes, impl).value, links - 1, n); }
    }
  }

  lemma {:induction false} NothingWanted(c: Capture, offers: seq<Offer>)
    requires c.wanted == {} && AllInside(offers, |c.bytes|)
    ensures TakeAll(c, offers) == c
    decreases |offers|
  {
    if offers != [] { NothingWanted(c, offers[1..]); }
  }

  // ---------------------------------------------------------------------------------------
  // One link

  /** The interface value at which a walk is. */
  function IfaceOf(m: State): Iface
    requires m.buf.InRange(m.offset, 16)
  {
    IfaceAt(m.buf.mem, m.offset)
  }

  /** Loading the type finds the type of the interface value, and leaves its data. */
  lemma TypeIsLoaded(env: Env, b: Buf, off: u32)
    requires b.Ok() && b.InRange(off, 16) && Read64(b.mem, off) != 0
    ensures var (b', ok) := LoadType(env, b, off);
            && b'.Ok() && b'.InRange(off, 16) && b'.len == b.len && b'.full == b.full
            && Read64(b'.mem, off + 8) == Read64(b.mem, off + 8)
            && ContextType(env, IfaceAt(b.mem, off)) == (if ok then LinkType(env, b', off) else None)
  {
    hide Read64, Fetch, Readable, Wrap64;
    WrapSmall(off + 8);
    MachineFrame.LoadTypeIsLocal(env, b, off);
    var (b', ok) := LoadType(env, b, off);
    assert b'.mem[off + 8..off + 16] == b.mem[off + 8..off + 16];
    ReadSlice(b.mem, off + 8);
    ReadSlice(b'.mem, off + 8);
    if ok {
      var data := Fetch(env.memory, Wrap64(Read64(b.mem, off) + 8), 8);
      assert b'.mem[off..off + 8] == data;
      ReadSlice(b'.mem, off);
      ReadSlice(data, 0);
      assert data[0..8] == data;
    }
  }

  /** What a link finds in the output is what its object holds in memory. */
  lemma VisitedIsObject(env: Env, m: State, o: u32, n: u32, base: nat)
    requires TypesFit(env, n) && Walking(m, o, n, base) && m.contextMask != 0
    requires var r := WalkLink(env, m); !r.Broken? && !r.m.buf.full
    ensures Visited(env, m).None? <==> Object(env, IfaceOf(m)).None?
    ensures Visited(env, m).Some? ==>
              var (b, off, impl) := Visited(env, m).value;
              var (bytes, impl') := Object(env, IfaceOf(m)).value;
              && impl == impl' && b.Ok() && base <= off && off + |bytes| <= b.len && b.mem[off..off + |bytes|] == bytes
              && |b.mem| == |m.buf.mem|
              && WalkLink(env, m) == VisitLink(env, m.(buf := b, offset := off), impl)
  {
    hide LoadType, ContextType, Read64, Buf.WriteEntry, Buf.WriteEntrySafe, VisitLink, Readable, Fetch,
         MachineFrame.WorkGrows;
    if Read64(m.buf.mem, m.offset) != 0 {
      TypeIsLoaded(env, m.buf, m.offset);
      MachineFrame.LoadTypeIsLocal(env, m.buf, m.offset);
      var (b, ok) := LoadType(env, m.buf, m.offset);
      var id := LinkType(env, b, m.offset);
      if ok && id.Some? {
        var e := QueueEntry(id.value, env.typeInfo[id.value].byteLen, Read64(b.mem, m.offset + 8));
        MachineFrame.WriteEntryOk(b, env.memory, e);
        var (b', r) := b.WriteEntry(env.memory, e);
        assert TypeFits(env.typeInfo[id.value], n);
        if b'.full {
          VisitKeepsFull(env, m, b', r, env.typeInfo[id.value].contextImpl.value);
        } else {
          WriteEntryFits(b, env.memory, e);
        }
      }
    } else {
      NoTable(env, IfaceOf(m));
    }
  }

  lemma NoTable(env: Env, i: Iface)
    ensures i.itab == 0 ==> ContextType(env, i).None?
  {
  }

  lemma ObjectFits(env: Env, i: Iface, n: u32)
    requires TypesFit(env, n) && Object(env, i).Some?
    ensures var (bytes, impl) := Object(env, i).value;
            && |bytes| < 0x4000_0000
            && (impl.contextOffset.Some? ==> impl.contextOffset.value + 16 <= |bytes|)
            && (impl.keyOffset.Some? ==> impl.keyOffset.value + 16 <= |bytes|)
            && (impl.valueOffset.Some? ==> impl.valueOffset.value + 16 <= |bytes|)
  {
    hide ContextType, Readable, Fetch;
    assert TypeFits(env.typeInfo[ContextType(env, i).value], n);
  }

  /** Visiting an object that was copied leads on to the parent that it names. */
  lemma ParentIsNext(env: Env, m: State, impl: ContextImpl, o: u32, n: u32, base: nat, bytes: seq<u8>)
    requires TypesFit(env, n) && m.Ok() && m.contextOffset == o && o + n <= base <= m.offset && |bytes| < 0x4000_0000
    requires m.offset + |bytes| <= m.buf.len && m.buf.mem[m.offset..m.offset + |bytes|] == bytes
    requires impl.keyOffset.Some? ==> impl.keyOffset.value + 16 <= |bytes|
    requires impl.valueOffset.Some? ==> impl.valueOffset.value + 16 <= |bytes|
    requires impl.contextOffset.Some? ==> impl.contextOffset.value + 16 <= |bytes|
    ensures var r := VisitLink(env, m, impl);
            && !r.Broken? && (r.More? <==> Parent(bytes, impl).Some?)
            && (r.More? ==> Walking(r.m, o, n, base) && r.m.buf.InRange(r.m.offset, 16)
                            && IfaceOf(r.m) == Parent(bytes, impl).value)
  {
    hide OfferValue, LinkOffers, TakeAll, TypesFit, IfaceAt;
    VisitTakes(env, m, impl, o, n, base, |bytes|);
    OfferTakes(env, m, impl, o, n, |bytes|);
    if impl.contextOffset.Some? {
      var c := impl.contextOffset.value;
      WrapSmall(m.offset + c);
      var r := VisitLink(env, m, impl);
      assert r.m.offset == m.offset + c;
      SliceOfSlice(m.buf.mem, m.offset, bytes, c);
      assert r.m.buf.mem[m.offset + c..m.offset + c + 16] == m.buf.mem[m.offset + c..m.offset + c + 16];
      IfaceMoves(r.m.buf.mem, m.offset + c, bytes, c);
    }
  }

  // ---------------------------------------------------------------------------------------
  // The whole walk

  /** A walk takes the values along the chain in memory up to some link, and it stops there only if
    * the chain does or nothing is wanted any more; so it captures what the whole chain gives. */
  lemma {:induction false} WalkFollowsChain(env: Env, m: State, o: u32, n: u32, base: nat, budget: nat)
    requires TypesFit(env, n) && Walking(m, o, n, base)
    requires var r := Walk(env, m, budget); r.Stop? && !r.m.buf.full
    ensures var chain := ChainOffers(env, IfaceOf(m), budget);
            && WalkOffers(env, m, budget) <= chain
            && AllInside(chain, n)
            && CaptureOf(Walk(env, m, budget).m, o, n) == TakeAll(CaptureOf(m, o, n), chain)
            && (WalkOffers(env, m, budget) == chain || CaptureOf(Walk(env, m, budget).m, o, n).wanted == {})
    decreases budget
  {
    hide WalkLink, Object, TakeAll, MachineFrame.WorkGrows, LinkOffers, IfaceOf, Visited, WalkOffers, OffersIn;
    var i := IfaceOf(m);
    ChainFits(env, i, budget, n);
    WalkTakes(env, m, o, n, base, budget);
    if m.contextMask == 0 {
      EmptyIndices(m.contextMask);
      EmptyMaskStops(env, m, budget);
      NothingWanted(CaptureOf(m, o, n), ChainOffers(env, i, budget));
      assert WalkOffers(env, m, budget) == [];
    } else {
      ChainStep(env, m, o, n, base, budget);
      var r := WalkLink(env, m);
      if r.More? {
        MachineFrame.WalkFrame(env, r.m, budget - 1);
        WalkLinkTakes(env, m, o, n, base);
        WalkFollowsChain(env, r.m, o, n, base, budget - 1);
        ChainFits(env, IfaceOf(r.m), budget - 1, n);
        var found, rest := Finds(env, m), ChainOffers(env, IfaceOf(r.m), budget - 1);
        TakeAllSplits(CaptureOf(m, o, n), found, rest);
        assert found + WalkOffers(env, r.m, budget - 1) <= found + rest;
      }
    }
  }

  /** The first link of the walk and of the chain. */
  lemma ChainStep(env: Env, m: State, o: u32, n: u32, base: nat, budget: nat)
    requires TypesFit(env, n) && Walking(m, o, n, base) && m.contextMask != 0
    requires var r := Walk(env, m, budget); r.Stop? && !r.m.buf.full
    ensures budget > 0
    ensures var r := WalkLink(env, m);
            var chain := ChainOffers(env, IfaceOf(m), budget);
            && !r.Broken? && !r.m.buf.full
            && (r.Stop? ==> chain == Finds(env, m) && WalkOffers(env, m, budget) == chain)
            && (r.More? ==>
                  && Walking(r.m, o, n, base) && r.m.buf.InRange(r.m.offset, 16)
                  && chain == Finds(env, m) + ChainOffers(env, IfaceOf(r.m), budget - 1)
                  && WalkOffers(env, m, budget) == Finds(env, m) + WalkOffers(env, r.m, budget - 1)
                  && Walk(env, m, budget) == Walk(env, r.m, budget - 1))
  {
    hide WalkLink, Object, TakeAll, MachineFrame.WorkGrows, LinkOffers, IfaceOf, Visited, VisitLink, OffersIn, Parent;
    var r := WalkLink(env, m);
    if r.More? { MachineFrame.WalkFrame(env, r.m, budget - 1); }
    VisitedIsObject(env, m, o, n, base);
    if Visited(env, m).Some? {
      var (b, off, impl) := Visited(env, m).value;
      var (bytes, _) := Object(env, IfaceOf(m)).value;
      ObjectFits(env, IfaceOf(m), n);
      OffersMove(env, b, off, bytes, impl);
      ParentIsNext(env, m.(buf := b, offset := off), impl, o, n, base, bytes);
      assert Finds(env, m) == OffersIn(env, bytes, impl);
      assert OffersIn(env, bytes, impl) + [] == OffersIn(env, bytes, impl);
    } else {
      NothingVisited(env, m);
    }
  }

  /** A link that visits nothing stops the walk. */
  lemma NothingVisited(env: Env, m: State)
    requires m.Ok() && m.buf.InRange(m.offset, 16) && Visited(env, m).None?
    ensures !WalkLink(env, m).More?
  {
    hide VisitLink, LoadType, Buf.WriteEntry, Buf.WriteEntrySafe, Read64;
    MachineFrame.LoadTypeIsLocal(env, m.buf, m.offset);
  }

  // ---------------------------------------------------------------------------------------
  // The instruction

  lemma SameIface(a: seq<u8>, b: seq<u8>, off: nat, len: nat)
    requires |a| == |b| && off + 16 <= len <= |a| && forall i :: 0 <= i < len ==> a[i] == b[i]
    ensures IfaceAt(a, off) == IfaceAt(b, off)
  {
    hide IfaceAt;
    IfaceMoves(a, off, b, off);
  }

  lemma BodyTakesChain(env: Env, m: State, m1: State, o: u32, n: u32, count: u8, m': State)
    requires TypesFit(env, n) && m.Ok() && m1.Ok() && m1.offset == m.offset && m.offset + 16 <= m.buf.len
    requires |m1.buf.mem| == |m.buf.mem| && o == m.buf.len + ENTRY_HEADER && o + n <= m1.buf.len
    requires ContextBody(env, m1, o, n, count) == Next(m') && !m'.buf.full
    ensures HoldsFirstOffers(m', o, n, count, m1.work,
                             ChainOffers(env, IfaceAt(m1.buf.mem, m.offset), env.walkBudget))
  {
    hide Walk, WalkOffers, ChainOffers, Indices, Initial, TakeAll, Splice, TypesFit, WalkLocal, SameOutside, Zeros,
         IfaceAt;
    var start := Cleared(m1, o, n, count);
    WrapSmall(o + n);
    ZeroedSlice(m1.buf.mem, o, n);
    assert m1.buf.Zero(o, n) == start.buf;
    WalkTakes(env, start, o, n, m1.buf.len, env.walkBudget);
    WalkFollowsChain(env, start, o, n, m1.buf.len, env.walkBudget);
    assert IfaceOf(start) == IfaceAt(m1.buf.mem, m.offset) by {
      ClearedIface(m1.buf.mem, start.buf.mem, m.offset, o, n);
    }
  }

  lemma ClearedIface(a: seq<u8>, b: seq<u8>, off: nat, o: nat, n: nat)
    requires SameOutside(a, b, o, o + n) && off + 16 <= o <= |a|
    ensures IfaceAt(a, off) == IfaceAt(b, off)
  {
    SameIface(a, b, off, o);
  }

  /** PrepareGoContext, when every reservation fits, leaves for a context not recorded before and
    * readable exactly the values that are first for their slots along the chain of contexts in the
    * memory of the process. */
  lemma ChainIsCaptured(env: Env, m: State, e: QueueEntry, count: u8, m': State)
    requires TypesFit(env, e.len) && m.Ok() && m.offset + 16 <= m.buf.len
    requires e.addr == Read64(m.buf.mem, m.offset + 8)
    requires ExecGoContext(env, m, e.len, e.typ, count) == Next(m') && !m'.buf.full
    requires m.work.ShouldRecord(e.addr, e.typ).1 && Readable(env.memory, e.addr, e.len)
    ensures HoldsFirstOffers(m', m.buf.len + ENTRY_HEADER, e.len, count, m.work.ShouldRecord(e.addr, e.typ).0,
                             ChainOffers(env, IfaceAt(m.buf.mem, m.offset), env.walkBudget))
  {
    hide Buf.WriteEntry, Buf.WriteEntrySafe, ContextBody, ChainOffers, Read64, HeaderAt, HoldsFirstOffers,
         MachineFrame.WorkGrows, Readable, Work.ShouldRecord, TypesFit;
    assert Small(e.len) by { SmallContext(env, e.len); }
    var (b, off) := m.buf.WriteEntry(env.memory, e);
    MachineFrame.WriteEntryOk(m.buf, env.memory, e);
    var m1 := m.(work := m.work.ShouldRecord(e.addr, e.typ).0, buf := b);
    if off.Some? { MachineFrame.ContextBodyFrame(env, m1, off.value, e.len, count); }
    WriteEntryFits(m.buf, env.memory, e);
    BodyTakesChain(env, m, m1, off.value, e.len, count, m');
    SameIface(m.buf.mem, b.mem, m.offset, m.buf.len);
  }

  lemma SmallContext(env: Env, n: u32)
    requires TypesFit(env, n)
    ensures Small(n)
  {
  }
}
