/** The walk along a chain of Go contexts takes exactly the first offers of its links. */
module ContextWalk {
  import opened Words
  import opened Bytes
  import opened Wrappers
  import opened Worklist
  import opened Buffer
  import opened BufferFacts
  import opened CaptureMask
  import opened Machine
  import opened GoContext
  import MachineFrame

  /** What the program says about a type fits the type and the context object of n bytes. */
  predicate TypeFits(t: TypeInfo, n: u32) {
    && Small(t.byteLen)
    && (t.contextImpl.Some? ==>
          var c := t.contextImpl.value;
          && (c.contextOffset.Some? ==> c.contextOffset.value + 16 <= t.byteLen)
          && (c.keyOffset.Some? ==> c.keyOffset.value + 16 <= t.byteLen)
          && (c.valueOffset.Some? ==> c.valueOffset.value + 16 <= t.byteLen))
    && (t.contextValue.Some? ==> SlotInside(t.contextValue.value, n))
    && (t.contextKey.Some? ==> SlotInside(t.contextKey.value, n) && t.contextKeyValueType.Some?)
  }

  ghost predicate TypesFit(env: Env, n: u32) {
    Small(n) && forall id :: id in env.typeInfo ==> TypeFits(env.typeInfo[id], n)
  }

  /** A walk in progress: the context object is at [o, o + n), what the walk appends starts at
    * base, and the interface of the next link lies before the object or in what was appended. */
  predicate Walking(m: State, o: u32, n: u32, base: nat) {
    && m.Ok()
    && m.contextOffset == o
    && o + n <= base <= m.buf.len
    && (m.offset + 16 <= o || (base <= m.offset && m.offset + 16 <= m.buf.len))
  }

  ghost function CaptureOf(m: State, o: u32, n: u32): Capture
    requires o + n <= |m.buf.mem|
  {
    Capture(Indices(m.contextMask), m.buf.mem[o..o + n], m.work)
  }

  /** Only the mask, the worklist and the bytes of the context object may differ. */
  ghost predicate OnlyCapture(m: State, m': State, o: nat, n: nat) {
    && m' == m.(contextMask := m'.contextMask, work := m'.work, buf := m'.buf)
    && m'.buf == m.buf.(mem := m'.buf.mem)
    && SameOutside(m.buf.mem, m'.buf.mem, o, o + n)
  }

  function Record(m: State, f: Offer): Outcome
    requires m.Ok()
  {
    RecordContextValue(m, f.spec, f.value, f.expected)
  }

  lemma RecordTakes(m: State, f: Offer, o: u32, n: u32)
    requires m.Ok() && m.contextOffset == o && o + n <= |m.buf.mem| && SlotInside(f.spec, n)
    ensures var r := Record(m, f);
            && r.Next?
            && OnlyCapture(m, r.m, o, n)
            && CaptureOf(r.m, o, n) == Take(CaptureOf(m, o, n), f)
  {
    MaskTakes(m.contextMask, f.spec.index);
    RecordStores(m, f, o, n);
    hide Has, Clear, Indices, RecordContextValue;
  }

  /** A record writes the two words of its slot, and nothing else. */
  lemma RecordStores(m: State, f: Offer, o: u32, n: u32)
    requires m.Ok() && m.contextOffset == o && o + n <= |m.buf.mem| && SlotInside(f.spec, n)
    ensures var r := Record(m, f);
            && r.Next?
            && OnlyCapture(m, r.m, o, n)
            && r.m.contextMask == (if Has(m.contextMask, f.spec.index) then Clear(m.contextMask, f.spec.index)
                                   else m.contextMask)
            && (!Has(m.contextMask, f.spec.index) ==> r.m == m)
            && (Has(m.contextMask, f.spec.index) ==>
                  && r.m.buf.mem[o..o + n] == Splice(Splice(m.buf.mem[o..o + n], f.spec.offset, Le64(f.value.e.addr)),
                                                     f.spec.offset + 8, Le64(f.value.e.runtimeType))
                  && r.m.work == if f.expected != 0 && f.expected != f.value.typeId then m.work
                                 else
                                   m.work.Push(f.value.e.addr, if f.spec.typ == 0 then f.value.typeId else f.spec.typ,
                                               0))
  {
    hide Has, Clear, Le64, Work.Push, Splice, Wrap32;
    var at: nat := o + f.spec.offset;
    var addr, typ := Le64(f.value.e.addr), Le64(f.value.e.runtimeType);
    WrapSmall(at);
    WrapSmall(at + 8);
    var mem1 := Splice(m.buf.mem, at, addr);
    SpliceInside(m.buf.mem, o, n, f.spec.offset, addr);
    SpliceInside(mem1, o, n, f.spec.offset + 8, typ);
    if Has(m.contextMask, f.spec.index) {
      var r := Record(m, f);
      assert r.m.buf.mem == Splice(mem1, at + 8, typ);
    }
  }

  lemma MaskTakes(mask: u64, i: nat)
    ensures Has(mask, i) <==> i in Indices(mask)
    ensures Indices(Clear(mask, i)) == Indices(mask) - {i}
  {
    NoHighBits(mask, i);
    ClearIndices(mask, i);
    hide Has, Clear;
  }

  lemma SpliceInside(mem: seq<u8>, o: nat, n: nat, off: nat, data: seq<u8>)
    requires o + n <= |mem| && off + |data| <= n
    ensures Splice(mem, o + off, data)[o..o + n] == Splice(mem[o..o + n], off, data)
    ensures SameOutside(mem, Splice(mem, o + off, data), o, o + n)
  {
  }

  /** The offer of a link by the type of its key. */
  ghost function KeyOffers(env: Env, b: Buf, off: u32, impl: ContextImpl, v: Known): seq<Offer> {
    if impl.keyOffset.None? || !b.InRange(Wrap32(off + impl.keyOffset.value), 16) then []
    else match ResolveAny(env, b, Wrap32(off + impl.keyOffset.value))
      case None => []
      case Some(k) =>
        if k.info.contextKey.None? || k.info.contextKeyValueType.None? then []
        else [Offer(k.info.contextKey.value, v, k.info.contextKeyValueType.value)]
  }

  /** The offers of a link whose object is at the offset: by the type of the value, then by the
    * type of the key. */
  ghost function LinkOffers(env: Env, b: Buf, off: u32, impl: ContextImpl): seq<Offer> {
    if impl.valueOffset.None? || !b.InRange(Wrap32(off + impl.valueOffset.value), 16) then []
    else match ResolveAny(env, b, Wrap32(off + impl.valueOffset.value))
      case None => []
      case Some(v) =>
        (if v.info.contextValue.Some? then [Offer(v.info.contextValue.value, v, 0)] else [])
        + KeyOffers(env, b, off, impl, v)
  }

  /** What an interface resolves to depends on its sixteen bytes only. */
  lemma ResolveIsLocal(env: Env, a: Buf, b: Buf, off: u32)
    requires a.InRange(off, 16) && b.InRange(off, 16)
    requires forall i :: off <= i < off + 16 ==> a.mem[i] == b.mem[i]
    ensures ResolveAny(env, a, off) == ResolveAny(env, b, off)
  {
    assert Read64(a.mem, off) == Read64(b.mem, off);
    assert Read64(a.mem, off + 8) == Read64(b.mem, off + 8);
    hide Read64;
  }

  lemma ResolvedIsTyped(env: Env, b: Buf, off: u32, n: u32)
    requires TypesFit(env, n) && b.InRange(off, 16)
    ensures var v := ResolveAny(env, b, off); v.Some? ==> TypeFits(v.value.info, n)
  {
  }

  lemma KeyTakes(env: Env, m: State, impl: ContextImpl, v: Known, o: u32, n: u32, len: u32)
    requires TypesFit(env, n) && m.Ok() && m.contextOffset == o && o + n <= m.offset
    requires m.offset + len <= m.buf.len
    requires impl.keyOffset.Some? ==> impl.keyOffset.value + 16 <= len
    ensures var r := OfferByKey(env, m, impl, v);
            var offers := KeyOffers(env, m.buf, m.offset, impl, v);
            && r.Next?
            && OnlyCapture(m, r.m, o, n)
            && AllInside(offers, n)
            && CaptureOf(r.m, o, n) == TakeAll(CaptureOf(m, o, n), offers)
  {
    hide RecordContextValue, Take, ResolveAny;
    if impl.keyOffset.Some? {
      var at := Wrap32(m.offset + impl.keyOffset.value);
      var k := ResolveAny(env, m.buf, at);
      ResolvedIsTyped(env, m.buf, at, n);
      if k.Some? && k.value.info.contextKey.Some? {
        RecordTakes(m, Offer(k.value.info.contextKey.value, v, k.value.info.contextKeyValueType.value), o, n);
      }
    }
  }

  /** Visiting a link takes its offers, in order. */
  lemma OfferTakes(env: Env, m: State, impl: ContextImpl, o: u32, n: u32, len: u32)
    requires TypesFit(env, n) && m.Ok() && m.contextOffset == o && o + n <= m.offset
    requires m.offset + len <= m.buf.len
    requires impl.keyOffset.Some? ==> impl.keyOffset.value + 16 <= len
    requires impl.valueOffset.Some? ==> impl.valueOffset.value + 16 <= len
    ensures var r := OfferValue(env, m, impl);
            var offers := LinkOffers(env, m.buf, m.offset, impl);
            && r.Next?
            && OnlyCapture(m, r.m, o, n)
            && AllInside(offers, n)
            && CaptureOf(r.m, o, n) == TakeAll(CaptureOf(m, o, n), offers)
  {
    hide RecordContextValue, Take, OfferByKey, ResolveAny;
    if impl.valueOffset.Some? {
      var at := Wrap32(m.offset + impl.valueOffset.value);
      var v := ResolveAny(env, m.buf, at);
      ResolvedIsTyped(env, m.buf, at, n);
      if v.Some? {
        if v.value.info.contextValue.Some? {
          var f := Offer(v.value.info.contextValue.value, v.value, 0);
          RecordTakes(m, f, o, n);
          var m1 := Record(m, f).m;
          KeyTakes(env, m1, impl, v.value, o, n, len);
          SameKeyOffers(env, m.buf, m1.buf, m.offset, impl, v.value, o, n, len);
          var ks := KeyOffers(env, m.buf, m.offset, impl, v.value);
          assert ([f] + ks)[1..] == ks;
        } else {
          KeyTakes(env, m, impl, v.value, o, n, len);
          assert [] + KeyOffers(env, m.buf, m.offset, impl, v.value) == KeyOffers(env, m.buf, m.offset, impl, v.value);
        }
      }
    }
  }

  lemma SameKeyOffers(env: Env, a: Buf, b: Buf, off: u32, impl: ContextImpl, v: Known, o: u32, n: u32, len: u32)
    requires a.Ok() && |a.mem| == |b.mem| && SameOutside(a.mem, b.mem, o, o + n)
    requires o + n <= off && off + len <= a.len
    requires impl.keyOffset.Some? ==> impl.keyOffset.value + 16 <= len
    ensures KeyOffers(env, a, off, impl, v) == KeyOffers(env, b, off, impl, v)
  {
    hide ResolveAny;
    if impl.keyOffset.Some? {
      ResolveIsLocal(env, a, b, Wrap32(off + impl.keyOffset.value));
    }
  }

  // ---------------------------------------------------------------------------------------
  // One link

  /** The buffer after the object of the next link was copied to it, and where the object is;
    * none if the walk ends without visiting the link. */
  ghost function Visited(env: Env, m: State): Option<(Buf, u32, ContextImpl)>
    requires m.Ok()
  {
    if m.contextMask == 0 || !m.buf.InRange(m.offset, 16) || Read64(m.buf.mem, m.offset) == 0 then None
    else
      var (b, ok) := LoadType(env, m.buf, m.offset);
      var id := LinkType(env, b, m.offset);
      if !ok || id.None? then None
      else
        var entry := QueueEntry(id.value, env.typeInfo[id.value].byteLen, Read64(b.mem, m.offset + 8));
        if !b.WriteEntrySafe(env.memory, entry) then None
        else
          var (b', r) := b.WriteEntry(env.memory, entry);
          if r.None? then None else Some((b', r.value, env.typeInfo[id.value].contextImpl.value))
  }

  ghost function Finds(env: Env, m: State): seq<Offer>
    requires m.Ok()
  {
    match Visited(env, m)
    case None => []
    case Some((b, off, impl)) => LinkOffers(env, b, off, impl)
  }

  /** The bytes a walk may change below base: the eight bytes of the first interface, and the
    * context object. */
  ghost predicate WalkLocal(a: seq<u8>, b: seq<u8>, off: nat, o: nat, n: nat, base: nat) {
    |a| == |b| && forall i :: 0 <= i < base && i < |a| && !(off <= i < off + 8) && !(o <= i < o + n) ==> a[i] == b[i]
  }

  /** What a link does when every reservation so far fitted. */
  ghost predicate LinkTakes(env: Env, m: State, r: Link, o: u32, n: u32, base: nat, offers: seq<Offer>)
    requires o + n <= |m.buf.mem|
  {
    r.Broken? || r.m.buf.full ||
    (&& r.m.buf.Ok() && |r.m.buf.mem| == |m.buf.mem|
     && base <= r.m.buf.len
     && (r.More? ==> Walking(r.m, o, n, base) && base <= r.m.offset && m.buf.len + ENTRY_HEADER <= r.m.buf.len)
     && WalkLocal(m.buf.mem, r.m.buf.mem, m.offset, o, n, base)
     && AllInside(offers, n)
     && CaptureOf(r.m, o, n) == TakeAll(CaptureOf(m, o, n), offers))
  }

  lemma TakeNone(c: Capture)
    ensures TakeAll(c, []) == c
  {
  }

  lemma VisitKeepsFull(env: Env, m: State, b: Buf, off: Option<u32>, impl: ContextImpl)
    requires b.Ok() && b.full && |b.mem| == |m.buf.mem| && m.Ok()
    ensures off.Some? ==>
              var r := VisitLink(env, m.(buf := b, offset := off.value), impl);
              r.Broken? || r.m.buf.full
  {
    if off.Some? { MachineFrame.VisitLinkFrame(env, m.(buf := b, offset := off.value), impl); }
    hide VisitLink;
  }

  lemma VisitTakes(env: Env, m: State, impl: ContextImpl, o: u32, n: u32, base: nat, len: u32)
    requires TypesFit(env, n) && m.Ok() && m.contextOffset == o && o + n <= base <= m.offset
    requires m.offset + len <= m.buf.len
    requires impl.keyOffset.Some? ==> impl.keyOffset.value + 16 <= len
    requires impl.valueOffset.Some? ==> impl.valueOffset.value + 16 <= len
    requires impl.contextOffset.Some? ==> impl.contextOffset.value + 16 <= len
    ensures var r := VisitLink(env, m, impl);
            var offers := LinkOffers(env, m.buf, m.offset, impl);
            && !r.Broken?
            && r.m.buf == m.buf.(mem := r.m.buf.mem)
            && SameOutside(m.buf.mem, r.m.buf.mem, o, o + n)
            && (r.More? ==> Walking(r.m, o, n, base) && base <= r.m.offset)
            && AllInside(offers, n)
            && CaptureOf(r.m, o, n) == TakeAll(CaptureOf(m, o, n), offers)
  {
    hide OfferValue, LinkOffers, TakeAll, TypeFits;
    OfferTakes(env, m, impl, o, n, len);
    var r := OfferValue(env, m, impl);
    assert CaptureOf(r.m.(offset := 0), o, n) == CaptureOf(r.m, o, n);
    if impl.contextOffset.Some? {
      WrapSmall(m.offset + impl.contextOffset.value);
    }
  }

  lemma CopyTakes(env: Env, m: State, id: u32, o: u32, n: u32, base: nat)
    requires TypesFit(env, n) && Walking(m, o, n, base) && m.buf.InRange(m.offset, 16)
    requires id in env.typeInfo && env.typeInfo[id].contextImpl.Some?
    ensures var entry := QueueEntry(id, env.typeInfo[id].byteLen, Read64(m.buf.mem, m.offset + 8));
            var r := CopyLink(env, m, id);
            !r.Broken? ==>
              && m.buf.WriteEntrySafe(env.memory, entry)
              && var (b, off) := m.buf.WriteEntry(env.memory, entry);
                 LinkTakes(env, m, r, o, n, base,
                   if off.Some? then LinkOffers(env, b, off.value, env.typeInfo[id].contextImpl.value) else [])
  {
    hide VisitLink, Buf.WriteEntry, Buf.WriteEntrySafe, Read64, LinkOffers, TakeAll, HeaderAt, Readable, Fetch, Zeros,
         Indices;
    var entry := QueueEntry(id, env.typeInfo[id].byteLen, Read64(m.buf.mem, m.offset + 8));
    assert TypeFits(env.typeInfo[id], n);
    if m.buf.WriteEntrySafe(env.memory, entry) {
      var (b, off) := m.buf.WriteEntry(env.memory, entry);
      MachineFrame.WriteEntryOk(m.buf, env.memory, entry);
      if !b.full {
        WriteEntryFits(m.buf, env.memory, entry);
        assert m.buf.mem[o..o + n] == b.mem[o..o + n];
        if off.Some? {
          VisitTakes(env, m.(buf := b, offset := off.value), env.typeInfo[id].contextImpl.value, o, n, base,
                     env.typeInfo[id].byteLen);
        } else {
          assert TakeAll(CaptureOf(m, o, n), []) == CaptureOf(m, o, n) by { TakeNone(CaptureOf(m, o, n)); }
        }
      } else {
        VisitKeepsFull(env, m, b, off, env.typeInfo[id].contextImpl.value);
      }
    }
  }

  lemma WalkLinkTakes(env: Env, m: State, o: u32, n: u32, base: nat)
    requires TypesFit(env, n) && Walking(m, o, n, base)
    ensures LinkTakes(env, m, WalkLink(env, m), o, n, base, Finds(env, m))
  {
    hide CopyLink, LoadType, Buf.WriteEntry, Buf.WriteEntrySafe, Read64, LinkOffers, TakeAll;
    TakeNone(CaptureOf(m, o, n));
    if m.contextMask != 0 && Read64(m.buf.mem, m.offset) != 0 {
      MachineFrame.LoadTypeIsLocal(env, m.buf, m.offset);
      var (b, ok) := LoadType(env, m.buf, m.offset);
      SameSlice(m.buf.mem, b.mem, m.offset, m.offset + 8, o, n);
      var m1 := m.(buf := b);
      assert CaptureOf(m1, o, n) == CaptureOf(m, o, n);
      var id := LinkType(env, b, m.offset);
      if ok && id.Some? {
        CopyTakes(env, m1, id.value, o, n, base);
        var r := WalkLink(env, m);
        assert r == CopyLink(env, m1, id.value);
        if !r.Broken? && !r.m.buf.full {
          var entry := QueueEntry(id.value, env.typeInfo[id.value].byteLen, Read64(b.mem, m.offset + 8));
          var (b', off) := b.WriteEntry(env.memory, entry);
          assert Finds(env, m) == if off.None? then []
            else LinkOffers(env, b', off.value, env.typeInfo[id.value].contextImpl.value);
        }
      }
    }
  }

  // ---------------------------------------------------------------------------------------
  // The whole walk

  ghost function WalkOffers(env: Env, m: State, budget: nat): seq<Offer>
    requires m.Ok()
    decreases budget
  {
    if budget == 0 then []
    else match WalkLink(env, m)
      case More(m') => Finds(env, m) + WalkOffers(env, m', budget - 1)
      case _ => Finds(env, m)
  }

  lemma {:induction false} TakeAllSplits(c: Capture, a: seq<Offer>, b: seq<Offer>)
    requires AllInside(a, |c.bytes|) && AllInside(b, |c.bytes|)
    ensures AllInside(a + b, |c.bytes|)
    ensures TakeAll(c, a + b) == TakeAll(TakeAll(c, a), b)
    decreases |a|
  {
    hide Take;
    if a == [] {
      assert a + b == b;
    } else {
      assert (a + b)[1..] == a[1..] + b;
      TakeAllSplits(Take(c, a[0]), a[1..], b);
    }
  }

  lemma {:induction false} WalkTakes(env: Env, m: State, o: u32, n: u32, base: nat, budget: nat)
    requires TypesFit(env, n) && Walking(m, o, n, base)
    ensures var r := Walk(env, m, budget);
            var offers := WalkOffers(env, m, budget);
            r.Stop? && !r.m.buf.full ==>
              && base <= r.m.buf.len
              && WalkLocal(m.buf.mem, r.m.buf.mem, m.offset, o, n, base)
              && AllInside(offers, n)
              && CaptureOf(r.m, o, n) == TakeAll(CaptureOf(m, o, n), offers)
    decreases budget
  {
    hide WalkLink, Finds, TakeAll, MachineFrame.WorkGrows;
    if budget > 0 {
      WalkLinkTakes(env, m, o, n, base);
      var r := WalkLink(env, m);
      if r.More? {
        MachineFrame.WalkFrame(env, r.m, budget - 1);
        var last := Walk(env, r.m, budget - 1);
        if last.Stop? && !last.m.buf.full {
          WalkTakes(env, r.m, o, n, base, budget - 1);
          TakeAllSplits(CaptureOf(m, o, n), Finds(env, m), WalkOffers(env, r.m, budget - 1));
        }
      }
    }
  }

  /** The walk stops as soon as every wanted value was captured. */
  lemma EmptyMaskStops(env: Env, m: State, budget: nat)
    requires m.Ok() && budget > 0 && Indices(m.contextMask) == {}
    ensures Walk(env, m, budget) == Stop(m)
    ensures WalkOffers(env, m, budget) == []
  {
    EmptyIndices(m.contextMask);
  }

  /** The state after k links that all led on to a parent. */
  ghost function LinkState(env: Env, m: State, k: nat): (r: Option<State>)
    requires m.Ok()
    ensures r.Some? ==> r.value.Ok() && |r.value.buf.mem| == |m.buf.mem|
    decreases k
  {
    hide WalkLink;
    if k == 0 then Some(m)
    else match WalkLink(env, m)
      case More(m') => LinkState(env, m', k - 1)
      case _ => None
  }

  /** Each link that fits lengthens the buffer, so only an overflow lets a walk, even one round a
    * cycle of contexts, go on past a sixteenth of the capacity. */
  lemma {:induction false} LinksAreBounded(env: Env, m: State, o: u32, n: u32, base: nat, k: nat)
    requires TypesFit(env, n) && Walking(m, o, n, base)
    ensures var r := LinkState(env, m, k);
            r.Some? && !r.value.buf.full ==> m.buf.len + ENTRY_HEADER * k <= r.value.buf.len
    decreases k
  {
    hide WalkLink, Finds, TakeAll, MachineFrame.WorkGrows;
    if k > 0 {
      WalkLinkTakes(env, m, o, n, base);
      var r := WalkLink(env, m);
      if r.More? {
        if r.m.buf.full {
          FullStays(env, r.m, k - 1);
        } else {
          LinksAreBounded(env, r.m, o, n, base, k - 1);
        }
      }
    }
  }

  lemma {:induction false} FullStays(env: Env, m: State, k: nat)
    requires m.Ok() && m.buf.full
    ensures var r := LinkState(env, m, k); r.Some? ==> r.value.buf.full
    decreases k
  {
    hide WalkLink, MachineFrame.WorkGrows;
    if k > 0 {
      MachineFrame.WalkLinkFrame(env, m);
      var r := WalkLink(env, m);
      if r.More? { FullStays(env, r.m, k - 1); }
    }
  }

  /** A walk uses up its budget only by following that many links. */
  lemma {:induction false} BudgetUsedUp(env: Env, m: State, budget: nat)
    requires m.Ok() && Walk(env, m, budget) == Broken(WalkFault)
    ensures LinkState(env, m, budget).Some?
    decreases budget
  {
    hide WalkLink;
    if budget > 0 {
      MachineFrame.LinkFaults(env, m);
      var r := WalkLink(env, m);
      if r.More? { BudgetUsedUp(env, r.m, budget - 1); }
    }
  }

  /** With a budget of a sixteenth of the capacity, a walk that never ends has overflowed. */
  lemma EndlessWalkOverflows(env: Env, m: State, o: u32, n: u32, base: nat, budget: nat)
    requires TypesFit(env, n) && Walking(m, o, n, base)
    requires ENTRY_HEADER * budget > |m.buf.mem|
    requires Walk(env, m, budget) == Broken(WalkFault)
    ensures LinkState(env, m, budget).Some? && LinkState(env, m, budget).value.buf.full
  {
    hide WalkLink, Walk;
    BudgetUsedUp(env, m, budget);
    LinksAreBounded(env, m, o, n, base, budget);
  }

  // ---------------------------------------------------------------------------------------
  // The instruction

  /** The buffer with the entry appended, if it can be. */
  ghost function Appended(env: Env, b: Buf, e: QueueEntry): (b': Buf)
    requires b.Ok()
    ensures b'.Ok() && |b'.mem| == |b.mem|
  {
    if b.WriteEntrySafe(env.memory, e) then
      MachineFrame.WriteEntryOk(b, env.memory, e);
      hide Buf.WriteEntry, Buf.WriteEntrySafe;
      b.WriteEntry(env.memory, e).0
    else b
  }

  /** The object at o cleared and the mask of wanted values set, as a walk starts. */
  ghost function Cleared(m: State, o: u32, n: u32, count: u8): (start: State)
    requires m.Ok()
    ensures start.Ok()
  {
    m.(buf := m.buf.(mem := if o + n <= |m.buf.mem| then Splice(m.buf.mem, o, Zeros(n)) else m.buf.mem),
       contextOffset := o, contextMask := Initial(count))
  }

  /** The state in which the walk of a context starts. */
  ghost function WalkStart(env: Env, m: State, e: QueueEntry, count: u8): (start: State)
    requires m.Ok()
    ensures start.Ok()
  {
    hide Appended, Cleared;
    var m1 := m.(work := m.work.ShouldRecord(e.addr, e.typ).0, buf := Appended(env, m.buf, e));
    Cleared(m1, Wrap32(m.buf.len + ENTRY_HEADER), e.len, count)
  }

  /** The object at o holds the first offers along the chain, and nothing else. */
  ghost predicate HoldsFirstOffers(m': State, o: nat, n: u32, count: u8, work: Work, offers: seq<Offer>) {
    && o + n <= |m'.buf.mem|
    && AllInside(offers, n)
    && Capture(Indices(m'.contextMask), m'.buf.mem[o..o + n], m'.work)
         == TakeAll(Capture(Indices(Initial(count)), Zeros(n), work), offers)
  }

  /** One entry was appended, and below it only the eight bytes of the interface may differ. */
  ghost predicate OneEntryAppended(m: State, m': State, e: QueueEntry) {
    && m'.buf.len == m.buf.len + EntrySize(e.len) <= |m'.buf.mem|
    && HeaderAt(m'.buf.mem, m.buf.len) == e
    && WalkLocal(m.buf.mem, m'.buf.mem, m.offset, 0, 0, m.buf.len)
  }

  /** What is left of a context: for one not recorded before, one more entry, flagged if the
    * context could not be read; its data is a cleared object with the first offers along the chain
    * stored in their slots, and nothing of the walk remains after it. */
  ghost predicate ContextLeft(env: Env, m: State, e: QueueEntry, count: u8, m': State) {
    hide WalkOffers, WalkStart, HoldsFirstOffers, OneEntryAppended;
    var (work, isNew) := m.work.ShouldRecord(e.addr, e.typ);
    var ok := Readable(env.memory, e.addr, e.len);
    && m.Ok()
    && (!isNew ==> m' == m)
    && (isNew ==> OneEntryAppended(m, m', Recorded(e, ok)))
    && (isNew && !ok ==> m'.work == work)
    && (isNew && ok ==>
          HoldsFirstOffers(m', m.buf.len + ENTRY_HEADER, e.len, count, work,
                           WalkOffers(env, WalkStart(env, m, e, count), env.walkBudget)))
  }

  /** PrepareGoContext, when every reservation fits, leaves exactly the captured context. */
  lemma ContextIsCaptured(env: Env, m: State, e: QueueEntry, count: u8, m': State)
    requires TypesFit(env, e.len) && m.Ok() && m.offset + 16 <= m.buf.len
    requires e.addr == Read64(m.buf.mem, m.offset + 8)
    requires ExecGoContext(env, m, e.len, e.typ, count) == Next(m') && !m'.buf.full
    ensures ContextLeft(env, m, e, count, m')
  {
    hide Buf.WriteEntry, Buf.WriteEntrySafe, ContextBody, WalkOffers, Read64, HeaderAt, WalkStart, HoldsFirstOffers,
         MachineFrame.WorkGrows;
    WrapSmall(m.offset + 8);
    var (work, isNew) := m.work.ShouldRecord(e.addr, e.typ);
    if isNew {
      var (b, off) := m.buf.WriteEntry(env.memory, e);
      MachineFrame.WriteEntryOk(m.buf, env.memory, e);
      if off.None? {
        WriteEntryFits(m.buf, env.memory, e);
      } else {
        AppendedContext(env, m, e, count, b, off.value, m');
      }
    }
  }

  lemma AppendedContext(env: Env, m: State, e: QueueEntry, count: u8, b: Buf, o: u32, m': State)
    requires TypesFit(env, e.len) && m.Ok() && m.offset + 16 <= m.buf.len
    requires m.buf.WriteEntrySafe(env.memory, e) && m.buf.WriteEntry(env.memory, e) == (b, Some(o))
    requires b.Ok() && |b.mem| == |m.buf.mem|
    requires !m'.buf.full
    requires ContextBody(env, m.(work := m.work.ShouldRecord(e.addr, e.typ).0, buf := b), o, e.len, count) == Next(m')
    ensures Readable(env.memory, e.addr, e.len)
    ensures OneEntryAppended(m, m', e)
    ensures HoldsFirstOffers(m', m.buf.len + ENTRY_HEADER, e.len, count, m.work.ShouldRecord(e.addr, e.typ).0,
                             WalkOffers(env, WalkStart(env, m, e, count), env.walkBudget))
  {
    hide Buf.WriteEntry, Buf.WriteEntrySafe, ContextBody, WalkOffers, HeaderAt, HoldsFirstOffers,
         MachineFrame.WorkGrows;
    var m1 := m.(work := m.work.ShouldRecord(e.addr, e.typ).0, buf := b);
    MachineFrame.ContextBodyFrame(env, m1, o, e.len, count);
    WriteEntryFits(m.buf, env.memory, e);
    WrapSmall(m.buf.len + ENTRY_HEADER);
    BodyIsCaptured(env, m, m1, o, e.len, count, m');
    HeaderIsLocal(b.mem, m'.buf.mem, m.buf.len);
    assert WalkStart(env, m, e, count) == Cleared(m1, o, e.len, count);
  }

  lemma BodyIsCaptured(env: Env, m: State, m1: State, o: u32, n: u32, count: u8, m': State)
    requires TypesFit(env, n) && m.Ok() && m1.Ok() && m1.offset == m.offset && m.offset + 16 <= m.buf.len
    requires |m1.buf.mem| == |m.buf.mem| && o == m.buf.len + ENTRY_HEADER && o + n <= m1.buf.len
    requires ContextBody(env, m1, o, n, count) == Next(m') && !m'.buf.full
    ensures m'.buf.len == m1.buf.len && |m'.buf.mem| == |m1.buf.mem|
    ensures WalkLocal(m1.buf.mem, m'.buf.mem, m.offset, o, n, m1.buf.len)
    ensures HoldsFirstOffers(m', o, n, count, m1.work,
                             WalkOffers(env, Cleared(m1, o, n, count), env.walkBudget))
  {
    hide Walk, WalkOffers, Indices, Initial, TakeAll, Splice, TypesFit, WalkLocal, SameOutside, Zeros;
    var start := Cleared(m1, o, n, count);
    WrapSmall(o + n);
    ZeroedSlice(m1.buf.mem, o, n);
    assert m1.buf.Zero(o, n) == start.buf;
    WalkTakes(env, start, o, n, m1.buf.len, env.walkBudget);
    LocalAfterClearing(m1.buf.mem, start.buf.mem, m'.buf.mem, m.offset, o, n, m1.buf.len);
  }

  lemma LocalAfterClearing(a: seq<u8>, b: seq<u8>, c: seq<u8>, off: nat, o: nat, n: nat, base: nat)
    requires SameOutside(a, b, o, o + n) && WalkLocal(b, c, off, o, n, base)
    ensures WalkLocal(a, c, off, o, n, base)
  {
  }

  lemma ZeroedSlice(mem: seq<u8>, o: nat, n: nat)
    requires o + n <= |mem|
    ensures Splice(mem, o, Zeros(n))[o..o + n] == Zeros(n)
    ensures SameOutside(mem, Splice(mem, o, Zeros(n)), o, o + n)
  {
  }
}
