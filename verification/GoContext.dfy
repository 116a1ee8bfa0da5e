/** Capturing the values of a Go context: along the chain of contexts, each wanted value is taken
  * from the first link that offers it, and nothing else of the walk remains in the output. */
module GoContext {
  import opened Words
  import opened Bytes
  import opened Worklist
  import opened Machine

  /** A context value that a link has for a slot. */
  datatype Offer = Offer(spec: ContextValue, value: Known, expected: u32)

  /** What a capture has so far: the slots still wanted, the bytes of the context object, and the
    * worklist. */
  datatype Capture = Capture(wanted: set<nat>, bytes: seq<u8>, work: Work)

  predicate SlotInside(spec: ContextValue, size: nat) {
    spec.offset + 16 <= size
  }

  /** An offer is taken if its slot is still wanted: its reference goes into the slot, and the
    * object is enqueued unless it is of an unexpected type. */
  ghost function Take(c: Capture, o: Offer): (r: Capture)
    requires SlotInside(o.spec, |c.bytes|)
    ensures |r.bytes| == |c.bytes|
  {
    if o.spec.index !in c.wanted then c
    else
      var bytes := Splice(Splice(c.bytes, o.spec.offset, Le64(o.value.e.addr)),
                           o.spec.offset + 8, Le64(o.value.e.runtimeType));
      var typ := if o.spec.typ == 0 then o.value.typeId else o.spec.typ;
      Capture(c.wanted - {o.spec.index}, bytes,
              if o.expected != 0 && o.expected != o.value.typeId then c.work
              else c.work.Push(o.value.e.addr, typ, 0))
  }

  ghost predicate AllInside(offers: seq<Offer>, size: nat) {
    forall o :: o in offers ==> SlotInside(o.spec, size)
  }

  ghost function TakeAll(c: Capture, offers: seq<Offer>): (r: Capture)
    requires AllInside(offers, |c.bytes|)
    ensures |r.bytes| == |c.bytes|
    decreases |offers|
  {
    if offers == [] then c else TakeAll(Take(c, offers[0]), offers[1..])
  }

  // ---------------------------------------------------------------------------------------
  // First match wins

  /** The offers that are the first for a wanted slot. */
  ghost function FirstMatches(wanted: set<nat>, offers: seq<Offer>): seq<Offer>
    decreases |offers|
  {
    if offers == [] then []
    else if offers[0].spec.index in wanted then
      [offers[0]] + FirstMatches(wanted - {offers[0].spec.index}, offers[1..])
    else FirstMatches(wanted, offers[1..])
  }

  /** Offer k is the first one for its slot, and its slot is wanted. */
  ghost predicate IsFirst(wanted: set<nat>, offers: seq<Offer>, k: nat)
    requires k < |offers|
  {
    offers[k].spec.index in wanted && forall j :: 0 <= j < k ==> offers[j].spec.index != offers[k].spec.index
  }

  /** Each slot is recorded at most once, and exactly the first offers are recorded. */
  lemma {:induction false} FirstMatchesAreFirst(wanted: set<nat>, offers: seq<Offer>)
    ensures forall i, j :: 0 <= i < j < |FirstMatches(wanted, offers)| ==>
              FirstMatches(wanted, offers)[i].spec.index != FirstMatches(wanted, offers)[j].spec.index
    ensures forall o :: o in FirstMatches(wanted, offers) ==>
              exists k :: 0 <= k < |offers| && offers[k] == o && IsFirst(wanted, offers, k)
    ensures forall k :: 0 <= k < |offers| && IsFirst(wanted, offers, k) ==>
              offers[k] in FirstMatches(wanted, offers)
    decreases |offers|
  {
    if offers != [] {
      var i0, rest := offers[0].spec.index, offers[1..];
      var wanted' := if i0 in wanted then wanted - {i0} else wanted;
      FirstMatchesAreFirst(wanted', rest);
      var tail := FirstMatches(wanted', rest);
      forall o | o in tail
        ensures o.spec.index in wanted'
        ensures exists k :: 0 <= k < |offers| && offers[k] == o && IsFirst(wanted, offers, k)
      {
        var k :| 0 <= k < |rest| && rest[k] == o && IsFirst(wanted', rest, k);
        assert offers[k + 1] == o;
        forall j | 0 <= j < k + 1 ensures offers[j].spec.index != o.spec.index {
          if j > 0 { assert rest[j - 1].spec.index != rest[k].spec.index; }
        }
        assert IsFirst(wanted, offers, k + 1);
      }
      assert i0 in wanted ==> IsFirst(wanted, offers, 0);
      forall k | 0 <= k < |offers| && IsFirst(wanted, offers, k)
        ensures offers[k] in FirstMatches(wanted, offers)
      {
        if k > 0 {
          forall j | 0 <= j < k - 1 ensures rest[j].spec.index != rest[k - 1].spec.index {
            assert offers[j + 1].spec.index != offers[k].spec.index;
          }
          assert IsFirst(wanted', rest, k - 1);
        }
      }
    }
  }

  /** Taking all offers is taking the first matches; the slots left are those never offered. */
  lemma {:induction false} TakeAllIsFirstMatch(c: Capture, offers: seq<Offer>)
    requires AllInside(offers, |c.bytes|)
    ensures AllInside(FirstMatches(c.wanted, offers), |c.bytes|)
    ensures TakeAll(c, offers) == TakeAll(c, FirstMatches(c.wanted, offers))
    ensures forall i :: i in TakeAll(c, offers).wanted <==>
              i in c.wanted && forall o :: o in offers ==> o.spec.index != i
    decreases |offers|
  {
    if offers != [] {
      assert offers[0] in offers && forall o :: o in offers[1..] ==> o in offers;
      assert forall o :: o in offers ==> o == offers[0] || o in offers[1..];
      TakeAllIsFirstMatch(Take(c, offers[0]), offers[1..]);
      var tail := FirstMatches(Take(c, offers[0]).wanted, offers[1..]);
      if offers[0].spec.index in c.wanted {
        assert ([offers[0]] + tail)[1..] == tail;
      }
    }
  }

  /** No two different slots overlap. */
  ghost predicate SlotsApart(offers: seq<Offer>) {
    forall i, j :: 0 <= i < |offers| && 0 <= j < |offers| && offers[i].spec.index != offers[j].spec.index ==>
      offers[i].spec.offset + 16 <= offers[j].spec.offset || offers[j].spec.offset + 16 <= offers[i].spec.offset
  }

  /** After the walk a slot holds the reference of the first value offered for it. */
  lemma {:induction false} SlotHoldsFirst(c: Capture, offers: seq<Offer>, k: nat)
    requires AllInside(offers, |c.bytes|) && SlotsApart(offers)
    requires k < |offers| && IsFirst(c.wanted, offers, k)
    ensures offers[k] in offers
    ensures Read64(TakeAll(c, offers).bytes, offers[k].spec.offset) == offers[k].value.e.addr
    ensures Read64(TakeAll(c, offers).bytes, offers[k].spec.offset + 8) == offers[k].value.e.runtimeType
    decreases |offers|
  {
    assert offers[0] in offers;
    assert forall o :: o in offers[1..] ==> o in offers;
    var c1 := Take(c, offers[0]);
    if k == 0 {
      TakenIsStored(c, offers[0]);
      SlotIsKept(c1, offers[1..], offers[0].spec);
    } else {
      forall j | 0 <= j < k - 1 ensures offers[1..][j].spec.index != offers[1..][k - 1].spec.index {
        assert offers[j + 1].spec.index != offers[k].spec.index;
      }
      assert offers[0].spec.index != offers[k].spec.index;
      assert IsFirst(c1.wanted, offers[1..], k - 1);
      SlotHoldsFirst(c1, offers[1..], k - 1);
    }
  }

  lemma TakenIsStored(c: Capture, o: Offer)
    requires SlotInside(o.spec, |c.bytes|) && o.spec.index in c.wanted
    ensures Read64(Take(c, o).bytes, o.spec.offset) == o.value.e.addr
    ensures Read64(Take(c, o).bytes, o.spec.offset + 8) == o.value.e.runtimeType
    ensures o.spec.index !in Take(c, o).wanted
  {
    hide Le64;
    var at: nat := o.spec.offset;
    var a := Splice(c.bytes, at, Le64(o.value.e.addr));
    var b := Splice(c.bytes, at + 8, Le64(o.value.e.runtimeType));
    assert Take(c, o).bytes == Splice(b, at, Le64(o.value.e.addr));
    ReadAfterWrite64(b, at, o.value.e.addr);
    ReadAfterWrite64(a, at + 8, o.value.e.runtimeType);
  }

  /** A slot no longer wanted is not written again. */
  lemma {:induction false} SlotIsKept(c: Capture, offers: seq<Offer>, spec: ContextValue)
    requires AllInside(offers, |c.bytes|) && SlotInside(spec, |c.bytes|) && spec.index !in c.wanted
    requires forall j :: 0 <= j < |offers| && offers[j].spec.index != spec.index ==>
               offers[j].spec.offset + 16 <= spec.offset || spec.offset + 16 <= offers[j].spec.offset
    ensures Read64(TakeAll(c, offers).bytes, spec.offset) == Read64(c.bytes, spec.offset)
    ensures Read64(TakeAll(c, offers).bytes, spec.offset + 8) == Read64(c.bytes, spec.offset + 8)
    decreases |offers|
  {
    if offers != [] {
      assert offers[0] in offers;
      assert forall o :: o in offers[1..] ==> o in offers;
      var c1 := Take(c, offers[0]);
      hide Le64;
      forall i | spec.offset <= i < spec.offset + 16 ensures c1.bytes[i] == c.bytes[i] {}
      SlotIsKept(c1, offers[1..], spec);
      hide TakeAll, Take;
    }
  }
}
