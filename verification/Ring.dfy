/** The 128-slot ring inside a node of the FIFO queue, as a value. */
module Ring {
  const NODE_SIZE := 128

  /** What a node stores: its slots, the slot of its first element, and how many it holds. */
  datatype Ring<T> = Ring(buf: seq<T>, head: nat, len: nat) {
    predicate Shaped() {
      |buf| == NODE_SIZE && head < NODE_SIZE && len <= NODE_SIZE
    }

    /** The slot of the j-th place from the head, going round the ring. */
    function Slot(j: nat): (s: nat)
      requires Shaped() && j < NODE_SIZE
      ensures s == (head + j) % NODE_SIZE
    {
      if head + j < NODE_SIZE then head + j else head + j - NODE_SIZE
    }

    /** How far a slot is from the head, going round the ring. */
    function Rank(s: nat): (j: nat)
      requires Shaped() && s < NODE_SIZE
      ensures j < NODE_SIZE && Slot(j) == s
    {
      if head <= s then s - head else s + NODE_SIZE - head
    }

    /** The queued elements of this node, front first. */
    function Window(): (w: seq<T>)
      requires Shaped()
      ensures |w| == len
    {
      seq(len, j requires 0 <= j < len && Shaped() => buf[Slot(j)])
    }

    /** Every slot outside the window holds the zero value. */
    ghost predicate ZeroOutside(zero: T)
      requires Shaped()
    {
      forall s :: 0 <= s < NODE_SIZE && len <= Rank(s) ==> buf[s] == zero
    }

    function Push(t: T): Ring<T>
      requires Shaped() && len < NODE_SIZE
    {
      Ring(buf[(head + len) % NODE_SIZE := t], head, len + 1)
    }

    function Pop(zero: T): Ring<T>
      requires Shaped() && len > 0
    {
      Ring(buf[head := zero], (head + 1) % NODE_SIZE, len - 1)
    }
  }

  function Empty<T>(zero: T): Ring<T> {
    Ring(seq(NODE_SIZE, _ => zero), 0, 0)
  }

  lemma EmptyIsClear<T>(r: Ring<T>, zero: T)
    requires r.Shaped() && r.len == 0 && r.ZeroOutside(zero)
    ensures r.(head := 0) == Empty(zero)
  {
    assert forall s :: 0 <= s < NODE_SIZE ==> r.Rank(s) >= 0 && r.buf[s] == zero;
    assert r.buf == Empty(zero).buf;
  }

  lemma PushAppends<T>(r: Ring<T>, t: T, zero: T)
    requires r.Shaped() && r.len < NODE_SIZE && r.ZeroOutside(zero)
    ensures r.Push(t).Shaped() && r.Push(t).ZeroOutside(zero)
    ensures r.Push(t).Window() == r.Window() + [t]
  {
    var p := r.Push(t);
    forall j | 0 <= j < p.len
      ensures p.Window()[j] == (r.Window() + [t])[j]
    {
      assert p.Slot(j) == r.Slot(j);
    }
    assert forall s :: 0 <= s < NODE_SIZE ==> p.Rank(s) == r.Rank(s);
  }

  lemma PopRemovesFirst<T>(r: Ring<T>, zero: T)
    requires r.Shaped() && r.len > 0 && r.ZeroOutside(zero)
    ensures r.Pop(zero).Shaped() && r.Pop(zero).ZeroOutside(zero)
    ensures r.Window() == [r.buf[r.head]] + r.Pop(zero).Window()
  {
    var p := r.Pop(zero);
    forall j | 0 < j < r.len
      ensures r.Window()[j] == p.Window()[j - 1]
    {
      assert p.Slot(j - 1) == r.Slot(j);
    }
    forall s | 0 <= s < NODE_SIZE && p.len <= p.Rank(s)
      ensures p.buf[s] == zero
    {
      if s != r.head { assert p.Rank(s) == r.Rank(s) - 1; }
    }
  }

  // ---------------------------------------------------------------------------------------
  // A chain of rings that together hold a sequence

  /** The number of elements before ring i. */
  function Before<T>(rings: seq<Ring<T>>, i: nat): nat
    requires i < |rings|
  {
    if i == 0 then 0 else rings[0].len + NODE_SIZE * (i - 1)
  }

  ghost predicate RingFits<T>(rings: seq<Ring<T>>, i: nat, contents: seq<T>, zero: T)
    requires i < |rings|
  {
    var r := rings[i];
    && r.Shaped()
    && r.len > 0
    && (i > 0 ==> r.head == 0)
    && (0 < i < |rings| - 1 ==> r.len == NODE_SIZE)
    && r.ZeroOutside(zero)
    && Before(rings, i) + r.len <= |contents|
    && r.Window() == contents[Before(rings, i)..Before(rings, i) + r.len]
  }

  /** Every ring holds an element, every ring strictly inside the chain is full, free slots are
    * zero, and the windows put together are the contents. */
  ghost predicate Packed<T>(rings: seq<Ring<T>>, contents: seq<T>, zero: T) {
    && (forall i :: 0 <= i < |rings| ==> RingFits(rings, i, contents, zero))
    && |contents| == (if |rings| == 0 then 0
                      else Before(rings, |rings| - 1) + rings[|rings| - 1].len)
  }

  lemma PackedNewRing<T>(rings: seq<Ring<T>>, contents: seq<T>, t: T, zero: T)
    requires Packed(rings, contents, zero)
    requires |rings| > 0 ==> rings[|rings| - 1].len == NODE_SIZE
    ensures Packed(rings + [Empty(zero).Push(t)], contents + [t], zero)
  {
    var rings' := rings + [Empty(zero).Push(t)];
    PushAppends(Empty(zero), t, zero);
    forall i | 0 <= i < |rings'|
      ensures RingFits(rings', i, contents + [t], zero)
    {
      if i < |rings| { assert RingFits(rings, i, contents, zero); }
    }
  }

  lemma PackedPush<T>(rings: seq<Ring<T>>, contents: seq<T>, t: T, zero: T)
    requires Packed(rings, contents, zero)
    requires |rings| > 0 && RingFits(rings, |rings| - 1, contents, zero)
    requires rings[|rings| - 1].len < NODE_SIZE
    ensures Packed(rings[|rings| - 1 := rings[|rings| - 1].Push(t)], contents + [t], zero)
  {
    var last := |rings| - 1;
    var rings' := rings[last := rings[last].Push(t)];
    PushAppends(rings[last], t, zero);
    forall i | 0 <= i < |rings'|
      ensures RingFits(rings', i, contents + [t], zero)
    {
      assert RingFits(rings, i, contents, zero);
    }
  }

  lemma FrontRing<T>(rings: seq<Ring<T>>, contents: seq<T>, zero: T)
    requires Packed(rings, contents, zero) && |contents| > 0
    ensures |rings| > 0 && RingFits(rings, 0, contents, zero)
    ensures rings[0].Shaped() && rings[0].len > 0 && rings[0].ZeroOutside(zero)
    ensures rings[0].buf[rings[0].head] == contents[0]
  {
    assert RingFits(rings, 0, contents, zero);
    assert rings[0].Window()[0] == contents[0];
  }

  lemma SliceOfTail<T>(s: seq<T>, a: nat, b: nat)
    requires 1 <= a <= b <= |s|
    ensures s[1..][a - 1..b - 1] == s[a..b]
  {
  }

  lemma PackedPop<T>(rings: seq<Ring<T>>, contents: seq<T>, zero: T)
    requires Packed(rings, contents, zero) && |contents| > 0
    requires |rings| > 0 && RingFits(rings, 0, contents, zero) && rings[0].len > 1
    ensures Packed(rings[0 := rings[0].Pop(zero)], contents[1..], zero)
  {
    var rings' := rings[0 := rings[0].Pop(zero)];
    PopRemovesFirst(rings[0], zero);
    assert rings'[0].Window() == rings[0].Window()[1..] == contents[1..rings[0].len];
    SliceOfTail(contents, 1, rings[0].len);
    hide Ring.Window, Ring.ZeroOutside, Ring.Shaped;
    forall i | 0 < i < |rings'|
      ensures RingFits(rings', i, contents[1..], zero)
    {
      assert RingFits(rings, i, contents, zero);
      SliceOfTail(contents, Before(rings, i), Before(rings, i) + rings[i].len);
    }
  }

  lemma PackedDropFront<T>(rings: seq<Ring<T>>, contents: seq<T>, zero: T)
    requires Packed(rings, contents, zero) && |contents| > 0
    requires |rings| > 0 && rings[0].len == 1
    ensures Packed(rings[1..], contents[1..], zero)
  {
    var rings' := rings[1..];
    if |rings| > 1 { assert RingFits(rings, 1, contents, zero); }
    hide Ring.Window, Ring.ZeroOutside, Ring.Shaped;
    forall i | 0 <= i < |rings'|
      ensures RingFits(rings', i, contents[1..], zero)
    {
      assert RingFits(rings, i + 1, contents, zero);
      assert Before(rings', i) == Before(rings, i + 1) - 1;
      SliceOfTail(contents, Before(rings, i + 1), Before(rings, i + 1) + rings[i + 1].len);
    }
  }

  lemma LastRing<T>(rings: seq<Ring<T>>, contents: seq<T>, zero: T)
    requires Packed(rings, contents, zero) && |rings| > 0
    ensures RingFits(rings, |rings| - 1, contents, zero)
    ensures rings[|rings| - 1].Shaped() && |contents| > 0
  {
    FewRings(rings, contents, zero);
  }

  // ---------------------------------------------------------------------------------------
  // Where each element lives

  /** The ring and slot of the k-th element. */
  function Locate<T>(rings: seq<Ring<T>>, k: nat): (int, int)
    requires |rings| > 0
  {
    if k < rings[0].len then (0, (rings[0].head + k) % NODE_SIZE)
    else (1 + (k - rings[0].len) / NODE_SIZE, (k - rings[0].len) % NODE_SIZE)
  }

  lemma LocateFinds<T>(rings: seq<Ring<T>>, contents: seq<T>, zero: T, k: nat)
    requires Packed(rings, contents, zero) && k < |contents|
    ensures var (i, s) := Locate(rings, k);
            && 0 <= i < |rings|
            && rings[i].Shaped()
            && 0 <= s < NODE_SIZE
            && rings[i].buf[s] == contents[k]
            && rings[i].Rank(s) < rings[i].len
            && k == Before(rings, i) + rings[i].Rank(s)
  {
    var (i, s) := Locate(rings, k);
    LocateInRange(rings, contents, zero, k);
    assert RingFits(rings, i, contents, zero);
    var j := k - Before(rings, i);
    assert rings[i].Slot(j) == s;
    assert rings[i].Window()[j] == contents[k];
  }

  lemma LocateInRange<T>(rings: seq<Ring<T>>, contents: seq<T>, zero: T, k: nat)
    requires Packed(rings, contents, zero) && k < |contents|
    ensures 0 <= Locate(rings, k).0 < |rings|
    ensures 0 <= k - Before(rings, Locate(rings, k).0) < rings[Locate(rings, k).0].len
  {
    var last := |rings| - 1;
    assert RingFits(rings, 0, contents, zero);
    assert RingFits(rings, last, contents, zero);
    var i := Locate(rings, k).0;
    if i < last { assert RingFits(rings, i, contents, zero); }
  }

  /** Every occupied slot is the place of the element with the matching index. */
  lemma LocateOfRank<T>(rings: seq<Ring<T>>, contents: seq<T>, zero: T, i: nat, s: nat)
    requires Packed(rings, contents, zero) && i < |rings| && s < NODE_SIZE
    requires RingFits(rings, i, contents, zero) && rings[i].Rank(s) < rings[i].len
    ensures Before(rings, i) + rings[i].Rank(s) < |contents|
    ensures Locate(rings, Before(rings, i) + rings[i].Rank(s)) == (i, s)
  {
    var j := rings[i].Rank(s);
    assert rings[i].Slot(j) == s;
    if i > 0 {
      assert (NODE_SIZE * (i - 1) + j) / NODE_SIZE == i - 1;
    }
  }

  /** Different elements live in different places. */
  lemma LocateIsInjective<T>(rings: seq<Ring<T>>, contents: seq<T>, zero: T, k: nat, l: nat)
    requires Packed(rings, contents, zero) && k < l < |contents|
    ensures Locate(rings, k) != Locate(rings, l)
  {
    LocateFinds(rings, contents, zero, k);
    LocateFinds(rings, contents, zero, l);
  }

  /** What adding an element does to the chain: the last ring takes it, or a new ring does. */
  ghost predicate Pushed<T>(rings: seq<Ring<T>>, contents: seq<T>, t: T, zero: T, rings': seq<Ring<T>>) {
    if |rings| == 0 || rings[|rings| - 1].len == NODE_SIZE then
      rings' == rings + [Empty(zero).Push(t)]
    else
      && RingFits(rings, |rings| - 1, contents, zero)
      && rings' == rings[|rings| - 1 := rings[|rings| - 1].Push(t)]
  }

  lemma PackedAfterPush<T>(rings: seq<Ring<T>>, contents: seq<T>, t: T, zero: T, rings': seq<Ring<T>>)
    requires Packed(rings, contents, zero) && Pushed(rings, contents, t, zero, rings')
    ensures Packed(rings', contents + [t], zero)
  {
    if |rings| == 0 || rings[|rings| - 1].len == NODE_SIZE {
      PackedNewRing(rings, contents, t, zero);
    } else {
      PackedPush(rings, contents, t, zero);
    }
  }

  /** Adding an element at the end moves none of the others. */
  lemma LocateAfterPush<T>(rings: seq<Ring<T>>, contents: seq<T>, t: T, zero: T, rings': seq<Ring<T>>, k: nat)
    requires Packed(rings, contents, zero) && Pushed(rings, contents, t, zero, rings')
    requires k < |contents|
    ensures |rings| > 0 && Locate(rings', k) == Locate(rings, k)
  {
    FewRings(rings, contents, zero);
    LocateFinds(rings, contents, zero, k);
    if |rings| == 1 { assert RingFits(rings, 0, contents, zero); }
  }

  lemma LocateOfPushed<T>(rings: seq<Ring<T>>, contents: seq<T>, t: T, zero: T, rings': seq<Ring<T>>)
    requires Packed(rings, contents, zero) && Pushed(rings, contents, t, zero, rings')
    ensures |rings'| > 0
    ensures Locate(rings', |contents|).0 == |rings'| - 1
    ensures var last := rings'[|rings'| - 1];
            last.len > 0 && Locate(rings', |contents|).1 == (last.head + last.len - 1) % NODE_SIZE
  {
    if |rings| > 0 {
      var last := |rings| - 1;
      assert RingFits(rings, last, contents, zero);
      assert RingFits(rings, 0, contents, zero);
    }
  }

  /** Popping an element renumbers the others without moving them. */
  lemma LocateAfterPopWithin<T>(rings: seq<Ring<T>>, zero: T, k: nat)
    requires |rings| > 0 && rings[0].Shaped() && rings[0].len > 1
    ensures Locate(rings[0 := rings[0].Pop(zero)], k) == Locate(rings, k + 1)
  {
    assert ((rings[0].head + 1) % NODE_SIZE + k) % NODE_SIZE == (rings[0].head + (k + 1)) % NODE_SIZE;
  }

  lemma LocateAfterDropFront<T>(rings: seq<Ring<T>>, contents: seq<T>, zero: T, k: nat)
    requires Packed(rings, contents, zero) && k + 1 < |contents|
    requires |rings| > 0 && rings[0].len == 1
    ensures |rings| > 1
    ensures Locate(rings[1..], k) == (Locate(rings, k + 1).0 - 1, Locate(rings, k + 1).1)
  {
    LocateInRange(rings, contents, zero, k + 1);
    assert RingFits(rings, 1, contents, zero);
    assert rings[1].head == 0 && (|rings| > 2 ==> rings[1].len == NODE_SIZE);
    hide RingFits, Packed;
    assert Locate(rings, k + 1) == (1 + k / NODE_SIZE, k % NODE_SIZE);
    assert k < NODE_SIZE ==> k % NODE_SIZE == k && k / NODE_SIZE == 0;
    if k >= rings[1].len {
      assert rings[1].len == NODE_SIZE;
    }
  }

  /** The bound on the number of nodes of a queue. */
  lemma FewRings<T>(rings: seq<Ring<T>>, contents: seq<T>, zero: T)
    requires Packed(rings, contents, zero)
    ensures |contents| == 0 <==> |rings| == 0
    ensures |contents| == 1 ==> |rings| == 1
    ensures |contents| >= 2 ==> |rings| <= (|contents| - 2) / NODE_SIZE + 2
  {
    if |rings| > 0 {
      assert RingFits(rings, 0, contents, zero);
      assert RingFits(rings, |rings| - 1, contents, zero);
    }
  }
}
