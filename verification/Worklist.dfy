/** The deduplicating worklist: a set of keys already seen in front of a FIFO queue. */
module Worklist {
  import opened Words
  import Fifo

  /** The header of an object in the output, and the element of the worklist. */
  datatype QueueEntry = QueueEntry(typ: u32, len: u32, addr: u64)

  datatype Key = Key(addr: u64, typ: u32)

  function KeyOf(e: QueueEntry): Key { Key(e.addr, e.typ) }

  /** The state of the worklist, with the history of what left it. The recorded keys are those
    * marked as seen without being queued. */
  datatype Work = Work(seen: set<Key>, fifo: seq<QueueEntry>, popped: seq<QueueEntry>, recorded: seq<Key>) {
    /** Every entry ever queued, in the order of its first push. */
    function History(): seq<QueueEntry> { popped + fifo }

    /** Marks a key as seen; false for the null address and for keys already seen. */
    function ShouldRecord(addr: u64, typ: u32): (Work, bool) {
      if addr == 0 || Key(addr, typ) in seen then (this, false)
      else (this.(seen := seen + {Key(addr, typ)}, recorded := recorded + [Key(addr, typ)]), true)
    }

    function Push(addr: u64, typ: u32, dataLen: u32): Work {
      if addr == 0 || Key(addr, typ) in seen then this
      else this.(seen := seen + {Key(addr, typ)}, fifo := fifo + [QueueEntry(typ, dataLen, addr)])
    }

    function Pop(): (Work, QueueEntry)
      requires fifo != []
    {
      (this.(fifo := fifo[1..], popped := popped + [fifo[0]]), fifo[0])
    }

    ghost predicate Distinct() {
      && (forall i, j :: 0 <= i < j < |History()| ==> KeyOf(History()[i]) != KeyOf(History()[j]))
      && (forall i, j :: 0 <= i < j < |recorded| ==> recorded[i] != recorded[j])
      && (forall i, j :: 0 <= i < |History()| && 0 <= j < |recorded| ==>
            KeyOf(History()[i]) != recorded[j])
    }

    /** The keys seen are exactly those queued at some time and those recorded, each once. */
    ghost predicate Inv() {
      && Distinct()
      && (forall k :: k in seen <==>
            (exists i :: 0 <= i < |History()| && KeyOf(History()[i]) == k) || k in recorded)
      && (forall k :: k in seen ==> k.addr != 0)
    }
  }

  const EMPTY_WORK := Work({}, [], [], [])

  lemma PushKeepsInv(w: Work, addr: u64, typ: u32, dataLen: u32)
    requires w.Inv()
    ensures w.Push(addr, typ, dataLen).Inv()
    ensures w.History() <= w.Push(addr, typ, dataLen).History()
  {
    var w' := w.Push(addr, typ, dataLen);
    if w' != w {
      var e := QueueEntry(typ, dataLen, addr);
      assert w'.History() == w.History() + [e];
      forall i | 0 <= i < |w.History()| ensures KeyOf(w.History()[i]) != KeyOf(e) {
        assert KeyOf(w.History()[i]) in w.seen;
      }
      forall k | k in w'.seen
        ensures (exists i :: 0 <= i < |w'.History()| && KeyOf(w'.History()[i]) == k) || k in w'.recorded
      {
        if k == KeyOf(e) {
          assert KeyOf(w'.History()[|w.History()|]) == k;
        } else if k !in w.recorded {
          var i :| 0 <= i < |w.History()| && KeyOf(w.History()[i]) == k;
          assert KeyOf(w'.History()[i]) == k;
        }
      }
    }
  }

  lemma RecordKeepsInv(w: Work, addr: u64, typ: u32)
    requires w.Inv()
    ensures w.ShouldRecord(addr, typ).0.Inv()
    ensures w.History() == w.ShouldRecord(addr, typ).0.History()
  {
    var w' := w.ShouldRecord(addr, typ).0;
    assert w'.History() == w.History();
    var k := Key(addr, typ);
    assert w' != w ==> w'.recorded[|w.recorded|] == k;
    assert forall i :: 0 <= i < |w.History()| ==> KeyOf(w.History()[i]) in w.seen;
  }

  lemma PopKeepsInv(w: Work)
    requires w.Inv() && w.fifo != []
    ensures w.Pop().0.Inv()
    ensures w.Pop().0.History() == w.History()
  {
    assert w.Pop().0.History() == w.History();
  }

  // ---------------------------------------------------------------------------------------
  // Counting: there are finitely many keys

  const KEYS := 0x1_0000_0000_0000_0000 * 0x1_0000_0000

  lemma {:induction false} DistinctSize<T>(s: seq<T>, all: set<T>)
    requires forall i, j :: 0 <= i < j < |s| ==> s[i] != s[j]
    requires forall x :: x in all <==> x in s
    ensures |all| == |s|
    decreases |s|
  {
    if s == [] {
      assert all == {};
    } else {
      var n := |s| - 1;
      forall x ensures x in all - {s[n]} <==> x in s[..n] {
        if x in s[..n] { var i :| 0 <= i < n && s[i] == x; }
      }
      DistinctSize(s[..n], all - {s[n]});
      assert |all| == |all - {s[n]}| + 1;
    }
  }

  /** The number of keys seen is the number of entries popped, queued or recorded. */
  lemma SeenIsCounted(w: Work)
    requires w.Inv()
    ensures |w.seen| == |w.popped| + |w.fifo| + |w.recorded|
  {
    var h := w.History();
    var keys := seq(|h|, i requires 0 <= i < |h| => KeyOf(h[i]));
    var s := keys + w.recorded;
    forall k ensures k in w.seen <==> k in s {
      if k in w.seen && k !in w.recorded {
        var i :| 0 <= i < |h| && KeyOf(h[i]) == k;
        assert keys[i] == k;
      }
    }
    DistinctSize(s, w.seen);
  }

  function Rank(k: Key): nat { k.addr * 0x1_0000_0000 + k.typ }

  lemma {:induction false} BoundedSize(keys: set<Key>, bound: nat)
    requires forall k :: k in keys ==> Rank(k) < bound
    ensures |keys| <= bound
    decreases bound
  {
    if bound == 0 {
      assert keys == {};
    } else {
      var top := set k | k in keys && Rank(k) == bound - 1;
      forall k, l | k in top && l in top ensures k == l {
        assert Rank(k) == Rank(l);
      }
      assert |top| <= 1 by {
        if top != {} {
          var k :| k in top;
          assert top == {k};
        }
      }
      BoundedSize(keys - top, bound - 1);
      assert keys == (keys - top) + top;
    }
  }

  lemma SeenIsBounded(seen: set<Key>)
    ensures |seen| <= KEYS
  {
    forall k | k in seen ensures Rank(k) < KEYS {
      assert k.addr <= 0xffff_ffff_ffff_ffff && k.typ <= 0xffff_ffff;
    }
    BoundedSize(seen, KEYS);
  }

  /** What any number of pushes and records can do to a worklist. */
  ghost predicate Grows(w: Work, w': Work) {
    && w'.Inv()
    && w'.popped == w.popped
    && w.fifo <= w'.fifo
    && w.recorded <= w'.recorded
  }

  lemma PushGrows(w: Work, addr: u64, typ: u32, dataLen: u32)
    requires w.Inv()
    ensures Grows(w, w.Push(addr, typ, dataLen))
  {
    PushKeepsInv(w, addr, typ, dataLen);
  }

  lemma RecordGrows(w: Work, addr: u64, typ: u32)
    requires w.Inv()
    ensures Grows(w, w.ShouldRecord(addr, typ).0)
  {
    RecordKeepsInv(w, addr, typ);
  }

  /** The number of keys not yet seen; with the length of the queue it measures progress. */
  ghost function Unseen(w: Work): nat {
    SeenIsBounded(w.seen);
    KEYS - |w.seen|
  }

  /** Popping an entry and then growing the worklist always makes progress. */
  lemma PopThenGrowDecreases(w: Work, w': Work)
    requires w.Inv() && w.fifo != [] && Grows(w.Pop().0, w')
    ensures Unseen(w') < Unseen(w) || (Unseen(w') == Unseen(w) && |w'.fifo| < |w.fifo|)
  {
    PopKeepsInv(w);
    SeenIsCounted(w);
    SeenIsCounted(w');
  }

  // ---------------------------------------------------------------------------------------

  /** The worklist of the program. */
  class Queue {
    var seen: set<Key>
    var q: Fifo.Queue<QueueEntry>
    ghost var popped: seq<QueueEntry>
    ghost var recorded: seq<Key>
    ghost var Repr: set<object>

    ghost function State(): Work
      reads this, q
    {
      Work(seen, q.Contents, popped, recorded)
    }

    ghost predicate Valid()
      reads this, Repr
      ensures Valid() ==> this in Repr
    {
      this in Repr && q in Repr && q.Repr <= Repr && this !in q.Repr && q.Valid()
    }

    constructor ()
      ensures Valid() && fresh(Repr) && State() == EMPTY_WORK
    {
      seen, popped, recorded := {}, [], [];
      q := new Fifo.Queue<QueueEntry>(QueueEntry(0, 0, 0));
      new;
      Repr := {this} + q.Repr;
    }

    method Len() returns (n: nat)
      requires Valid()
      ensures n == |State().fifo|
    {
      n := q.Len();
    }

    method Pop() returns (r: QueueEntry, ok: bool)
      requires Valid()
      modifies Repr
      ensures Valid() && fresh(Repr - old(Repr))
      ensures ok == (old(State()).fifo != [])
      ensures ok ==> (State(), r) == old(State()).Pop()
      ensures !ok ==> State() == old(State())
    {
      var n := Len();
      if n == 0 {
        return QueueEntry(0, 0, 0), false;
      }
      var found;
      found, r := q.PeekFront();
      q.PopFront();
      popped := popped + [r];
      Repr := Repr + q.Repr;
      ok := true;
    }

    method ShouldRecord(addr: u64, typ: u32) returns (ok: bool)
      requires Valid()
      modifies this`seen, this`recorded
      ensures Valid()
      ensures (State(), ok) == old(State()).ShouldRecord(addr, typ)
    {
      if addr == 0 {
        return false;
      }
      if Key(addr, typ) in seen {
        return false;
      }
      seen := seen + {Key(addr, typ)};
      recorded := recorded + [Key(addr, typ)];
      ok := true;
    }

    method Push(addr: u64, typ: u32, dataLen: u32)
      requires Valid()
      modifies Repr
      ensures Valid() && fresh(Repr - old(Repr))
      ensures State() == old(State()).Push(addr, typ, dataLen)
    {
      ghost var before := recorded;
      var ok := ShouldRecord(addr, typ);
      if ok {
        // The key belongs to a queued entry, so it does not count as recorded.
        recorded := before;
        Append(QueueEntry(typ, dataLen, addr));
      }
    }

    method Append(e: QueueEntry)
      requires Valid()
      modifies Repr
      ensures Valid() && fresh(Repr - old(Repr))
      ensures State() == old(State()).(fifo := old(State()).fifo + [e])
    {
      ghost var at := q.PushBack(e);
      Repr := Repr + q.Repr;
    }
  }
}
