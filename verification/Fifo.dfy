/** The allocation-efficient FIFO queue: a linked list of 128-slot ring nodes with a free list.
  *
  * The ring of a node is an array stored inside the node, so here it is a field of the node
  * that always holds a sequence of 128 elements.
  */
module Fifo {
  import opened Ring

  class QueueNode<T> {
    var buf: seq<T>
    var head: nat
    var len: nat
    var next: QueueNode?<T>

    ghost function Value(): Ring<T>
      reads this
    {
      Ring(buf, head, len)
    }

    /** A new node holds the zero value in every slot. */
    constructor (zero: T)
      ensures Value() == Empty(zero) && next == null
    {
      buf := seq(NODE_SIZE, _ => zero);
      head, len, next := 0, 0, null;
    }

    predicate IsFull()
      reads this
    {
      len == NODE_SIZE
    }

    /** Stores t after the last element and returns its slot. */
    method PushBack(t: T) returns (slot: nat)
      requires Value().Shaped() && !IsFull()
      modifies this`len, this`buf
      ensures Value() == old(Value()).Push(t)
      ensures slot < NODE_SIZE && slot == (head + old(len)) % NODE_SIZE
    {
      var i := (head + len) % NODE_SIZE;
      buf := buf[i := t];
      len := len + 1;
      slot := i;
    }

    /** Resets a drained node and links it in front of a free one. */
    method Recycle(free: QueueNode?<T>)
      modifies this`head, this`len, this`next
      ensures head == 0 && len == 0 && next == free
    {
      head := 0;
      len := 0;
      next := free;
    }

    method PeekFront() returns (t: T)
      requires Value().Shaped()
      ensures t == buf[head]
    {
      t := buf[head];
    }

    /** Removes the first element and zeroes its slot. */
    method PopFront(zero: T) returns (t: T)
      requires Value().Shaped() && len > 0
      modifies this`head, this`len, this`buf
      ensures Value() == old(Value()).Pop(zero)
      ensures t == old(buf[head])
    {
      t := buf[head];
      buf := buf[head := zero];
      head := (head + 1) % NODE_SIZE;
      len := len - 1;
    }
  }

  /** Where an element lives: a node and a slot of its ring. */
  datatype Location<T> = Location(node: QueueNode<T>, slot: int)

  class Queue<T> {
    const zero: T
    var len: nat
    var head: QueueNode?<T>
    var tail: QueueNode?<T>
    var freeHead: QueueNode?<T>

    /** The queued elements, front first. */
    ghost var Contents: seq<T>
    /** The nodes reachable from head, in order, and what they store. */
    ghost var chain: seq<QueueNode<T>>
    ghost var rings: seq<Ring<T>>
    /** The nodes reachable from freeHead, in order. */
    ghost var free: seq<QueueNode<T>>
    ghost var Repr: set<object>

    ghost predicate Linked()
      reads this, Repr
    {
      && this in Repr
      && |rings| == |chain|
      && (forall i :: 0 <= i < |chain| ==> chain[i] in Repr && chain[i].Value() == rings[i])
      && (forall i, j :: 0 <= i < j < |chain| ==> chain[i] != chain[j])
      && head == (if |chain| == 0 then null else chain[0])
      && (|chain| > 0 ==> tail == chain[|chain| - 1] && tail.next == null)
      && (forall i :: 0 <= i < |chain| - 1 ==> chain[i].next == chain[i + 1])
    }

    /** The free list: empty nodes with every slot zero, none of them in the chain. */
    ghost predicate Freed()
      reads this, Repr
    {
      && (forall i :: 0 <= i < |free| ==>
            free[i] in Repr && free[i].Value() == Empty(zero) && free[i] !in chain)
      && (forall i, j :: 0 <= i < j < |free| ==> free[i] != free[j])
      && freeHead == (if |free| == 0 then null else free[0])
      && (|free| > 0 ==> free[|free| - 1].next == null)
      && (forall i :: 0 <= i < |free| - 1 ==> free[i].next == free[i + 1])
    }

    ghost predicate Valid()
      reads this, Repr
      ensures Valid() ==> this in Repr
    {
      && Linked()
      && Freed()
      && Packed(rings, Contents, zero)
      && len == |Contents|
    }

    /** Where the k-th element from the front is stored. */
    ghost function Loc(k: nat): (l: Location<T>)
      requires Valid() && k < len
      reads this, Repr
      ensures l.node in chain && 0 <= l.slot < |l.node.buf| && l.node.buf[l.slot] == Contents[k]
    {
      FewRings(rings, Contents, zero);
      LocateFinds(rings, Contents, zero, k);
      Location(chain[Locate(rings, k).0], Locate(rings, k).1)
    }

    /** No two queued elements share a place. */
    lemma PlacesAreDistinct(j: nat, k: nat)
      requires Valid() && j < k < len
      ensures Loc(j) != Loc(k)
    {
      FewRings(rings, Contents, zero);
      LocateFinds(rings, Contents, zero, j);
      LocateFinds(rings, Contents, zero, k);
      LocateIsInjective(rings, Contents, zero, j, k);
    }

    /** The number of nodes is bounded by the number of elements. */
    lemma NodesAreFew()
      requires Valid()
      ensures len >= 2 ==> |chain| <= (len - 2) / NODE_SIZE + 2
      ensures len == 1 ==> |chain| == 1
      ensures len == 0 ==> chain == []
    {
      FewRings(rings, Contents, zero);
    }

    /** A slot of the queue that holds no queued element is zero, and no free node is in use. */
    lemma UnusedSlotsAreZero(n: QueueNode<T>, s: nat)
      requires Valid() && s < NODE_SIZE
      ensures n in free ==> n !in chain && |n.buf| == NODE_SIZE && n.buf[s] == zero
      ensures n in chain ==> |n.buf| == NODE_SIZE && n.len > 0
      ensures n in chain && n.buf[s] != zero ==> exists k :: 0 <= k < len && Loc(k) == Location(n, s)
    {
      if n in chain {
        var i :| 0 <= i < |chain| && chain[i] == n;
        assert RingFits(rings, i, Contents, zero);
        hide Packed;
        if n.buf[s] != zero {
          var k := Before(rings, i) + rings[i].Rank(s);
          LocateOfRank(rings, Contents, zero, i, s);
          assert Loc(k) == Location(n, s);
        }
      }
    }

    constructor (zero: T)
      ensures Valid() && fresh(Repr)
      ensures Contents == [] && this.zero == zero
    {
      this.zero := zero;
      len, head, tail, freeHead := 0, null, null, null;
      Contents, chain, rings, free := [], [], [], [];
      Repr := {this};
    }

    method Len() returns (n: nat)
      requires Valid()
      ensures n == |Contents|
    {
      n := len;
    }

    /** Takes a node from the free list, or makes a new one. The link of the node is cleared
      * before it is read, so every other free node is dropped. */
    method GetNode() returns (n: QueueNode<T>)
      requires Valid()
      modifies this`freeHead, this`free, this`Repr, free
      ensures Valid() && fresh(Repr - old(Repr)) && old(Repr) <= Repr
      ensures free == []
      ensures n !in chain && n in Repr
      ensures n in old(free) || fresh(n)
      ensures n.Value() == Empty(zero) && n.next == null
    {
      if freeHead == null {
        n := new QueueNode<T>(zero);
        Repr := Repr + {n};
      } else {
        n := freeHead;
        n.next := null;
        freeHead := n.next;
        free := [];
      }
    }

    /** Clears a node that left the chain and puts it at the front of the free list. */
    method PutNode(n: QueueNode<T>)
      requires Valid()
      requires n in Repr && n !in chain && n !in free
      requires n.Value().Shaped() && n.len == 0 && n.Value().ZeroOutside(zero)
      modifies this`freeHead, this`free, n
      ensures Valid()
      ensures free == [n] + old(free)
    {
      EmptyIsClear(n.Value(), zero);
      hide Packed, Ring.Shaped, Ring.ZeroOutside;
      n.Recycle(freeHead);
      assert Linked();
      freeHead := n;
      free := [n] + free;
    }

    /** Adds t at the end. The location returned is where t stays, alone, until it is popped: no
      * operation moves an element that remains queued. */
    method PushBack(t: T) returns (ghost at: Location<T>)
      requires Valid()
      modifies Repr
      ensures Valid() && fresh(Repr - old(Repr))
      ensures Contents == old(Contents) + [t]
      ensures at == Loc(|old(Contents)|)
      ensures forall k :: 0 <= k < |old(Contents)| ==> Loc(k) == old(Loc(k))
    {
      ghost var oldRings, oldContents := rings, Contents;
      at := Append(t);
      LocateOfPushed(oldRings, oldContents, t, zero, rings);
      forall k | 0 <= k < |oldContents|
        ensures Loc(k) == old(Loc(k))
      {
        LocateAfterPush(oldRings, oldContents, t, zero, rings, k);
      }
    }

    method Append(t: T) returns (ghost at: Location<T>)
      requires Valid()
      modifies Repr
      ensures Valid() && fresh(Repr - old(Repr))
      ensures Contents == old(Contents) + [t]
      ensures Pushed(old(rings), old(Contents), t, zero, rings)
      ensures old(chain) <= chain && |chain| > 0
      ensures var last := rings[|rings| - 1];
              last.len > 0 && at == Location(chain[|chain| - 1], (last.head + last.len - 1) % NODE_SIZE)
    {
      hide Packed, RingFits;
      ghost var oldRings, oldContents := rings, Contents;
      MakeRoom();
      at := StoreAtTail(t);
      assert |chain| > |oldRings| ==> rings == oldRings + [Empty(zero).Push(t)];
      assert Pushed(oldRings, oldContents, t, zero, rings);
      PackedAfterPush(oldRings, oldContents, t, zero, rings);
    }

    /** Links a new tail if there is no node yet or the tail is full. */
    method MakeRoom()
      requires Valid()
      modifies Repr
      ensures Linked() && Freed() && len == |Contents|
      ensures fresh(Repr - old(Repr))
      ensures Contents == old(Contents)
      ensures if |old(chain)| == 0 || old(rings)[|old(chain)| - 1].len == NODE_SIZE then
                old(chain) <= chain && rings == old(rings) + [Empty(zero)]
              else
                && chain == old(chain) && rings == old(rings)
                && RingFits(rings, |rings| - 1, Contents, zero)
                && rings[|rings| - 1].Shaped()
    {
      hide Packed, RingFits;
      if |chain| > 0 { LastRing(rings, Contents, zero); }
      if head == null {
        var n := GetNode();
        LinkTail(n);
      } else if tail.IsFull() {
        var newTail := GetNode();
        LinkTail(newTail);
      }
    }

    /** Makes a cleared node the last of the chain. */
    method LinkTail(n: QueueNode<T>)
      requires Linked() && Freed() && len == |Contents|
      requires n in Repr && n !in chain && n !in free && n.Value() == Empty(zero) && n.next == null
      modifies this`head, this`tail, this`chain, this`rings, chain
      ensures Linked() && Freed() && len == |Contents|
      ensures chain == old(chain) + [n] && rings == old(rings) + [Empty(zero)]
    {
      if head == null {
        head := n;
      } else {
        tail.next := n;
      }
      tail := n;
      chain, rings := chain + [n], rings + [Empty(zero)];
    }

    /** Stores t in the last node of the chain, which has room. */
    method StoreAtTail(t: T) returns (ghost at: Location<T>)
      requires Linked() && Freed() && len == |Contents|
      requires |chain| > 0 && rings[|chain| - 1].Shaped() && rings[|chain| - 1].len < NODE_SIZE
      modifies this`len, this`Contents, this`rings, tail
      ensures Linked() && Freed() && len == |Contents|
      ensures Contents == old(Contents) + [t]
      ensures rings == old(rings)[|chain| - 1 := old(rings)[|chain| - 1].Push(t)]
      ensures var last := rings[|rings| - 1];
              last.len > 0 && at == Location(chain[|chain| - 1], (last.head + last.len - 1) % NODE_SIZE)
    {
      len := len + 1;
      var slot := tail.PushBack(t);
      at := Location(tail, slot);
      rings := rings[|chain| - 1 := rings[|chain| - 1].Push(t)];
      Contents := Contents + [t];
    }

    /** The front element, or none if the queue is empty. */
    method PeekFront() returns (found: bool, t: T)
      requires Valid()
      ensures found == (Contents != [])
      ensures found ==> t == Contents[0]
      ensures found ==> t == Loc(0).node.buf[Loc(0).slot]
    {
      if len == 0 {
        return false, zero;
      }
      FewRings(rings, Contents, zero);
      FrontRing(rings, Contents, zero);
      t := head.PeekFront();
      found := true;
    }

    /** Removes the front element; the others keep their places. */
    method PopFront()
      requires Valid() && Contents != []
      modifies Repr
      ensures Valid() && fresh(Repr - old(Repr))
      ensures Contents == old(Contents)[1..]
      ensures forall k :: 0 <= k < |Contents| ==> Loc(k) == old(Loc(k + 1))
    {
      ghost var oldRings, oldContents, oldChain := rings, Contents, chain;
      FrontRing(rings, Contents, zero);
      RemoveFront();
      forall k | 0 <= k < |Contents|
        ensures Loc(k) == old(Loc(k + 1))
      {
        if oldRings[0].len == 1 {
          LocateAfterDropFront(oldRings, oldContents, zero, k);
        } else {
          LocateAfterPopWithin(oldRings, zero, k);
        }
        LocateInRange(oldRings, oldContents, zero, k + 1);
        hide Packed, RingFits, Locate;
        var (i, s) := Locate(oldRings, k + 1);
        assert old(Loc(k + 1)) == Location(oldChain[i], s);
        assert Loc(k) == Location(oldChain[i], s);
      }
    }

    method RemoveFront()
      requires Valid() && Contents != [] && |rings| > 0 && rings[0].Shaped() && rings[0].len > 0
      modifies Repr
      ensures Valid() && fresh(Repr - old(Repr))
      ensures Contents == old(Contents)[1..]
      ensures if old(rings[0].len) == 1 then
                chain == old(chain)[1..] && rings == old(rings)[1..]
              else
                chain == old(chain) && rings == old(rings)[0 := old(rings)[0].Pop(zero)]
    {
      hide Packed, RingFits;
      FrontRing(rings, Contents, zero);
      PopRemovesFirst(rings[0], zero);
      if rings[0].len == 1 {
        PackedDropFront(rings, Contents, zero);
      } else {
        PackedPop(rings, Contents, zero);
      }
      PopHead();
      if head.len == 0 {
        assert rings[1..] == old(rings)[1..];
        ReleaseHead();
      }
    }

    /** Removes the first element of the head node, which may become empty. */
    method PopHead()
      requires Linked() && Freed() && len == |Contents|
      requires |chain| > 0 && Contents != [] && rings[0].Shaped() && rings[0].len > 0
      modifies this`len, this`Contents, this`rings, chain[0]
      ensures Linked() && Freed() && len == |Contents|
      ensures Contents == old(Contents)[1..]
      ensures rings == old(rings)[0 := old(rings)[0].Pop(zero)]
    {
      var t := head.PopFront(zero);
      rings := rings[0 := rings[0].Pop(zero)];
      Contents := Contents[1..];
      len := len - 1;
    }

    /** Takes the emptied head node out of the chain and frees it. */
    method ReleaseHead()
      requires Linked() && Freed() && |chain| > 0
      requires rings[0].Shaped() && rings[0].len == 0 && rings[0].ZeroOutside(zero)
      requires Packed(rings[1..], Contents, zero) && len == |Contents|
      modifies this`head, this`chain, this`rings, this`freeHead, this`free, chain[0]
      ensures Valid()
      ensures chain == old(chain)[1..] && rings == old(rings)[1..]
    {
      hide Packed;
      var oldHead := head;
      head := oldHead.next;
      chain, rings := chain[1..], rings[1..];
      PutNode(oldHead);
    }
  }
}
