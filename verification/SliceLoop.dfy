/** Loops over the elements of a slice.
  *
  * Such a loop pushes the number of elements, runs a body that moves the offset over one element,
  * decrements the number and jumps back while it is not zero. The jump does not pop the number. */
module SliceLoop {
  import opened Words
  import opened Bytes
  import opened Wrappers
  import opened Worklist
  import opened Buffer
  import opened Machine
  import opened Runs
  import opened D = Decoder

  /** Where the body starts, where it ends with the decrement, and the size of an element. */
  datatype Loop = Loop(start: u32, end: u32, size: u32) {
    function Exit(): nat { end + 6 }

    predicate In(prog: Program) {
      && start < |prog|
      && Exit() <= |prog|
      && Decode(prog, end) == Some((Decrement, end + 1))
      && Decode(prog, end + 1) == Some((CondJump(start), end + 6))
    }
  }

  /** The body, for the first n passes: from every state at its start in which ok holds for the pass,
    * it reaches its end after the given number of steps, with the stack as it was, the offset moved
    * over one element, and ok for the next pass. The condition ok is about anything but the pc and
    * the stack. */
  ghost predicate BodyRuns(env: Env, depth: u32, l: Loop, ok: (State, nat) -> bool, cost: State -> nat, n: nat) {
    && (forall m: State, pc: u32, stack: seq<u32>, k: nat :: ok(m, k) == ok(m.(pc := pc, stack := stack), k))
    && forall m: State, k: nat :: m.Ok() && m.pc == l.start && k < n && ok(m, k) ==>
                                    BodyEnds(env, depth, l, ok, m, k, cost(m))
  }

  ghost predicate BodyEnds(env: Env, depth: u32, l: Loop, ok: (State, nat) -> bool, m: State, k: nat, steps: nat)
    requires m.Ok()
  {
    var r := StateAfter(env, depth, m, steps);
    && r.Some? && ok(r.value, k + 1)
    && r.value.pc == l.end && r.value.stack == m.stack && r.value.offset == Wrap32(m.offset + l.size)
  }

  /** The state at the start of the k-th pass over the body, and the steps taken to get there. */
  ghost function Pass(env: Env, depth: u32, m: State, cost: State -> nat, k: nat): (r: (Option<State>, nat))
    requires m.Ok()
    ensures r.0.Some? ==> r.0.value.Ok()
    decreases k
  {
    if k == 0 then (Some(m), 0)
    else match Pass(env, depth, m, cost, k - 1)
      case (None, n) => (None, n)
      case (Some(p), n) => (StateAfter(env, depth, p, cost(p) + 2), n + cost(p) + 2)
  }

  lemma OneMoreStep(env: Env, depth: u32, m: State, k: nat, m1: State, m2: State)
    requires m.Ok() && StateAfter(env, depth, m, k) == Some(m1) && m1.Ok() && Step(env, depth, m1) == Next(m2)
    ensures StateAfter(env, depth, m, k + 1) == Some(m2)
  {
    hide Step;
  }

  lemma DecrementStep(env: Env, depth: u32, m: State, next: u32)
    requires m.Ok() && m.stack != [] && Decode(env.prog, m.pc) == Some((Decrement, next as nat))
    ensures Step(env, depth, m) == Next(ReplaceTop(m, Wrap32(Top(m) - 1)).(pc := next))
  {
    hide Decode;
  }

  lemma CondJumpStep(env: Env, depth: u32, m: State, next: u32, t: u32)
    requires m.Ok() && m.stack != [] && t < |env.prog|
    requires Decode(env.prog, m.pc) == Some((CondJump(t), next as nat))
    ensures Step(env, depth, m) == Next(m.(pc := if Top(m) != 0 then t else next))
  {
    hide Decode;
  }

  /** The decrement and the jump at the end of the body. */
  lemma LoopBack(env: Env, depth: u32, l: Loop, m: State, k: nat, b: State)
    requires l.In(env.prog) && m.Ok() && StateAfter(env, depth, m, k) == Some(b) && b.Ok()
    requires b.pc == l.end && b.stack != []
    ensures var left := Wrap32(Top(b) - 1);
            StateAfter(env, depth, m, k + 2)
              == Some(ReplaceTop(b, left).(pc := if left != 0 then l.start else l.Exit()))
  {
    hide Step, Decode, Wrap32, StateAfter;
    var d := ReplaceTop(b, Wrap32(Top(b) - 1)).(pc := l.end + 1);
    DecrementStep(env, depth, b, l.end + 1);
    OneMoreStep(env, depth, m, k, b, d);
    CondJumpStep(env, depth, d, l.end + 6, l.start);
    OneMoreStep(env, depth, m, k + 1, d, d.(pc := if Top(d) != 0 then l.start else l.Exit()));
  }

  /** One pass: the body, the decrement and the jump. */
  lemma OnePass(env: Env, depth: u32, l: Loop, ok: (State, nat) -> bool, cost: State -> nat, n: nat, m: State, k: nat)
    requires l.In(env.prog) && BodyRuns(env, depth, l, ok, cost, n)
    requires m.Ok() && m.pc == l.start && k < n && ok(m, k) && m.stack != []
    ensures var r := StateAfter(env, depth, m, cost(m) + 2);
            var left := Wrap32(Top(m) - 1);
            && r.Some? && ok(r.value, k + 1)
            && r.value.pc == (if left != 0 then l.start else l.Exit())
            && r.value.stack == ReplaceTop(m, left).stack
            && r.value.offset == Wrap32(m.offset + l.size)
  {
    hide Decode, Wrap32, StateAfter;
    assert BodyEnds(env, depth, l, ok, m, k, cost(m));
    var b := StateAfter(env, depth, m, cost(m)).value;
    LoopBack(env, depth, l, m, cost(m), b);
    var left := Wrap32(Top(m) - 1);
    assert ok(b.(pc := if left != 0 then l.start else l.Exit(), stack := ReplaceTop(b, left).stack), k + 1);
  }

  /** The number of passes a count on the stack stands for: a count of zero wraps around. */
  function Passes(count: u32): nat {
    if count == 0 then 0x1_0000_0000 else count
  }

  /** The state p is k elements further on than m, with k fewer elements left. */
  ghost predicate AtPass(l: Loop, ok: (State, nat) -> bool, m: State, k: nat, p: State)
    requires m.stack != []
  {
    && p.Ok() && ok(p, k)
    && p.pc == (if k < Passes(Top(m)) then l.start else l.Exit())
    && p.stack == ReplaceTop(m, Wrap32(Top(m) - k)).stack
    && p.offset == Wrap32(m.offset + k * l.size)
  }

  lemma NextPass(env: Env, depth: u32, l: Loop, ok: (State, nat) -> bool, cost: State -> nat, n: nat, m: State, k: nat,
                 p: State)
    requires l.In(env.prog) && BodyRuns(env, depth, l, ok, cost, n) && m.stack != []
    requires 0 < k <= n && k <= Passes(Top(m)) && AtPass(l, ok, m, k - 1, p)
    ensures var r := StateAfter(env, depth, p, cost(p) + 2); r.Some? && AtPass(l, ok, m, k, r.value)
  {
    hide StateAfter, Wrap32, BodyRuns, Decode;
    OnePass(env, depth, l, ok, cost, n, p, k - 1);
    var count := Top(m);
    assert Top(p) == Wrap32(count - (k - 1));
    WrapOnce(count - (k - 1), -1);
    OneElementOn(m.offset, k, l.size);
    WrapIsZero(count, k);
  }

  lemma OneElementOn(offset: u32, k: nat, size: u32)
    requires k > 0
    ensures Wrap32(Wrap32(offset + (k - 1) * size) + size) == Wrap32(offset + k * size)
  {
    WrapOnce(offset + (k - 1) * size, size);
    assert (k - 1) * size + size == k * size;
    hide Wrap32;
  }

  /** Each pass is a state of the run, and behind the last one the loop is left. */
  lemma {:induction false} PassesVisitElements(env: Env, depth: u32, l: Loop, ok: (State, nat) -> bool,
                                               cost: State -> nat, n: nat, m: State, k: nat)
    requires l.In(env.prog) && BodyRuns(env, depth, l, ok, cost, n)
    requires m.Ok() && m.pc == l.start && ok(m, 0) && m.stack != []
    requires k <= n && k <= Passes(Top(m))
    ensures var (r, steps) := Pass(env, depth, m, cost, k);
            && r.Some? && AtPass(l, ok, m, k, r.value)
            && r == StateAfter(env, depth, m, steps)
            && 2 * k <= steps
    decreases k
  {
    hide AtPass, BodyRuns, Step, StateAfter;
    StateZero(env, depth, m);
    if k == 0 {
      FirstPass(l, ok, m);
    } else {
      PassesVisitElements(env, depth, l, ok, cost, n, m, k - 1);
      var (r, steps) := Pass(env, depth, m, cost, k - 1);
      NextPass(env, depth, l, ok, cost, n, m, k, r.value);
      StatesCompose(env, depth, m, steps, r.value, cost(r.value) + 2);
    }
  }

  lemma FirstPass(l: Loop, ok: (State, nat) -> bool, m: State)
    requires m.Ok() && m.pc == l.start && ok(m, 0) && m.stack != []
    ensures AtPass(l, ok, m, 0, m)
  {
    WrapSmall(Top(m));
    WrapSmall(m.offset);
    hide Wrap32;
  }

  lemma WrapOnce(a: int, b: int)
    ensures Wrap32(Wrap32(a) + b) == Wrap32(a + b)
  {
  }

  lemma WrapIsZero(count: u32, k: nat)
    requires 0 < k <= Passes(count)
    ensures Wrap32(count - k) == 0 <==> k == Passes(count)
  {
  }

  /** A slice whose data is at the offset, of at least one element: the body runs exactly once for
    * each element, at the start of that element, and then the loop is left; the run goes on from
    * there with the fuel that remains. */
  lemma SliceIsTraversed(env: Env, depth: u32, l: Loop, ok: (State, nat) -> bool, cost: State -> nat, m: State,
                         n: u32, first: State, k: nat, fuel: nat)
    requires l.In(env.prog) && BodyRuns(env, depth, l, ok, cost, n)
    requires m.Ok() && ok(m, 0) && m.buf.EntryLenSafe(m.offset) && l.size > 0
    requires Decode(env.prog, m.pc) == Some((PushSliceLen(l.size), l.start as nat))
    requires n == Quotient(m.buf.EntryLen(m.offset), l.size) && n > 0
    requires first == Push(m, n).(pc := l.start)
    ensures StateAfter(env, depth, m, 1) == Some(first)
    ensures k <= n ==>
              var (r, steps) := Pass(env, depth, first, cost, k);
              && r.Some? && ok(r.value, k)
              && r == StateAfter(env, depth, m, 1 + steps)
              && r.value.pc == (if k < n then l.start else l.Exit())
              && r.value.stack == m.stack + [n - k]
              && r.value.offset == Wrap32(m.offset + k * l.size)
    ensures var (r, steps) := Pass(env, depth, first, cost, n);
            1 + steps <= fuel ==>
              r.Some? && Iterate(env, depth, m, fuel) == Iterate(env, depth, r.value, fuel - 1 - steps)
  {
    hide Decode, Buf.EntryLen, Step, StateAfter, Iterate, Pass, BodyRuns;
    PushLenStep(env, depth, m, l.size, l.start);
    StateZero(env, depth, m);
    OneMoreStep(env, depth, m, 0, m, first);
    assert ok(first, 0) by { OkIgnoresControl(env, depth, l, ok, cost, n, m, l.start, first.stack); }
    if k <= n {
      PassesVisitElements(env, depth, l, ok, cost, n, first, k);
      StatesCompose(env, depth, m, 1, first, Pass(env, depth, first, cost, k).1);
      WrapSmall(n - k);
    }
    PassesVisitElements(env, depth, l, ok, cost, n, first, n);
    var steps := Pass(env, depth, first, cost, n).1;
    StatesCompose(env, depth, m, 1, first, steps);
    if 1 + steps <= fuel { IterateSkips(env, depth, m, 1 + steps, fuel); }
  }

  lemma StateZero(env: Env, depth: u32, m: State)
    requires m.Ok()
    ensures StateAfter(env, depth, m, 0) == Some(m)
  {
  }

  lemma OkIgnoresControl(env: Env, depth: u32, l: Loop, ok: (State, nat) -> bool, cost: State -> nat, n: nat, m: State,
                         pc: u32, stack: seq<u32>)
    requires BodyRuns(env, depth, l, ok, cost, n)
    ensures ok(m, 0) == ok(m.(pc := pc, stack := stack), 0)
  {
  }

  lemma PushLenStep(env: Env, depth: u32, m: State, size: u32, next: u32)
    requires m.Ok() && m.buf.EntryLenSafe(m.offset) && size > 0
    requires Decode(env.prog, m.pc) == Some((PushSliceLen(size), next as nat))
    ensures Step(env, depth, m) == Next(Push(m, Quotient(m.buf.EntryLen(m.offset), size)).(pc := next))
  {
    hide Decode, Buf.EntryLen, Quotient;
  }

  /** For a slice with less than one element the count wraps around, so the loop is not left for as
    * many passes as the body can be run, up to 2^32 - 1: with less fuel than they take the run fails,
    * with more it goes on at the start of the body, far behind the slice. */
  lemma EmptySliceFails(env: Env, depth: u32, l: Loop, ok: (State, nat) -> bool, cost: State -> nat, n: nat, m: State,
                         fuel: nat)
    requires l.In(env.prog) && BodyRuns(env, depth, l, ok, cost, n) && n < 0x1_0000_0000
    requires m.Ok() && m.pc == l.start && ok(m, 0) && m.stack != [] && Top(m) == 0
    ensures var (r, steps) := Pass(env, depth, m, cost, n);
            && r.Some? && ok(r.value, n) && 2 * n <= steps
            && r.value.pc == l.start && r.value.offset == Wrap32(m.offset + n * l.size)
            && if fuel <= steps then
                 Iterate(env, depth, m, fuel).Done? && !Iterate(env, depth, m, fuel).ok
               else Iterate(env, depth, m, fuel) == Iterate(env, depth, r.value, fuel - steps)
  {
    hide Decode, Step, StateAfter, Pass, BodyRuns;
    PassesVisitElements(env, depth, l, ok, cost, n, m, n);
    var (r, steps) := Pass(env, depth, m, cost, n);
    if fuel <= steps {
      EarlierStates(env, depth, m, fuel, steps);
      IterateSkips(env, depth, m, fuel, fuel);
    } else {
      IterateSkips(env, depth, m, steps, fuel);
    }
  }

  lemma {:induction false} EarlierStates(env: Env, depth: u32, m: State, j: nat, k: nat)
    requires m.Ok() && j <= k && StateAfter(env, depth, m, k).Some?
    ensures StateAfter(env, depth, m, j).Some?
    decreases k
  {
    hide Step;
    if j < k { EarlierStates(env, depth, m, j, k - 1); }
  }

  ghost function Always(): (State, nat) -> bool { (p: State, k: nat) => true }

  function OneStep(): State -> nat { (p: State) => 1 }

  /** The simplest body, a single AdvanceOffset, can be run in every state and any number of times. */
  lemma AdvanceIsABody(env: Env, depth: u32, l: Loop, n: nat)
    requires Decode(env.prog, l.start) == Some((AdvanceOffset(l.size), l.end as nat))
    ensures BodyRuns(env, depth, l, Always(), OneStep(), n)
  {
    hide Decode;
    forall m: State, k: nat | m.Ok() && m.pc == l.start
      ensures BodyEnds(env, depth, l, Always(), m, k, 1)
    {
      AdvanceStep(env, depth, m, l.size, l.end);
      StateZero(env, depth, m);
      OneMoreStep(env, depth, m, 0, m, m.(pc := l.end, offset := Wrap32(m.offset + l.size)));
      hide Step, StateAfter;
    }
  }

  lemma AdvanceStep(env: Env, depth: u32, m: State, n: u32, next: u32)
    requires m.Ok() && Decode(env.prog, m.pc) == Some((AdvanceOffset(n), next as nat))
    ensures Step(env, depth, m) == Next(m.(pc := next, offset := Wrap32(m.offset + n)))
  {
    hide Decode;
  }

  // ---------------------------------------------------------------------------------------
  // A slice of pointers

  /** The words at off, one behind the other. */
  function Pointers(mem: seq<u8>, off: nat, k: nat): (ptrs: seq<u64>)
    requires off + 8 * k <= |mem|
    ensures |ptrs| == k
  {
    seq(k, i requires 0 <= i < k => Read64(mem, off + 8 * i))
  }

  /** Pushes pointers to objects of a type, in order. */
  function PushEach(w: Work, ptrs: seq<u64>, t: u32): Work
    decreases |ptrs|
  {
    if ptrs == [] then w
    else PushEach(w, ptrs[..|ptrs| - 1], t).Push(ptrs[|ptrs| - 1], t, 0)
  }

  /** Of the pointers, those that are not null, were not seen before, and did not occur before. */
  function NewOnes(seen: set<Key>, ptrs: seq<u64>, t: u32): seq<QueueEntry>
    decreases |ptrs|
  {
    if ptrs == [] then []
    else
      var p, before := ptrs[|ptrs| - 1], ptrs[..|ptrs| - 1];
      NewOnes(seen, before, t)
      + if p == 0 || Key(p, t) in seen || p in before then [] else [QueueEntry(t, 0, p)]
  }

  /** Pushing the pointers queues exactly the new ones, in their order. */
  lemma {:induction false} PushEachQueuesNew(w: Work, ptrs: seq<u64>, t: u32)
    ensures PushEach(w, ptrs, t).fifo == w.fifo + NewOnes(w.seen, ptrs, t)
    ensures PushEach(w, ptrs, t).popped == w.popped && PushEach(w, ptrs, t).recorded == w.recorded
    ensures forall k :: k in PushEach(w, ptrs, t).seen <==> k in w.seen || (k.typ == t && k.addr != 0 && k.addr in ptrs)
    decreases |ptrs|
  {
    if ptrs != [] {
      PushEachQueuesNew(w, ptrs[..|ptrs| - 1], t);
      assert ptrs == ptrs[..|ptrs| - 1] + [ptrs[|ptrs| - 1]];
    }
  }

  /** The state p at the start of element k of a slice of n pointers that starts where m is: its
    * buffer is untouched, and the pointers before element k were pushed. */
  ghost predicate AtPointer(m: State, t: u32, n: nat, p: State, k: nat) {
    && k <= n && m.offset + 8 * n <= |m.buf.mem|
    && p.buf == m.buf && p.offset == m.offset + 8 * k
    && p.work == PushEach(m.work, Pointers(m.buf.mem, m.offset, k), t)
  }

  ghost function PointersPushed(m: State, t: u32, n: nat): (State, nat) -> bool {
    (p: State, k: nat) => AtPointer(m, t, n, p, k)
  }

  function TwoSteps(): State -> nat { (p: State) => 2 }

  lemma PointerStep(env: Env, depth: u32, m: State, t: u32, next: u32)
    requires m.Ok() && t != 0 && Decode(env.prog, m.pc) == Some((EnqueuePointer(t), next as nat))
    ensures Step(env, depth, m) == if m.buf.InRange(m.offset, 8)
                                   then Next(Enqueue(m, Read64(m.buf.mem, m.offset), t, 0).(pc := next))
                                   else Crash(BufferFault)
  {
    hide Decode, Read64;
  }

  /** The body that enqueues a pointer and moves on to the next. */
  predicate PointerBody(env: Env, l: Loop, t: u32, mid: u32) {
    && l.size == 8 && t != 0
    && Decode(env.prog, l.start) == Some((EnqueuePointer(t), mid as nat))
    && Decode(env.prog, mid) == Some((AdvanceOffset(8), l.end as nat))
  }

  lemma PointersGrow(w: Work, mem: seq<u8>, off: nat, k: nat, t: u32)
    requires off + 8 * (k + 1) <= |mem|
    ensures PushEach(w, Pointers(mem, off, k + 1), t)
            == PushEach(w, Pointers(mem, off, k), t).Push(Read64(mem, off + 8 * k), t, 0)
  {
    hide Read64;
    assert Pointers(mem, off, k + 1)[..k] == Pointers(mem, off, k);
  }

  /** It is a body for every slice that lies inside the output. */
  lemma PointersAreABody(env: Env, depth: u32, l: Loop, t: u32, mid: u32, m: State, n: nat)
    requires PointerBody(env, l, t, mid) && m.Ok()
    ensures BodyRuns(env, depth, l, PointersPushed(m, t, n), TwoSteps(), n)
  {
    hide Decode, Step, StateAfter, Work.Push, Read64;
    var ok := PointersPushed(m, t, n);
    forall p: State, k: nat | p.Ok() && p.pc == l.start && k < n && ok(p, k)
      ensures BodyEnds(env, depth, l, ok, p, k, 2)
    {
      PointersGrow(m.work, m.buf.mem, m.offset, k, t);
      PointerStep(env, depth, p, t, mid);
      StateZero(env, depth, p);
      var p1 := Enqueue(p, Read64(p.buf.mem, p.offset), t, 0).(pc := mid);
      OneMoreStep(env, depth, p, 0, p, p1);
      AdvanceStep(env, depth, p1, 8, l.end);
      OneMoreStep(env, depth, p, 1, p1, p1.(pc := l.end, offset := Wrap32(p1.offset + 8)));
      WrapSmall(p.offset + 8);
      hide PushEach, Wrap32;
    }
  }

  /** A slice of n pointers inside the output, n at least 1: after the loop exactly its pointers have
    * been pushed, in order, and nothing was written. */
  lemma PointerSliceIsEnqueued(env: Env, depth: u32, l: Loop, t: u32, mid: u32, m: State, n: u32, fuel: nat)
    returns (after: State)
    requires l.In(env.prog) && PointerBody(env, l, t, mid)
    requires m.Ok() && m.buf.EntryLenSafe(m.offset)
    requires Decode(env.prog, m.pc) == Some((PushSliceLen(8), l.start as nat))
    requires n == Quotient(m.buf.EntryLen(m.offset), 8) && n > 0 && m.offset + 8 * n <= |m.buf.mem|
    ensures StateAfter(env, depth, m, 1 + 4 * n) == Some(after)
    ensures 1 + 4 * n <= fuel ==> Iterate(env, depth, m, fuel) == Iterate(env, depth, after, fuel - 1 - 4 * n)
    ensures after.pc == l.Exit() && after.stack == m.stack + [0] && after.offset == m.offset + 8 * n
    ensures after.buf == m.buf && after.work == PushEach(m.work, Pointers(m.buf.mem, m.offset, n), t)
    ensures after.work.fifo == m.work.fifo + NewOnes(m.work.seen, Pointers(m.buf.mem, m.offset, n), t)
  {
    hide Decode, StateAfter, BodyRuns, Pass, Buf.EntryLen, Iterate, Quotient, Read64, PushEach;
    var ok := PointersPushed(m, t, n);
    var first := Push(m, n).(pc := l.start);
    PointersAreABody(env, depth, l, t, mid, m, n);
    assert ok(m, 0) by { NothingPushed(m, t); }
    SliceIsTraversed(env, depth, l, ok, TwoSteps(), m, n, first, n, fuel);
    FourStepsEach(env, depth, first, n);
    var (r, passSteps) := Pass(env, depth, first, TwoSteps(), n);
    after := r.value;
    PushEachQueuesNew(m.work, Pointers(m.buf.mem, m.offset, n), t);
  }

  lemma {:induction false} FourStepsEach(env: Env, depth: u32, m: State, k: nat)
    requires m.Ok()
    ensures var (r, steps) := Pass(env, depth, m, TwoSteps(), k); r.Some? ==> steps == 4 * k
    decreases k
  {
    hide StateAfter;
    if k > 0 { FourStepsEach(env, depth, m, k - 1); }
  }

  lemma NothingPushed(m: State, t: u32)
    requires m.offset <= |m.buf.mem|
    ensures PushEach(m.work, Pointers(m.buf.mem, m.offset, 0), t) == m.work
  {
  }

  /** Over an empty slice the same loop runs on to the end of the backing array: the run fails or
    * faults, but never returns true. */
  lemma EmptyPointerSliceFails(env: Env, depth: u32, l: Loop, t: u32, mid: u32, m: State, fuel: nat)
    requires l.In(env.prog) && PointerBody(env, l, t, mid)
    requires m.Ok() && m.pc == l.start && m.stack != [] && Top(m) == 0
    ensures var r := Iterate(env, depth, m, fuel); r.Crash? || (r.Done? && !r.ok)
  {
    hide Decode, StateAfter, BodyRuns, Pass, Read64, PushEach, Step;
    if m.offset > |m.buf.mem| {
      PointerStep(env, depth, m, t, mid);
      return;
    }
    var n := (|m.buf.mem| - m.offset) / 8;
    var ok := PointersPushed(m, t, n);
    PointersAreABody(env, depth, l, t, mid, m, n);
    assert ok(m, 0) by { NothingPushed(m, t); }
    EmptySliceFails(env, depth, l, ok, TwoSteps(), n, m, fuel);
    var (r, steps) := Pass(env, depth, m, TwoSteps(), n);
    if fuel > steps {
      PointerStep(env, depth, r.value, t, mid);
      assert Step(env, depth, r.value) == Crash(BufferFault);
    }
  }
}
