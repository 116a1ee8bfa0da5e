/** Unwinding a stopped goroutine by its chain of frame pointers, on arm64. */
module Unwinding {
  import opened Words
  import opened Bytes
  import opened Buffer

  const MAX_FRAMES := 512
  /** A frame record in memory: the saved frame pointer, then the return address. */
  const CALL_FRAME := 16

  datatype Frame = Frame(pc: u64, fp: u64)

  function LoadFrame(mem: Memory, fp: u64): Frame
    requires Readable(mem, fp, CALL_FRAME)
  {
    var bytes := Fetch(mem, fp, CALL_FRAME);
    Frame(Read64(bytes, 8), Read64(bytes, 0))
  }

  /** Whether the record of the caller of a frame can be loaded. */
  predicate HasCaller(mem: Memory, f: Frame) {
    f.fp != 0 && Readable(mem, f.fp, CALL_FRAME)
  }

  /** The frames from f to the root, at most n. */
  function Chain(mem: Memory, f: Frame, n: nat): (c: seq<Frame>)
    requires n > 0
    ensures 1 <= |c| <= n
    decreases n
  {
    if n == 1 || !HasCaller(mem, f) then [f] else [f] + Chain(mem, LoadFrame(mem, f.fp), n - 1)
  }

  predicate IsCaller(mem: Memory, f: Frame, g: Frame) {
    HasCaller(mem, f) && g == LoadFrame(mem, f.fp)
  }

  lemma ChainStep(mem: Memory, f: Frame, n: nat)
    requires n > 0
    ensures n == 1 || !HasCaller(mem, f) ==> Chain(mem, f, n) == [f]
    ensures n > 1 && HasCaller(mem, f) ==> Chain(mem, f, n) == [f] + Chain(mem, LoadFrame(mem, f.fp), n - 1)
  {
    hide LoadFrame, Readable;
  }

  /** A list of at most n frames that starts at f, in which each frame is followed by its caller, and
    * which only ends when there is no caller or no more room. */
  ghost predicate IsChain(mem: Memory, f: Frame, n: nat, c: seq<Frame>) {
    && 1 <= |c| <= n
    && c[0] == f
    && (forall i, j :: 0 <= i && j == i + 1 < |c| ==> IsCaller(mem, c[i], c[j]))
    && (|c| == n || !HasCaller(mem, c[|c| - 1]))
  }

  /** The chain is the only such list. */
  lemma {:induction false} ChainIsUnique(mem: Memory, f: Frame, n: nat, c: seq<Frame>)
    requires n > 0
    ensures IsChain(mem, f, n, c) <==> c == Chain(mem, f, n)
    decreases n
  {
    hide LoadFrame, Readable;
    if c == [] || c[0] != f {
    } else if n == 1 || !HasCaller(mem, f) {
      assert |c| > 1 && IsChain(mem, f, n, c) ==> IsCaller(mem, c[0], c[1]);
      assert |c| == 1 ==> c == [f];
    } else {
      var g := LoadFrame(mem, f.fp);
      var rest := c[1..];
      assert IsCaller(mem, f, g);
      ChainIsUnique(mem, g, n - 1, rest);
      assert c == [f] + rest;
      if IsChain(mem, f, n, c) {
        assert |c| > 1 && IsCaller(mem, c[0], c[1]);
        hide Chain;
        assert IsChain(mem, g, n - 1, rest);
      }
      if rest == Chain(mem, g, n - 1) {
        hide Chain, IsCaller;
        forall i, j | 0 <= i && j == i + 1 < |c| ensures IsCaller(mem, c[i], c[j]) {
          if i > 0 { assert c[i] == rest[i - 1] && c[j] == rest[i]; }
        }
      }
    }
  }

  function Pcs(c: seq<Frame>, base: u64): (pcs: seq<u64>)
    ensures |pcs| == |c|
  {
    seq(|c|, i requires 0 <= i < |c| => Wrap64(c[i].pc - base))
  }

  function FramePointers(c: seq<Frame>): (fps: seq<u64>)
    ensures |fps| == |c|
  {
    seq(|c|, i requires 0 <= i < |c| => c[i].fp)
  }

  /** The frame base of each frame: 8 above the frame pointer of its caller; of the root frame, the
    * top of the stack. */
  function Adjusted(fps: seq<u64>, stackTop: u64): (cfas: seq<u64>)
    requires fps != []
    ensures |cfas| == |fps|
  {
    seq(|fps|, i requires 0 <= i < |fps| =>
      if i == |fps| - 1 then stackTop else Wrap64((fps[i + 1] as int) + 8))
  }

  datatype Stack = Stack(pcs: seq<u64>, cfas: seq<u64>)

  /** The program counters, leaf first and relative to the text section, and the frame bases. A
    * goroutine without a frame pointer has one frame, which is neither shifted nor adjusted. */
  function Unwind(mem: Memory, base: u64, pc: u64, fp: u64, stackTop: u64): (s: Stack)
    ensures 1 <= |s.pcs| == |s.cfas| <= MAX_FRAMES
  {
    if fp == 0 then Stack([pc], [0])
    else
      var c := Chain(mem, Frame(pc, fp), MAX_FRAMES);
      Stack(Pcs(c, base), Adjusted(FramePointers(c), stackTop))
  }

  /** What the frame bases of an unwound stack are, in terms of the memory they were read from: the
    * caller's record of a frame starts 8 below the frame's base. */
  lemma BasesFollowTheChain(mem: Memory, base: u64, pc: u64, fp: u64, stackTop: u64, i: nat)
    requires fp != 0
    requires i + 1 < |Unwind(mem, base, pc, fp, stackTop).cfas|
    ensures var c := Chain(mem, Frame(pc, fp), MAX_FRAMES);
            var s := Unwind(mem, base, pc, fp, stackTop);
            && HasCaller(mem, c[i])
            && s.cfas[i] == Wrap64(LoadFrame(mem, c[i].fp).fp + 8)
            && s.pcs[i + 1] == Wrap64(LoadFrame(mem, c[i].fp).pc - base)
            && s.pcs[0] == Wrap64(pc - base)
            && s.cfas[|s.cfas| - 1] == stackTop
  {
    hide LoadFrame, HasCaller, Chain, Wrap64;
    var c := Chain(mem, Frame(pc, fp), MAX_FRAMES);
    ChainIsUnique(mem, Frame(pc, fp), MAX_FRAMES, c);
    assert IsCaller(mem, c[i], c[i + 1]);
  }

  /** Reads ahead while it overwrites: element i is taken from element i + 1 before that changes. */
  method AdjustCFA(fps: array<u64>, n: nat, stackTop: u64)
    requires 0 < n <= fps.Length
    modifies fps
    ensures fps[..n] == Adjusted(old(fps[..n]), stackTop)
    ensures fps[n..] == old(fps[n..])
  {
    hide Wrap64;
    var i := 0;
    while i < n - 1
      invariant 0 <= i <= n - 1
      invariant forall k :: 0 <= k < i ==> fps[k] == Wrap64((old(fps[k + 1]) as int) + 8)
      invariant forall k :: i <= k < fps.Length ==> fps[k] == old(fps[k])
    {
      fps[i] := Wrap64((fps[i + 1] as int) + 8);
      i := i + 1;
    }
    fps[n - 1] := stackTop;
  }

  class Unwinder {
    const base: u64
    const pcBuf: array<u64>
    const fpBuf: array<u64>
    var numFrames: nat

    ghost predicate Valid() {
      pcBuf != fpBuf && pcBuf.Length == MAX_FRAMES && fpBuf.Length == MAX_FRAMES
    }

    constructor (base: u64)
      ensures Valid() && this.base == base && fresh(pcBuf) && fresh(fpBuf)
    {
      this.base := base;
      pcBuf := new u64[MAX_FRAMES](_ => 0);
      fpBuf := new u64[MAX_FRAMES](_ => 0);
      numFrames := 0;
    }

    /** Unwinds a goroutine into the two buffers of the unwinder. */
    method WalkStack(mem: Memory, pc: u64, fp: u64, stackTop: u64)
      requires Valid()
      modifies this, pcBuf, fpBuf
      ensures 1 <= numFrames <= MAX_FRAMES
      ensures Stack(pcBuf[..numFrames], fpBuf[..numFrames]) == Unwind(mem, base, pc, fp, stackTop)
    {
      pcBuf[0], fpBuf[0], numFrames := pc, fp, 1;
      if fp == 0 {
        return;
      }
      CollectFrames(mem, Frame(pc, fp));
      ShiftPcs(Chain(mem, Frame(pc, fp), MAX_FRAMES));
      AdjustCFA(fpBuf, numFrames, stackTop);
    }

    /** The buffers hold the frames c, and behind the last one there is room. */
    ghost predicate Holds(c: seq<Frame>)
      requires Valid()
      reads this, pcBuf, fpBuf
    {
      && |c| == numFrames <= MAX_FRAMES
      && forall i :: 0 <= i < |c| ==> pcBuf[i] == c[i].pc && fpBuf[i] == c[i].fp
    }

    method CollectFrames(mem: Memory, f: Frame)
      requires Valid() && Holds([f])
      modifies this, pcBuf, fpBuf
      ensures Holds(Chain(mem, f, MAX_FRAMES))
    {
      hide LoadFrame, Readable, Chain;
      ghost var done: seq<Frame> := [];
      ghost var last := f;
      assert [] + Chain(mem, f, MAX_FRAMES) == Chain(mem, f, MAX_FRAMES);
      var nextCallFrame := f.fp;
      while numFrames < MAX_FRAMES
        invariant 1 <= numFrames <= MAX_FRAMES && |done| + 1 == numFrames
        invariant Holds(done + [last]) && nextCallFrame == last.fp
        invariant done + Chain(mem, last, MAX_FRAMES - numFrames + 1) == Chain(mem, f, MAX_FRAMES)
      {
        ChainStep(mem, last, MAX_FRAMES - numFrames + 1);
        if nextCallFrame == 0 {
          break;
        }
        if !Readable(mem, nextCallFrame, CALL_FRAME) {
          break;
        }
        var frame := LoadFrame(mem, nextCallFrame);
        fpBuf[numFrames] := frame.fp;
        pcBuf[numFrames] := frame.pc;
        nextCallFrame := frame.fp;
        numFrames := numFrames + 1;
        ghost var rest := Chain(mem, frame, MAX_FRAMES - numFrames + 1);
        assert done + ([last] + rest) == (done + [last]) + rest;
        done, last := done + [last], frame;
      }
      ChainStep(mem, last, MAX_FRAMES - numFrames + 1);
    }

    method ShiftPcs(ghost c: seq<Frame>)
      requires Valid() && Holds(c)
      modifies pcBuf
      ensures pcBuf[..numFrames] == Pcs(c, base)
      ensures fpBuf[..numFrames] == FramePointers(c)
    {
      hide Wrap64;
      var i := 0;
      while i < numFrames
        invariant 0 <= i <= numFrames
        invariant forall k :: 0 <= k < i ==> pcBuf[k] == Wrap64(c[k].pc - base)
        invariant forall k :: i <= k < numFrames ==> pcBuf[k] == c[k].pc
        invariant fpBuf[..] == old(fpBuf[..])
      {
        pcBuf[i] := Wrap64(pcBuf[i] - base);
        i := i + 1;
      }
    }
  }
}
