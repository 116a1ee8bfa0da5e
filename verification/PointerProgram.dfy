/** A program that follows a pointer, as an example of one that is well typed: it opens a frame of 8
  * bytes, calls a subroutine that evaluates one expression and enqueues its result, and closes the
  * frame. If the pointer cannot be read, the subroutine returns early and leaves the frame empty. */
module PointerProgram {
  import opened Words
  import opened Wrappers
  import opened Worklist
  import opened Buffer
  import opened Machine
  import opened FramedRun
  import opened Containment
  import opened Accounting
  import opened ContextWalk
  import opened FrameTypes
  import opened TypedRuns
  import S = StackShape
  import opened D = Decoder

  const OPS: seq<Op> := [
    PrepareFrameData(1, 8, 2),        // 0
    Call(20),                         // 13
    ConcludeFrameData,                // 18
    Return,                           // 19
    PrepareExprEval,                  // 20
    DereferenceCFAOffset(16, 8, 0),   // 21
    DereferencePtr(24, 8),            // 34
    SaveExprResult(0, 8),             // 43
    EnqueuePointer(3),                // 52
    Return]                           // 57

  const STARTS: seq<nat> := [0, 13, 18, 19, 20, 21, 34, 43, 52, 57, 58]

  lemma Sizes()
    ensures forall op :: op in OPS ==> Encodable(op)
    ensures forall j :: 0 <= j < |OPS| ==> STARTS[j + 1] == STARTS[j] + |Encode(OPS[j])|
  {
    hide Encode;
    forall j | 0 <= j < |OPS| ensures STARTS[j + 1] == STARTS[j] + |Encode(OPS[j])| { SizeOfEncoding(OPS[j]); }
  }

  function Bytes(): (prog: Program)
    ensures |prog| == 58
  {
    Sizes();
    LastStart(OPS, STARTS);
    EncodeAll(OPS)
  }

  /** The program decodes to its instructions. */
  lemma Decodes(i: nat)
    requires i < |OPS|
    ensures Decode(Bytes(), STARTS[i]) == Some((OPS[i], STARTS[i + 1]))
  {
    hide Decode, Encode;
    Sizes();
    LaidOutAt([], OPS, STARTS, i);
    assert [] + EncodeAll(OPS) == Bytes();
  }

  /** The number of the instruction at a pc. */
  function Index(pc: nat): nat {
    if pc == 0 then 0 else if pc == 13 then 1 else if pc == 18 then 2 else if pc == 19 then 3 else if pc == 20 then 4
    else if pc == 21 then 5 else if pc == 34 then 6 else if pc == 43 then 7 else if pc == 52 then 8
    else if pc == 57 then 9 else 10
  }

  const FRAME := Idle(8, None)

  const MODES: seq<Typing> := [
    Typing(Ready, false), Typing(Idle(8, Some(0)), false), Typing(FRAME, false), Typing(Ready, false),
    Typing(FRAME, true), Typing(Open(8), true), Typing(Open(8), true), Typing(Open(8), true),
    Typing(FRAME, true), Typing(FRAME, true)]

  function Types(): Typings { map pc: nat | pc < 58 && Index(pc) < 10 :: MODES[Index(pc)] }

  /** No instruction finds data words of its subroutine on the stack. */
  function Shape(): S.Annotation { map pc: u32 | pc < 58 && Index(pc) < 10 :: 0 }

  /** The instructions are covered by their own typings. */
  lemma Covering(i: nat)
    requires i < 10
    ensures STARTS[i] in Types() && Types()[STARTS[i]] == MODES[i] && Covers(Types(), STARTS[i], MODES[i])
    ensures STARTS[i] in Shape() && Shape()[STARTS[i]] == 0
  {
    assert Index(STARTS[i]) == i;
  }

  lemma MainIsTyped(env: Env, i: nat)
    requires |env.prog| == 58 && i < 4
    ensures EdgesTyped(env, Types(), MODES[i], OPS[i], STARTS[i + 1])
    ensures S.EdgesAgree(env.prog, Shape(), 0, OPS[i], STARTS[i + 1])
  {
    hide TypesFit, Types, Shape, Index;
    if i == 0 {
      Covering(1);
    } else if i == 1 {
      Covering(4);
      Covering(2);
    } else if i == 2 {
      Covering(3);
    }
  }

  lemma SubroutineIsTyped(env: Env, i: nat)
    requires |env.prog| == 58 && 4 <= i < 10
    ensures EdgesTyped(env, Types(), MODES[i], OPS[i], STARTS[i + 1])
    ensures S.EdgesAgree(env.prog, Shape(), 0, OPS[i], STARTS[i + 1])
  {
    hide TypesFit, Types, Shape, Index;
    if i < 9 { Covering(i + 1); }
  }

  lemma IsWellTyped(env: Env)
    requires env.prog == Bytes()
    ensures WellTyped(env, Types()) && S.Closed(env.prog, Shape())
  {
    hide Bytes, Decode, EdgesTyped, S.EdgesAgree;
    forall pc | pc in Types() ensures TypedAt(env, Types(), pc) {
      var i := Index(pc);
      assert STARTS[i] == pc;
      Decodes(i);
      if i < 4 { MainIsTyped(env, i); } else { SubroutineIsTyped(env, i); }
    }
    forall pc | pc in Shape() ensures S.Annotated(env.prog, Shape(), pc) {
      var i := Index(pc);
      assert STARTS[i] == pc;
      Decodes(i);
      if i < 4 { MainIsTyped(env, i); } else { SubroutineIsTyped(env, i); }
    }
  }

  /** So a run of it is contained unless an entry is refused, and if it returns true the frame is
    * closed, whatever the memory. */
  lemma PointerProgramIsContained(env: Env, depth: u32, m: State, fuel: nat)
    requires env.prog == Bytes() && m.Ok() && m.pc == 0 && m.stack == [] && !m.buf.full
    ensures var l := NothingSince(m.buf.len);
            Contained(env, depth, m, l, false, fuel) <==> Unrefused(env, depth, m, fuel)
    ensures var l := NothingSince(m.buf.len);
            var r := Iterate(env, depth, m, fuel);
            Unrefused(env, depth, m, fuel) && r.Done? && r.ok ==>
              var (l', open') := FinalLayout(env, depth, m, l, false, fuel); Complete(l', open')
  {
    hide Decode, Bytes, WellTyped, S.Closed, S.Annotated, Iterate, FinalLayout, Contained, Unrefused, Complete, Section;
    IsWellTyped(env);
    NothingIsASection(m);
    TypedRunIsContained(m.buf.mem, env, depth, Shape(), Types(), m, NothingSince(m.buf.len), false, [], fuel);
  }
}
