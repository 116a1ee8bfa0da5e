/** The instruction set of the stack machine and its byte encoding. */
module Decoder {
  import opened Words
  import opened Bytes
  import opened Wrappers

  datatype Op =
    | Invalid
    | Call(pc: u32)
    | CondJump(pc: u32)
    | Decrement
    | EnqueueEmptyInterface
    | EnqueueInterface
    | EnqueuePointer(elemType: u32)
    | EnqueueSliceHeader(arrayType: u32, elemByteLen: u32)
    | EnqueueStringHeader(stringDataType: u32)
    | EnqueueHMapHeader(bucketsArrayType: u32, bucketByteLen: u32, flagsOffset: u8, bOffset: u8,
                        bucketsOffset: u8, oldBucketsOffset: u8)
    | Jump(pc: u32)
    | Pop
    | PushImm(value: u32)
    | PushOffset
    | PushSliceLen(elemByteLen: u32)
    | Return
    | SetOffset
    | AdvanceOffset(increment: u32)
    | DereferenceCFAOffset(offset: u32, byteLen: u32, pointerBias: u32)
    | CopyFromRegister(register: u32, byteSize: u8)
    | ZeroFill(byteLen: u32)
    | PrepareFrameData(progID: u32, dataByteLen: u32, typeID: u32)
    | Illegal
    | ConcludeFrameData
    | PrepareGoContext(dataByteLen: u32, typeID: u32, captureCount: u8)
    | SetPresenceBit(bitOffset: u32)
    | EnqueueSwissMap(tablePtrSliceType: u32, groupType: u32, dirPtrOffset: u8, dirLenOffset: u8)
    | EnqueueSwissMapGroups(groupSliceType: u32, groupByteLen: u32, dataOffset: u8, lengthMaskOffset: u8)
    | EnqueueSubroutine
    | SaveExprResult(resultOffset: u32, byteLen: u32)
    | DereferencePtr(bias: u32, byteLen: u32)
    | PrepareExprEval
    | PreparePointeeData
    | Nothing(code: u8)   // every other opcode does nothing

  /** Opcodes the machine gives a meaning; all others are skipped. */
  predicate Meaningful(code: u8) {
    code <= 17 || 19 <= code <= 23 || code == 25 || code == 27 || 30 <= code <= 37
  }

  /** The number of operand bytes after an opcode. */
  function OperandSize(code: u8): nat {
    match code
    case 1 => 4 case 2 => 4 case 6 => 4 case 7 => 8 case 8 => 4 case 9 => 12
    case 10 => 4 case 12 => 4 case 14 => 4 case 17 => 4 case 19 => 12 case 20 => 3
    case 21 => 4 case 22 => 12 case 27 => 9 case 30 => 4 case 31 => 10 case 32 => 10
    case 34 => 8 case 35 => 8
    case _ => 0
  }

  /** The instruction with the given opcode whose operands start at pc. */
  function Operands(code: u8, prog: seq<u8>, pc: nat): (op: Op)
    requires pc + OperandSize(code) <= |prog|
  {
    match code
    case 0 => Invalid
    case 1 => Call(Read32(prog, pc))
    case 2 => CondJump(Read32(prog, pc))
    case 3 => Decrement
    case 4 => EnqueueEmptyInterface
    case 5 => EnqueueInterface
    case 6 => EnqueuePointer(Read32(prog, pc))
    case 7 => EnqueueSliceHeader(Read32(prog, pc), Read32(prog, pc + 4))
    case 8 => EnqueueStringHeader(Read32(prog, pc))
    case 9 => EnqueueHMapHeader(Read32(prog, pc), Read32(prog, pc + 4),
                                prog[pc + 8], prog[pc + 9], prog[pc + 10], prog[pc + 11])
    case 10 => Jump(Read32(prog, pc))
    case 11 => Pop
    case 12 => PushImm(Read32(prog, pc))
    case 13 => PushOffset
    case 14 => PushSliceLen(Read32(prog, pc))
    case 15 => Return
    case 16 => SetOffset
    case 17 => AdvanceOffset(Read32(prog, pc))
    case 19 => DereferenceCFAOffset(Read32(prog, pc), Read32(prog, pc + 4), Read32(prog, pc + 8))
    case 20 => CopyFromRegister((prog[pc] as int) + 0x100 * (prog[pc + 1] as int), prog[pc + 2])
    case 21 => ZeroFill(Read32(prog, pc))
    case 22 => PrepareFrameData(Read32(prog, pc), Read32(prog, pc + 4), Read32(prog, pc + 8))
    case 23 => Illegal
    case 25 => ConcludeFrameData
    case 27 => PrepareGoContext(Read32(prog, pc), Read32(prog, pc + 4), prog[pc + 8])
    case 30 => SetPresenceBit(Read32(prog, pc))
    case 31 => EnqueueSwissMap(Read32(prog, pc), Read32(prog, pc + 4), prog[pc + 8], prog[pc + 9])
    case 32 => EnqueueSwissMapGroups(Read32(prog, pc), Read32(prog, pc + 4), prog[pc + 8], prog[pc + 9])
    case 33 => EnqueueSubroutine
    case 34 => SaveExprResult(Read32(prog, pc), Read32(prog, pc + 4))
    case 35 => DereferencePtr(Read32(prog, pc), Read32(prog, pc + 4))
    case 36 => PrepareExprEval
    case 37 => PreparePointeeData
    case _ => Nothing(code)
  }

  /** The instruction at pc and the pc after it; none if it runs past the end of the program. */
  function Decode(prog: seq<u8>, pc: nat): (r: Option<(Op, nat)>)
    ensures r.Some? ==> pc < r.value.1 <= |prog|
  {
    if pc >= |prog| || pc + 1 + OperandSize(prog[pc]) > |prog| then None
    else Some((Operands(prog[pc], prog, pc + 1), pc + 1 + OperandSize(prog[pc])))
  }

  // ---------------------------------------------------------------------------------------
  // The encoding the decoder inverts

  predicate Encodable(op: Op) {
    && (op.Nothing? ==> !Meaningful(op.code))
    && (op.CopyFromRegister? ==> op.register < 0x1_0000)
  }

  function Code(op: Op): u8 {
    match op
    case Invalid => 0
    case Call(_) => 1
    case CondJump(_) => 2
    case Decrement => 3
    case EnqueueEmptyInterface => 4
    case EnqueueInterface => 5
    case EnqueuePointer(_) => 6
    case EnqueueSliceHeader(_, _) => 7
    case EnqueueStringHeader(_) => 8
    case EnqueueHMapHeader(_, _, _, _, _, _) => 9
    case Jump(_) => 10
    case Pop => 11
    case PushImm(_) => 12
    case PushOffset => 13
    case PushSliceLen(_) => 14
    case Return => 15
    case SetOffset => 16
    case AdvanceOffset(_) => 17
    case DereferenceCFAOffset(_, _, _) => 19
    case CopyFromRegister(_, _) => 20
    case ZeroFill(_) => 21
    case PrepareFrameData(_, _, _) => 22
    case Illegal => 23
    case ConcludeFrameData => 25
    case PrepareGoContext(_, _, _) => 27
    case SetPresenceBit(_) => 30
    case EnqueueSwissMap(_, _, _, _) => 31
    case EnqueueSwissMapGroups(_, _, _, _) => 32
    case EnqueueSubroutine => 33
    case SaveExprResult(_, _) => 34
    case DereferencePtr(_, _) => 35
    case PrepareExprEval => 36
    case PreparePointeeData => 37
    case Nothing(code) => code
  }

  /** The 32-bit operands of an instruction, in the order they are laid down. */
  function WordOperands(op: Op): seq<u32> {
    match op
    case Call(pc) => [pc]
    case CondJump(pc) => [pc]
    case EnqueuePointer(t) => [t]
    case EnqueueSliceHeader(t, n) => [t, n]
    case EnqueueStringHeader(t) => [t]
    case EnqueueHMapHeader(t, n, _, _, _, _) => [t, n]
    case Jump(pc) => [pc]
    case PushImm(v) => [v]
    case PushSliceLen(n) => [n]
    case AdvanceOffset(n) => [n]
    case DereferenceCFAOffset(o, n, b) => [o, n, b]
    case ZeroFill(n) => [n]
    case PrepareFrameData(p, n, t) => [p, n, t]
    case PrepareGoContext(n, t, _) => [n, t]
    case SetPresenceBit(n) => [n]
    case EnqueueSwissMap(s, g, _, _) => [s, g]
    case EnqueueSwissMapGroups(s, g, _, _) => [s, g]
    case SaveExprResult(o, n) => [o, n]
    case DereferencePtr(b, n) => [b, n]
    case _ => []
  }

  /** The operands after the 32-bit ones, byte by byte. */
  function ByteOperands(op: Op): seq<u8>
    requires Encodable(op)
  {
    match op
    case EnqueueHMapHeader(_, _, a, b, c, d) => [a, b, c, d]
    case CopyFromRegister(r, n) => [r % 0x100, r / 0x100, n]
    case PrepareGoContext(_, _, c) => [c]
    case EnqueueSwissMap(_, _, a, b) => [a, b]
    case EnqueueSwissMapGroups(_, _, a, b) => [a, b]
    case _ => []
  }

  function LeAll(words: seq<u32>): (s: seq<u8>)
    ensures |s| == 4 * |words|
  {
    if words == [] then [] else Le32(words[0]) + LeAll(words[1..])
  }

  function Encode(op: Op): seq<u8>
    requires Encodable(op)
  {
    [Code(op)] + LeAll(WordOperands(op)) + ByteOperands(op)
  }

  lemma {:induction false} LeAllReads(before: seq<u8>, words: seq<u32>, after: seq<u8>, i: nat)
    requires i < |words|
    ensures Read32(before + LeAll(words) + after, |before| + 4 * i) == words[i]
    decreases i
  {
    var s := before + LeAll(words) + after;
    if i == 0 {
      Le32RoundTrip(words[0]);
      var n := |before|;
      assert forall j :: 0 <= j < 4 ==> s[n + j] == Le32(words[0])[j];
      assert s[n] == Le32(words[0])[0] && s[n + 1] == Le32(words[0])[1];
      assert s[n + 2] == Le32(words[0])[2] && s[n + 3] == Le32(words[0])[3];
    } else {
      assert s == (before + Le32(words[0])) + LeAll(words[1..]) + after;
      LeAllReads(before + Le32(words[0]), words[1..], after, i - 1);
    }
  }

  lemma SizeMatches(op: Op)
    requires Encodable(op)
    ensures OperandSize(Code(op)) == 4 * |WordOperands(op)| + |ByteOperands(op)|
  {
  }

  /** Operands are recovered from any bytes that hold their words and bytes in order. */
  lemma OperandsRecovered(op: Op, prog: seq<u8>, pc: nat)
    requires Encodable(op) && pc + OperandSize(Code(op)) <= |prog|
    requires forall i :: 0 <= i < |WordOperands(op)| ==> Read32(prog, pc + 4 * i) == WordOperands(op)[i]
    requires forall j :: 0 <= j < |ByteOperands(op)| ==>
               prog[pc + 4 * |WordOperands(op)| + j] == ByteOperands(op)[j]
    ensures Operands(Code(op), prog, pc) == op
  {
    hide Read32;
    var w, b := |WordOperands(op)|, |ByteOperands(op)|;
    assert w > 0 ==> Read32(prog, pc + 4 * 0) == WordOperands(op)[0];
    assert w > 1 ==> Read32(prog, pc + 4 * 1) == WordOperands(op)[1];
    assert w > 2 ==> Read32(prog, pc + 4 * 2) == WordOperands(op)[2];
    assert b > 0 ==> prog[pc + 4 * w + 0] == ByteOperands(op)[0];
    assert b > 1 ==> prog[pc + 4 * w + 1] == ByteOperands(op)[1];
    assert b > 2 ==> prog[pc + 4 * w + 2] == ByteOperands(op)[2];
    assert b > 3 ==> prog[pc + 4 * w + 3] == ByteOperands(op)[3];
  }

  /** Decoding finds exactly the instruction encoded at the pc, and the pc behind it. */
  lemma DecodeOfEncode(before: seq<u8>, op: Op, after: seq<u8>)
    requires Encodable(op)
    ensures Decode(before + Encode(op) + after, |before|) == Some((op, |before| + |Encode(op)|))
  {
    hide OperandSize, Operands, WordOperands, ByteOperands, Read32, Encode, Code, Decode;
    var prog := before + Encode(op) + after;
    SizeOfEncoding(op);
    EncodedOperands(before, op, after);
    OperandsRecovered(op, prog, |before| + 1);
    DecodeAt(op, prog, |before|);
  }

  lemma SizeOfEncoding(op: Op)
    requires Encodable(op)
    ensures |Encode(op)| == 1 + OperandSize(Code(op))
  {
    SizeMatches(op);
    hide OperandSize, WordOperands, ByteOperands, Code;
  }

  lemma EncodedOperands(before: seq<u8>, op: Op, after: seq<u8>)
    requires Encodable(op)
    ensures var prog := before + Encode(op) + after;
            var words, bytes := WordOperands(op), ByteOperands(op);
            && prog[|before|] == Code(op)
            && (forall i :: 0 <= i < |words| ==>
                  |before| + 1 + 4 * i + 4 <= |prog| && Read32(prog, |before| + 1 + 4 * i) == words[i])
            && (forall j :: 0 <= j < |bytes| ==> prog[|before| + 1 + 4 * |words| + j] == bytes[j])
  {
    hide OperandSize, WordOperands, ByteOperands, Read32, LeAll, Code;
    var words, bytes := WordOperands(op), ByteOperands(op);
    PartsAreThere(before, Code(op), LeAll(words), bytes, after);
    WordsAreThere(before + [Code(op)], words, bytes + after, before + Encode(op) + after);
  }

  lemma DecodeAt(op: Op, prog: seq<u8>, pc: nat)
    requires pc + 1 + OperandSize(Code(op)) <= |prog| && prog[pc] == Code(op)
    requires Operands(Code(op), prog, pc + 1) == op
    ensures Decode(prog, pc) == Some((op, pc + 1 + OperandSize(Code(op))))
  {
    hide OperandSize, Operands, Code;
  }

  lemma PartsAreThere(before: seq<u8>, code: u8, words: seq<u8>, bytes: seq<u8>, after: seq<u8>)
    ensures var prog := before + ([code] + words + bytes) + after;
            && prog[|before|] == code
            && prog == (before + [code]) + words + (bytes + after)
            && forall j :: 0 <= j < |bytes| ==> prog[|before| + 1 + |words| + j] == bytes[j]
  {
  }

  lemma WordsAreThere(before: seq<u8>, words: seq<u32>, after: seq<u8>, prog: seq<u8>)
    requires prog == before + LeAll(words) + after
    ensures forall i :: 0 <= i < |words| ==>
              |before| + 4 * i + 4 <= |prog| && Read32(prog, |before| + 4 * i) == words[i]
  {
    hide Read32;
    forall i | 0 <= i < |words| ensures Read32(prog, |before| + 4 * i) == words[i] {
      LeAllReads(before, words, after, i);
    }
  }

  function EncodeAll(ops: seq<Op>): seq<u8>
    requires forall op :: op in ops ==> Encodable(op)
  {
    if ops == [] then [] else Encode(ops[0]) + EncodeAll(ops[1..])
  }

  /** Every instruction from pc on, until the end of the program. */
  function DecodeAll(prog: seq<u8>, pc: nat): Option<seq<Op>>
    requires pc <= |prog|
    decreases |prog| - pc
  {
    if pc == |prog| then Some([])
    else match Decode(prog, pc)
      case None => None
      case Some((op, next)) =>
        match DecodeAll(prog, next)
        case None => None
        case Some(rest) => Some([op] + rest)
  }

  /** A whole program is recovered from its encoding: operand sizes and pc movement agree. */
  lemma {:induction false} ProgramRoundTrip(before: seq<u8>, ops: seq<Op>)
    requires forall op :: op in ops ==> Encodable(op)
    ensures DecodeAll(before + EncodeAll(ops), |before|) == Some(ops)
    decreases |ops|
  {
    hide Decode, Encode;
    var prog := before + EncodeAll(ops);
    if ops == [] {
      assert prog == before;
    } else {
      assert prog == before + Encode(ops[0]) + EncodeAll(ops[1..]);
      DecodeOfEncode(before, ops[0], EncodeAll(ops[1..]));
      ProgramRoundTrip(before + Encode(ops[0]), ops[1..]);
      assert [ops[0]] + ops[1..] == ops;
    }
  }

  /** The instructions of an encoded program are at their starts. */
  lemma {:induction false} LaidOutAt(before: seq<u8>, ops: seq<Op>, starts: seq<nat>, i: nat)
    requires |starts| == |ops| + 1 && starts[0] == |before| && i < |ops|
    requires forall op :: op in ops ==> Encodable(op)
    requires forall j :: 0 <= j < |ops| ==> starts[j + 1] == starts[j] + |Encode(ops[j])|
    ensures Decode(before + EncodeAll(ops), starts[i]) == Some((ops[i], starts[i + 1]))
    decreases |ops|
  {
    hide Decode, Encode;
    assert ops[0] in ops;
    var prog := before + EncodeAll(ops);
    assert prog == before + Encode(ops[0]) + EncodeAll(ops[1..]);
    if i == 0 {
      DecodeOfEncode(before, ops[0], EncodeAll(ops[1..]));
    } else {
      forall j | 0 <= j < |ops[1..]| ensures starts[1..][j + 1] == starts[1..][j] + |Encode(ops[1..][j])| {
        assert starts[(j + 1) + 1] == starts[j + 1] + |Encode(ops[j + 1])|;
      }
      LaidOutAt(before + Encode(ops[0]), ops[1..], starts[1..], i - 1);
    }
  }

  lemma {:induction false} LastStart(ops: seq<Op>, starts: seq<nat>)
    requires |starts| == |ops| + 1
    requires forall op :: op in ops ==> Encodable(op)
    requires forall j :: 0 <= j < |ops| ==> starts[j + 1] == starts[j] + |Encode(ops[j])|
    ensures starts[0] + |EncodeAll(ops)| == starts[|ops|]
    decreases |ops|
  {
    hide Encode;
    if ops != [] {
      assert ops[0] in ops && starts[0 + 1] == starts[0] + |Encode(ops[0])|;
      forall j | 0 <= j < |ops[1..]| ensures starts[1..][j + 1] == starts[1..][j] + |Encode(ops[1..][j])| {
        assert starts[(j + 1) + 1] == starts[j + 1] + |Encode(ops[j + 1])|;
      }
      LastStart(ops[1..], starts[1..]);
    }
  }

  // ---------------------------------------------------------------------------------------

  /** The decoder of the program: a pc moving over the bytes. */
  class OpDecoder {
    const opBuf: seq<u8>
    var pc: u32

    constructor (opBuf: seq<u8>)
      ensures this.opBuf == opBuf && pc == 0
    {
      this.opBuf := opBuf;
      pc := 0;
    }

    method SetPC(target: u32) returns (ok: bool)
      requires |opBuf| < 0x8000_0000
      modifies this
      ensures ok == (target < |opBuf|)
      ensures pc == if ok then target else old(pc)
    {
      if target >= |opBuf| {
        return false;
      }
      pc := target;
      ok := true;
    }

    method PopOpCode() returns (code: u8)
      requires pc < |opBuf| < 0x8000_0000
      modifies this
      ensures code == opBuf[old(pc)] && pc == old(pc) + 1
    {
      code := opBuf[pc];
      pc := pc + 1;
    }

    method PopU32() returns (v: u32)
      requires pc + 4 <= |opBuf| < 0x8000_0000
      modifies this
      ensures v == Read32(opBuf, old(pc)) && pc == old(pc) + 4
    {
      v := Join(opBuf[pc], opBuf[pc + 1], opBuf[pc + 2], opBuf[pc + 3]);
      pc := pc + 4;
    }

    method PopU8() returns (v: u8)
      requires pc < |opBuf| < 0x8000_0000
      modifies this
      ensures v == opBuf[old(pc)] && pc == old(pc) + 1
    {
      v := opBuf[pc];
      pc := pc + 1;
    }

    /** The operands of an opcode just popped, each read in turn while the pc moves over it. */
    method DecodeOperands(code: u8) returns (op: Op)
      requires pc + OperandSize(code) <= |opBuf| < 0x8000_0000
      modifies this
      ensures op == Operands(code, opBuf, old(pc))
      ensures pc == old(pc) + OperandSize(code)
    {
      var a, b, c, d, e, f := 0, 0, 0, 0, 0, 0;
      hide Read32;
      var size := OperandSize(code);
      if code == 20 {
        a := PopU8();
        b := PopU8();
        c := PopU8();
        return CopyFromRegister((a as int) + 0x100 * (b as int), c);
      }
      if size >= 4 { a := PopU32(); }
      if size >= 8 { b := PopU32(); }
      match code
      case 0 => op := Invalid;
      case 1 => op := Call(a);
      case 2 => op := CondJump(a);
      case 3 => op := Decrement;
      case 4 => op := EnqueueEmptyInterface;
      case 5 => op := EnqueueInterface;
      case 6 => op := EnqueuePointer(a);
      case 7 => op := EnqueueSliceHeader(a, b);
      case 8 => op := EnqueueStringHeader(a);
      case 9 => {
        c := PopU8();
        d := PopU8();
        e := PopU8();
        f := PopU8();
        op := EnqueueHMapHeader(a, b, c, d, e, f);
      }
      case 10 => op := Jump(a);
      case 11 => op := Pop;
      case 12 => op := PushImm(a);
      case 13 => op := PushOffset;
      case 14 => op := PushSliceLen(a);
      case 15 => op := Return;
      case 16 => op := SetOffset;
      case 17 => op := AdvanceOffset(a);
      case 19 => c := PopU32(); op := DereferenceCFAOffset(a, b, c);
      case 21 => op := ZeroFill(a);
      case 22 => c := PopU32(); op := PrepareFrameData(a, b, c);
      case 23 => op := Illegal;
      case 25 => op := ConcludeFrameData;
      case 27 => c := PopU8(); op := PrepareGoContext(a, b, c);
      case 30 => op := SetPresenceBit(a);
      case 31 => {
        c := PopU8();
        d := PopU8();
        op := EnqueueSwissMap(a, b, c, d);
      }
      case 32 => {
        c := PopU8();
        d := PopU8();
        op := EnqueueSwissMapGroups(a, b, c, d);
      }
      case 33 => op := EnqueueSubroutine;
      case 34 => op := SaveExprResult(a, b);
      case 35 => op := DereferencePtr(a, b);
      case 36 => op := PrepareExprEval;
      case 37 => op := PreparePointeeData;
      case _ => op := Nothing(code);
    }
  }
}
