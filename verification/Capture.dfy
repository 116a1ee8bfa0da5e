/** Streaming a CPU profile and an execution trace over one stream, in chunks. */
module Capture {
  import opened Words

  const CHUNK_SIZE := 0x1_0000

  datatype Source = Cpu | Trace

  datatype Message =
    | Start(source: Source, seconds: nat)
    | Chunk(source: Source, data: seq<u8>)
    | Complete(source: Source)

  // ---------------------------------------------------------------------------------------
  // Chunks

  function Least(a: nat, b: nat): nat { if a < b then a else b }

  function Chunks(data: seq<u8>): seq<seq<u8>>
    decreases |data|
  {
    if data == [] then []
    else
      var n := Least(CHUNK_SIZE, |data|);
      [data[..n]] + Chunks(data[n..])
  }

  function Concat(cs: seq<seq<u8>>): seq<u8>
    decreases |cs|
  {
    if cs == [] then [] else cs[0] + Concat(cs[1..])
  }

  /** Every chunk but the last is of full size, and the last one is not empty. */
  predicate WellChunked(cs: seq<seq<u8>>) {
    forall i :: 0 <= i < |cs| ==> if i < |cs| - 1 then |cs[i]| == CHUNK_SIZE else 1 <= |cs[i]| <= CHUNK_SIZE
  }

  /** The chunks of the data are the only way to cut it like that. */
  lemma {:induction false} ChunksIff(cs: seq<seq<u8>>, data: seq<u8>)
    ensures WellChunked(cs) && Concat(cs) == data <==> cs == Chunks(data)
    decreases |data|
  {
    if data == [] {
      if WellChunked(cs) && cs != [] { assert |cs[0]| > 0 && cs[0] <= Concat(cs); }
    } else {
      var n := Least(CHUNK_SIZE, |data|);
      ChunksIff(Chunks(data[n..]), data[n..]);
      assert ([data[..n]] + Chunks(data[n..]))[1..] == Chunks(data[n..]);
      if cs == Chunks(data) {
        assert Concat(cs) == data[..n] + Concat(cs[1..]) == data;
        FirstOfChunks(data, cs);
      }
      if WellChunked(cs) && Concat(cs) == data && cs != [] {
        ChunksIff(cs[1..], Concat(cs[1..]));
        FirstIsFull(cs, data);
        assert cs == [cs[0]] + cs[1..];
      }
    }
  }

  lemma FirstOfChunks(data: seq<u8>, cs: seq<seq<u8>>)
    requires data != [] && cs == Chunks(data)
    requires WellChunked(Chunks(data[Least(CHUNK_SIZE, |data|)..]))
    ensures WellChunked(cs)
  {
    var n := Least(CHUNK_SIZE, |data|);
    var rest := Chunks(data[n..]);
    assert rest == [] || n == CHUNK_SIZE;
    forall i | 0 <= i < |cs|
      ensures if i < |cs| - 1 then |cs[i]| == CHUNK_SIZE else 1 <= |cs[i]| <= CHUNK_SIZE
    {
      if i > 0 { assert cs[i] == rest[i - 1]; }
    }
  }

  lemma FirstIsFull(cs: seq<seq<u8>>, data: seq<u8>)
    requires cs != [] && WellChunked(cs) && Concat(cs) == data && data != []
    requires WellChunked(cs[1..]) ==> cs[1..] == Chunks(Concat(cs[1..]))
    ensures var n := Least(CHUNK_SIZE, |data|); cs[0] == data[..n] && cs[1..] == Chunks(data[n..])
  {
    var n := Least(CHUNK_SIZE, |data|);
    if |cs| == 1 {
      assert Concat(cs[1..]) == [];
    } else {
      assert |cs[0]| == CHUNK_SIZE;
    }
    assert data == cs[0] + Concat(cs[1..]);
    assert |cs[0]| == n;
    forall i | 0 <= i < |cs[1..]|
      ensures if i < |cs[1..]| - 1 then |cs[1..][i]| == CHUNK_SIZE else 1 <= |cs[1..][i]| <= CHUNK_SIZE
    {
      assert cs[1..][i] == cs[i + 1];
    }
    assert data[n..] == Concat(cs[1..]);
  }

  // ---------------------------------------------------------------------------------------
  // The messages of one source

  function ChunkMessages(source: Source, cs: seq<seq<u8>>): (ms: seq<Message>)
    ensures |ms| == |cs|
  {
    seq(|cs|, i requires 0 <= i < |cs| => Chunk(source, cs[i]))
  }

  function Messages(source: Source, seconds: nat, data: seq<u8>): seq<Message> {
    [Start(source, seconds)] + ChunkMessages(source, Chunks(data)) + [Complete(source)]
  }

  /** What a client makes of the messages of one source: its chunks put together. */
  function Assemble(ms: seq<Message>): (r: seq<u8>)
    decreases |ms|
  {
    if ms == [] then [] else (if ms[0].Chunk? then ms[0].data else []) + Assemble(ms[1..])
  }

  lemma {:induction false} AssembleChunks(source: Source, cs: seq<seq<u8>>, rest: seq<Message>)
    ensures Assemble(ChunkMessages(source, cs) + rest) == Concat(cs) + Assemble(rest)
    decreases |cs|
  {
    var ms := ChunkMessages(source, cs) + rest;
    if cs == [] {
      assert ms == rest;
    } else {
      assert ms[1..] == ChunkMessages(source, cs[1..]) + rest;
      AssembleChunks(source, cs[1..], rest);
    }
  }

  /** The chunks of a source put together are its data. */
  lemma MessagesRoundTrip(source: Source, seconds: nat, data: seq<u8>)
    ensures Assemble(Messages(source, seconds, data)) == data
  {
    hide Chunks;
    ChunksIff(Chunks(data), data);
    var cs := ChunkMessages(source, Chunks(data));
    AssembleChunks(source, Chunks(data), [Complete(source)]);
    assert Messages(source, seconds, data)[1..] == cs + [Complete(source)];
    assert [Complete(source)][1..] == [];
    assert Assemble([Complete(source)]) == [];
  }

  // ---------------------------------------------------------------------------------------
  // The producers

  /** One producer's side of the stream; a send may fail at any time. */
  class Sender {
    var sent: seq<Message>
    var results: seq<bool>   // of the sends to come

    method Send(m: Message) returns (ok: bool)
      modifies this
      ensures sent == if ok then old(sent) + [m] else old(sent)
    {
      ok := true;
      if results != [] {
        ok, results := results[0], results[1..];
      }
      if ok {
        sent := sent + [m];
      }
    }
  }

  lemma NextChunk(source: Source, data: seq<u8>, n: nat)
    requires n == Least(CHUNK_SIZE, |data|)
    ensures data != [] ==> n > 0
    ensures data != [] ==>
              ChunkMessages(source, Chunks(data))
              == [Chunk(source, data[..n])] + ChunkMessages(source, Chunks(data[n..]))
    ensures data == [] ==> Chunks(data) == []
  {
    if data != [] {
      var rest := Chunks(data[n..]);
      assert Chunks(data) == [data[..n]] + rest;
      hide Chunks;
      FirstMessage(source, data[..n], rest);
    }
  }

  lemma FirstMessage(source: Source, chunk: seq<u8>, rest: seq<seq<u8>>)
    ensures ChunkMessages(source, [chunk] + rest) == [Chunk(source, chunk)] + ChunkMessages(source, rest)
  {
  }

  /** What was sent is what should be, or if something failed, an initial part of it. */
  ghost predicate SentSoFar(before: seq<Message>, after: seq<Message>, ms: seq<Message>, ok: bool) {
    if ok then after == before + ms else before <= after <= before + ms
  }

  /** What is still to be sent of a source when the data is left. */
  function Rest(source: Source, data: seq<u8>): seq<Message> {
    ChunkMessages(source, Chunks(data)) + [Complete(source)]
  }

  lemma NextRest(source: Source, data: seq<u8>, n: nat)
    requires n == Least(CHUNK_SIZE, |data|)
    ensures data != [] ==> n > 0 && Rest(source, data) == [Chunk(source, data[..n])] + Rest(source, data[n..])
    ensures data == [] ==> Rest(source, data) == [Complete(source)]
  {
    hide Chunks;
    NextChunk(source, data, n);
  }

  /** What was sent and the rest make up all messages. */
  ghost predicate Pending(before: seq<Message>, sent: seq<Message>, rest: seq<Message>, all: seq<Message>) {
    before <= sent && sent + rest == before + all
  }

  lemma PendingStart(before: seq<Message>, all: seq<Message>)
    ensures Pending(before, before, all, all)
  {
  }

  lemma PendingSend(before: seq<Message>, sent: seq<Message>, m: Message, rest: seq<Message>, all: seq<Message>)
    requires Pending(before, sent, [m] + rest, all)
    ensures SentSoFar(before, sent, all, false)
    ensures Pending(before, sent + [m], rest, all)
    ensures rest == [] ==> SentSoFar(before, sent + [m], all, true)
  {
    assert (sent + [m]) + rest == sent + ([m] + rest);
    assert sent + [m] + [] == sent + [m];
  }

  /** Between two sends an initial part was sent. */
  lemma PartlySent(source: Source, before: seq<Message>, sent: seq<Message>, data: seq<u8>, all: seq<Message>,
                   pending: bool)
    requires if pending then Pending(before, sent, Rest(source, data), all) else SentSoFar(before, sent, all, false)
    ensures SentSoFar(before, sent, all, false)
  {
  }

  /** The CPU profile is complete when it is sent; it is cut from the front. */
  method RunCpuProfile(out: Sender, seconds: nat, profile: seq<u8>, canceled: bool) returns (ok: bool)
    modifies out
    ensures SentSoFar(old(out.sent), out.sent, Messages(Cpu, seconds, profile), ok)
  {
    ghost var before := out.sent;
    ghost var all := Messages(Cpu, seconds, profile);
    assert all == [Start(Cpu, seconds)] + Rest(Cpu, profile);
    hide Chunks, Rest, Messages, Pending;
    PendingStart(before, all);
    PendingSend(before, before, Start(Cpu, seconds), Rest(Cpu, profile), all);
    ok := out.Send(Start(Cpu, seconds));
    if !ok || canceled {
      PartlySent(Cpu, before, out.sent, profile, all, ok);
      return false;
    }
    var data := profile;
    while |data| > 0
      invariant Pending(before, out.sent, Rest(Cpu, data), all)
      decreases |data|
    {
      var chunkLen := CHUNK_SIZE;
      if chunkLen > |data| {
        chunkLen := |data|;
      }
      NextRest(Cpu, data, chunkLen);
      PendingSend(before, out.sent, Chunk(Cpu, data[..chunkLen]), Rest(Cpu, data[chunkLen..]), all);
      ok := out.Send(Chunk(Cpu, data[..chunkLen]));
      if !ok {
        return false;
      }
      data := data[chunkLen..];
    }
    NextRest(Cpu, data, 0);
    PendingSend(before, out.sent, Complete(Cpu), [], all) by { assert [Complete(Cpu)] + [] == [Complete(Cpu)]; }
    ok := out.Send(Complete(Cpu));
  }

  datatype ReadResult = Read | Eof | Broken

  /** The reading end of the pipe that the trace is written to: the writes to come, and how the
    * writer closes it. A read gets no more than what is left of one write. */
  class Pipe {
    var writes: seq<seq<u8>>
    const failed: bool

    ghost function Remaining(): seq<u8>
      reads this
    {
      Concat(writes)
    }

    method ReadInto(buf: array<u8>, from_: nat) returns (n: nat, result: ReadResult)
      requires from_ <= buf.Length
      modifies this, buf
      ensures from_ + n <= buf.Length
      ensures buf[..from_] == old(buf[..from_])
      ensures buf[from_..from_ + n] + Remaining() == old(Remaining())
      ensures result.Read? ==> |writes| <= |old(writes)|
      ensures result.Read? && from_ < buf.Length ==>
                |writes| < |old(writes)| || |Remaining()| < |old(Remaining())|
      ensures !result.Read? ==> n == 0 && Remaining() == [] && result == if failed then Broken else Eof
    {
      if writes == [] {
        return 0, if failed then Broken else Eof;
      }
      var w := writes[0];
      n := Least(buf.Length - from_, |w|);
      for i := 0 to n
        invariant buf[..from_] == old(buf[..from_])
        invariant buf[from_..from_ + i] == w[..i]
        invariant writes == old(writes)
      {
        buf[from_ + i] := w[i];
      }
      assert w == w[..n] + w[n..];
      if n == |w| {
        writes := writes[1..];
      } else {
        writes := [w[n..]] + writes[1..];
        assert writes[1..] == old(writes)[1..];
      }
      result := Read;
    }
  }

  /** Fills the buffer, unless the writer closes the pipe before. */
  method ReadChunk(pipe: Pipe, buf: array<u8>) returns (n: nat, ok: bool)
    requires buf.Length == CHUNK_SIZE
    modifies pipe, buf
    ensures n <= buf.Length && buf[..n] + pipe.Remaining() == old(pipe.Remaining())
    ensures ok ==> n == Least(CHUNK_SIZE, |old(pipe.Remaining())|)
    ensures ok && n < CHUNK_SIZE ==> !pipe.failed
  {
    n := 0;
    while n < CHUNK_SIZE
      invariant n <= CHUNK_SIZE && buf[..n] + pipe.Remaining() == old(pipe.Remaining())
      decreases |pipe.Remaining()|, |pipe.writes|
    {
      ghost var got := buf[..n];
      var nn, result := pipe.ReadInto(buf, n);
      assert buf[..n + nn] == got + buf[n..n + nn];
      n := n + nn;
      if result.Eof? {
        break;
      }
      if result.Broken? {
        return n, false;
      }
    }
    ok := true;
  }

  /** Reads the trace from the pipe and sends it chunk by chunk. */
  method RunExecutionTrace(out: Sender, seconds: nat, pipe: Pipe) returns (ok: bool)
    modifies out, pipe
    ensures SentSoFar(old(out.sent), out.sent, Messages(Trace, seconds, old(pipe.Remaining())), ok)
  {
    ghost var before := out.sent;
    ghost var all := Messages(Trace, seconds, pipe.Remaining());
    assert all == [Start(Trace, seconds)] + Rest(Trace, pipe.Remaining());
    hide Chunks, Concat, Rest, Messages, Pending;
    PendingStart(before, all);
    PendingSend(before, before, Start(Trace, seconds), Rest(Trace, pipe.Remaining()), all);
    ok := out.Send(Start(Trace, seconds));
    if !ok {
      return;
    }
    var buf := new u8[CHUNK_SIZE](_ => 0);
    while true
      invariant Pending(before, out.sent, Rest(Trace, pipe.Remaining()), all)
      decreases |pipe.Remaining()|
    {
      ghost var data := pipe.Remaining();
      var n;
      PartlySent(Trace, before, out.sent, data, all, true);
      n, ok := ReadChunk(pipe, buf);
      if !ok {
        return false;
      }
      NextRest(Trace, data, n);
      if n == 0 {
        PendingSend(before, out.sent, Complete(Trace), [], all) by {
          assert [Complete(Trace)] + [] == [Complete(Trace)];
        }
        break;
      }
      assert data[..n] == buf[..n] && data[n..] == pipe.Remaining();
      PendingSend(before, out.sent, Chunk(Trace, buf[..n]), Rest(Trace, pipe.Remaining()), all);
      ok := out.Send(Chunk(Trace, buf[..n]));
      if !ok {
        return false;
      }
    }
    ok := out.Send(Complete(Trace));
  }

  // ---------------------------------------------------------------------------------------
  // Both producers on one stream

  /** The messages of one source on a stream. */
  function Of(source: Source, wire: seq<Message>): seq<Message>
    decreases |wire|
  {
    if wire == [] then [] else (if wire[0].source == source then [wire[0]] else []) + Of(source, wire[1..])
  }

  /** Sends are atomic, so what is on the stream is an interleaving of what the producers sent. */
  ghost predicate Interleaves(a: seq<Message>, b: seq<Message>, wire: seq<Message>)
    decreases |wire|
  {
    if wire == [] then a == [] && b == []
    else
      || (a != [] && a[0] == wire[0] && Interleaves(a[1..], b, wire[1..]))
      || (b != [] && b[0] == wire[0] && Interleaves(a, b[1..], wire[1..]))
  }

  predicate From(source: Source, ms: seq<Message>) {
    forall i :: 0 <= i < |ms| ==> ms[i].source == source
  }

  /** Whatever the interleaving, a stream splits into what each producer sent; and everything that
    * splits like that is one of the interleavings. */
  lemma {:induction false} SplittingIff(a: seq<Message>, b: seq<Message>, wire: seq<Message>)
    requires From(Cpu, a) && From(Trace, b)
    ensures Interleaves(a, b, wire) <==> a == Of(Cpu, wire) && b == Of(Trace, wire)
    decreases |wire|
  {
    if wire != [] {
      var cpu, trace := Of(Cpu, wire[1..]), Of(Trace, wire[1..]);
      if a != [] && a[0] == wire[0] {
        SplittingIff(a[1..], b, wire[1..]);
        assert a == [a[0]] + a[1..];
        assert ([wire[0]] + cpu)[1..] == cpu;
      }
      if b != [] && b[0] == wire[0] {
        SplittingIff(a, b[1..], wire[1..]);
        assert b == [b[0]] + b[1..];
        assert ([wire[0]] + trace)[1..] == trace;
      }
    }
  }

  lemma {:induction false} OfAppend(source: Source, wire: seq<Message>, m: Message)
    ensures Of(source, wire + [m]) == Of(source, wire) + if m.source == source then [m] else []
    decreases |wire|
  {
    if wire == [] {
      assert [m][1..] == [];
    } else {
      assert (wire + [m])[1..] == wire[1..] + [m] && (wire + [m])[0] == wire[0];
      OfAppend(source, wire[1..], m);
      var first := if wire[0].source == source then [wire[0]] else [];
      var last := if m.source == source then [m] else [];
      assert first + (Of(source, wire[1..]) + last) == (first + Of(source, wire[1..])) + last;
    }
  }

  /** How many messages a producer has sent when the sends happened in the order of the schedule. */
  function Turns(source: Source, schedule: seq<Source>): nat
    decreases |schedule|
  {
    if schedule == [] then 0
    else
      var n := |schedule| - 1;
      Turns(source, schedule[..n]) + if schedule[n] == source then 1 else 0
  }

  /** The stream after the sends of a schedule: each is the next message of the producer that got the
    * lock. */
  function Play(cpu: seq<Message>, trace: seq<Message>, schedule: seq<Source>): seq<Message>
    requires Turns(Cpu, schedule) <= |cpu| && Turns(Trace, schedule) <= |trace|
    decreases |schedule|
  {
    if schedule == [] then []
    else
      var n := |schedule| - 1;
      var before := schedule[..n];
      Play(cpu, trace, before)
      + [if schedule[n].Cpu? then cpu[Turns(Cpu, before)] else trace[Turns(Trace, before)]]
  }

  /** Every schedule interleaves what the producers have sent so far. */
  lemma {:induction false} ScheduleInterleaves(cpu: seq<Message>, trace: seq<Message>, schedule: seq<Source>)
    requires From(Cpu, cpu) && From(Trace, trace)
    requires Turns(Cpu, schedule) <= |cpu| && Turns(Trace, schedule) <= |trace|
    ensures Interleaves(cpu[..Turns(Cpu, schedule)], trace[..Turns(Trace, schedule)], Play(cpu, trace, schedule))
    decreases |schedule|
  {
    if schedule != [] {
      var n := |schedule| - 1;
      var before := schedule[..n];
      var i, j := Turns(Cpu, before), Turns(Trace, before);
      ScheduleInterleaves(cpu, trace, before);
      var wire := Play(cpu, trace, before);
      var next := if schedule[n].Cpu? then cpu[i] else trace[j];
      assert Play(cpu, trace, schedule) == wire + [next];
      assert schedule[n].Cpu? ==> cpu[..i + 1] == cpu[..i] + [next];
      assert schedule[n].Trace? ==> trace[..j + 1] == trace[..j] + [next];
      hide Interleaves, Play, Of;
      SplittingIff(cpu[..i], trace[..j], wire);
      OfAppend(Cpu, wire, next);
      OfAppend(Trace, wire, next);
      SplittingIff(cpu[..Turns(Cpu, schedule)], trace[..Turns(Trace, schedule)], wire + [next]);
    }
  }

  lemma MessagesAreFrom(source: Source, seconds: nat, data: seq<u8>)
    ensures From(source, Messages(source, seconds, data))
  {
    hide Chunks;
  }

  /** A capture in which no send failed: the stream splits into a start, the chunks and a completion
    * for each producer, only the last chunk of each may be short, and each producer's data is
    * recovered. */
  lemma CaptureRoundTrip(seconds: nat, profile: seq<u8>, trace: seq<u8>, wire: seq<Message>)
    requires Interleaves(Messages(Cpu, seconds, profile), Messages(Trace, seconds, trace), wire)
    ensures Of(Cpu, wire) == [Start(Cpu, seconds)] + ChunkMessages(Cpu, Chunks(profile)) + [Complete(Cpu)]
    ensures Of(Trace, wire) == [Start(Trace, seconds)] + ChunkMessages(Trace, Chunks(trace)) + [Complete(Trace)]
    ensures WellChunked(Chunks(profile)) && WellChunked(Chunks(trace))
    ensures Assemble(Of(Cpu, wire)) == profile && Assemble(Of(Trace, wire)) == trace
  {
    hide Chunks, Interleaves, WellChunked;
    MessagesAreFrom(Cpu, seconds, profile);
    MessagesAreFrom(Trace, seconds, trace);
    SplittingIff(Messages(Cpu, seconds, profile), Messages(Trace, seconds, trace), wire);
    MessagesRoundTrip(Cpu, seconds, profile);
    MessagesRoundTrip(Trace, seconds, trace);
    ChunksIff(Chunks(profile), profile);
    ChunksIff(Chunks(trace), trace);
  }

  /** A producer that failed leaves an initial part of its messages on the stream, and the other
    * producer's messages are unaffected. */
  lemma FailedCaptureSplits(cpu: seq<Message>, trace: seq<Message>, seconds: nat, profile: seq<u8>, data: seq<u8>,
                            cpuOk: bool, traceOk: bool, wire: seq<Message>)
    requires SentSoFar([], cpu, Messages(Cpu, seconds, profile), cpuOk)
    requires SentSoFar([], trace, Messages(Trace, seconds, data), traceOk)
    requires Interleaves(cpu, trace, wire)
    ensures Of(Cpu, wire) == cpu <= Messages(Cpu, seconds, profile)
    ensures Of(Trace, wire) == trace <= Messages(Trace, seconds, data)
    ensures cpuOk ==> Assemble(Of(Cpu, wire)) == profile
    ensures traceOk ==> Assemble(Of(Trace, wire)) == data
  {
    hide Chunks, Interleaves;
    MessagesAreFrom(Cpu, seconds, profile);
    MessagesAreFrom(Trace, seconds, data);
    assert [] + Messages(Cpu, seconds, profile) == Messages(Cpu, seconds, profile);
    assert [] + Messages(Trace, seconds, data) == Messages(Trace, seconds, data);
    MessagesRoundTrip(Cpu, seconds, profile);
    MessagesRoundTrip(Trace, seconds, data);
    hide Messages;
    SplittingIff(cpu, trace, wire);
  }
}
