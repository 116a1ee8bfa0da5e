/** Draining the worklist: each object is written to the output and its references are enqueued,
  * until the worklist is empty or the output is full. */
module Draining {
  import opened Words
  import opened Wrappers
  import opened Worklist
  import opened Buffer
  import opened Machine
  import opened MachineFrame

  /** The entry with the length its object has: that of its type, unless a shorter one is given. */
  function Clamped(e: QueueEntry, ti: TypeInfo): QueueEntry {
    e.(len := if e.len == 0 || e.len > ti.byteLen then ti.byteLen else e.len)
  }

  function EnqueueReferences(env: Env, m: State, e: QueueEntry, enqueuePc: u32, offset: u32): (r: Outcome)
    requires m.Ok()
    ensures r.Keeps(m) && !r.Next?
  {
    if enqueuePc == 0 then Done(true, m)
    else Run(env, m.(chased := e), enqueuePc, 0, 0, offset)
  }

  function ProcessObject(env: Env, m: State, e: QueueEntry, ti: TypeInfo): (r: Outcome)
    requires m.Ok()
    ensures r.Keeps(m) && !r.Next?
  {
    hide EnqueueReferences;
    if e.len == 0 then Done(true, m)
    else if !ti.serializeBeforeEnqueue then EnqueueReferences(env, m, e, ti.enqueuePc, 0)
    else if !m.buf.WriteEntrySafe(env.memory, e) then Crash(BufferFault)
    else
      WriteEntryOk(m.buf, env.memory, e);
      var (b, r) := m.buf.WriteEntry(env.memory, e);
      if r.None? then Done(true, m.(buf := b))
      else EnqueueReferences(env, m.(buf := b), e, ti.enqueuePc, r.value)
  }

  /** Processes an entry just popped. */
  function ProcessEntry(env: Env, m: State, e: QueueEntry): (r: Outcome)
    requires m.Ok()
    ensures r.Keeps(m) && !r.Next?
  {
    hide ProcessObject;
    if e.typ !in env.typeInfo then Done(true, m)
    else ProcessObject(env, m, Clamped(e, env.typeInfo[e.typ]), env.typeInfo[e.typ])
  }

  function Popped(m: State): State
    requires m.work.fifo != []
  {
    m.(work := m.work.Pop().0)
  }

  lemma EnqueueIsMonotone(env: Env, m: State, e: QueueEntry, enqueuePc: u32, offset: u32)
    requires m.Ok()
    ensures var r := EnqueueReferences(env, m, e, enqueuePc, offset); r.Crash? || BufferMonotone(m, r.m)
  {
    hide Run, WorkGrows;
    WorkSteps(m.work);
    RunIsMonotone(env, m.(chased := e), enqueuePc, 0, 0, offset);
  }

  lemma EntryIsMonotone(env: Env, m: State, e: QueueEntry)
    requires m.Ok()
    ensures var r := ProcessEntry(env, m, e); r.Crash? || BufferMonotone(m, r.m)
  {
    hide WorkGrows, EnqueueReferences, Buf.WriteEntry, Buf.WriteEntrySafe;
    WorkSteps(m.work);
    if e.typ in env.typeInfo {
      var ti := env.typeInfo[e.typ];
      var c := Clamped(e, ti);
      EnqueueIsMonotone(env, m, c, ti.enqueuePc, 0);
      if m.buf.WriteEntrySafe(env.memory, c) {
        WriteEntryOk(m.buf, env.memory, c);
        WriteEntryFull(m.buf, env.memory, c);
        var (b, r) := m.buf.WriteEntry(env.memory, c);
        if r.Some? { EnqueueIsMonotone(env, m.(buf := b), c, ti.enqueuePc, r.value); }
      }
    }
  }

  /** Whatever memory is being walked, processing an entry makes progress: it sees a new key, or it
    * leaves the worklist shorter. */
  lemma EntryMakesProgress(env: Env, m: State)
    requires m.Ok() && m.work.Inv() && m.work.fifo != []
    ensures var r := ProcessEntry(env, Popped(m), m.work.fifo[0]);
            !r.Crash? ==>
              && r.m.Ok() && r.m.work.Inv() && (m.buf.full ==> r.m.buf.full)
              && Drains(m.work, r.m.work)
              && (Unseen(r.m.work) < Unseen(m.work)
                  || (Unseen(r.m.work) == Unseen(m.work) && |r.m.work.fifo| < |m.work.fifo|))
  {
    hide ProcessEntry;
    PopKeepsInv(m.work);
    EntryIsMonotone(env, Popped(m), m.work.fifo[0]);
    var r := ProcessEntry(env, Popped(m), m.work.fifo[0]);
    if !r.Crash? {
      PopThenGrowDecreases(m.work, r.m.work);
      DrainsOne(m.work, r.m.work);
    }
  }

  /** What draining does to a worklist: entries are taken from the front of the history and added to
    * its end; nothing is reordered, repeated or lost. */
  ghost predicate Drains(w: Work, w': Work) {
    && w.popped <= w'.popped
    && w.History() <= w'.History()
    && w.recorded <= w'.recorded
  }

  lemma DrainsOne(w: Work, w': Work)
    requires w.Inv() && w.fifo != [] && Grows(w.Pop().0, w')
    ensures Drains(w, w')
  {
    var p := w.Pop().0;
    assert w.History() == p.History();
    assert w'.History() == w'.popped + w'.fifo;
  }

  lemma DrainsTrans(u: Work, v: Work, w: Work)
    requires Drains(u, v) && Drains(v, w)
    ensures Drains(u, w)
  {
  }

  /** Drains the worklist. The recursion ends because every entry makes progress. */
  ghost function Process(env: Env, m: State): (r: Outcome)
    requires m.Ok() && m.work.Inv()
    ensures r.Keeps(m) && !r.Next?
    decreases Unseen(m.work), |m.work.fifo|
  {
    hide ProcessEntry, Drains, Work.Inv;
    if m.buf.full || m.work.fifo == [] then Done(true, m)
    else
      EntryMakesProgress(env, m);
      match ProcessEntry(env, Popped(m), m.work.fifo[0])
      case Done(_, m') => Process(env, m')
      case r => r
  }

  lemma ProcessOnce(env: Env, m: State)
    requires m.Ok() && m.work.Inv()
    ensures m.buf.full || m.work.fifo == [] ==> Process(env, m) == Done(true, m)
    ensures !m.buf.full && m.work.fifo != [] ==>
              var r := ProcessEntry(env, Popped(m), m.work.fifo[0]);
              && (r.Crash? ==> Process(env, m) == r)
              && (r.Done? ==> r.m.work.Inv() && Process(env, m) == Process(env, r.m))
  {
    hide ProcessEntry, Drains, Work.Inv;
    if !m.buf.full && m.work.fifo != [] { EntryMakesProgress(env, m); }
  }

  /** Every entry is popped at most once and in the order of its first push, whatever happens; and if
    * the output did not overflow, everything ever seen has been popped or was recorded. */
  lemma {:induction false} ProcessedIsClosed(env: Env, m: State)
    requires m.Ok() && m.work.Inv()
    ensures var r := Process(env, m);
            r.Done? ==>
              && r.m.work.Inv() && Drains(m.work, r.m.work) && (m.buf.full ==> r.m.buf.full)
              && (!r.m.buf.full ==> r.m.work.fifo == [] && Closed(r.m.work))
    decreases Unseen(m.work), |m.work.fifo|
  {
    if m.buf.full {
    } else if m.work.fifo == [] {
      EmptyIsClosed(m.work);
    } else {
      hide ProcessEntry, Drains, Work.Inv, Closed;
      EntryMakesProgress(env, m);
      var r := ProcessEntry(env, Popped(m), m.work.fifo[0]);
      if r.Done? {
        ProcessedIsClosed(env, r.m);
        var last := Process(env, r.m);
        if last.Done? { DrainsTrans(m.work, r.m.work, last.m.work); }
      }
    }
  }

  ghost predicate Closed(w: Work) {
    forall k :: k in w.seen ==>
      k in w.recorded || exists i :: 0 <= i < |w.popped| && KeyOf(w.popped[i]) == k
  }

  lemma EmptyIsClosed(w: Work)
    requires w.Inv() && w.fifo == []
    ensures Closed(w)
  {
    assert w.History() == w.popped;
  }

  /** The popped entries are distinct, so no object is processed twice. */
  lemma PoppedOnce(w: Work, i: nat, j: nat)
    requires w.Inv() && i < |w.popped| && j < |w.popped| && KeyOf(w.popped[i]) == KeyOf(w.popped[j])
    ensures i == j
  {
    assert w.History()[i] == w.popped[i] && w.History()[j] == w.popped[j];
  }
}
