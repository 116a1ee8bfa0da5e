/** The framing of the output: entries that carry their length, frames that carry the length of
  * their entries, and a reader that finds them again. */
module Framing {
  import opened Words
  import opened Bytes
  import opened Wrappers
  import opened Worklist
  import opened Buffer
  import opened BufferFacts

  /** The entries es lie in [lo, hi), each behind the other. */
  ghost predicate EntriesAt(mem: seq<u8>, lo: nat, hi: nat, es: seq<QueueEntry>)
    decreases |es|
  {
    if es == [] then lo == hi
    else
      && lo + ENTRY_HEADER <= |mem|
      && HeaderAt(mem, lo) == es[0]
      && EntriesAt(mem, lo + EntrySize(es[0].len), hi, es[1..])
  }

  function EntriesSize(es: seq<QueueEntry>): nat
    decreases |es|
  {
    if es == [] then 0 else EntrySize(es[0].len) + EntriesSize(es[1..])
  }

  /** Reads entries by stepping over each by its length, until exactly hi. */
  function ReadEntries(mem: seq<u8>, lo: nat, hi: nat): Option<seq<QueueEntry>>
    decreases hi - lo
  {
    if lo == hi then Some([])
    else if lo + ENTRY_HEADER > hi || hi > |mem| then None
    else
      var e := HeaderAt(mem, lo);
      match ReadEntries(mem, lo + EntrySize(e.len), hi)
      case None => None
      case Some(rest) => Some([e] + rest)
  }

  /** The frames fs lie in [lo, hi): each a header with the length of its entries, and these. */
  ghost predicate FramesAt(mem: seq<u8>, lo: nat, hi: nat, fs: seq<seq<QueueEntry>>)
    decreases |fs|
  {
    if fs == [] then lo == hi
    else
      var body := lo + FRAME_HEADER;
      && body <= |mem|
      && Read32(mem, lo) == EntriesSize(fs[0])
      && EntriesAt(mem, body, body + EntriesSize(fs[0]), fs[0])
      && FramesAt(mem, body + EntriesSize(fs[0]), hi, fs[1..])
  }

  function FramesSize(fs: seq<seq<QueueEntry>>): nat
    decreases |fs|
  {
    if fs == [] then 0 else FRAME_HEADER + EntriesSize(fs[0]) + FramesSize(fs[1..])
  }

  function ReadFrames(mem: seq<u8>, lo: nat, hi: nat): Option<seq<seq<QueueEntry>>>
    decreases hi - lo
  {
    if lo == hi then Some([])
    else if lo + FRAME_HEADER > hi || hi > |mem| then None
    else
      var body := lo + FRAME_HEADER;
      var end := body + Read32(mem, lo);
      match (ReadEntries(mem, body, end), ReadFrames(mem, end, hi))
      case (Some(es), Some(rest)) => Some([es] + rest)
      case _ => None
  }

  // ---------------------------------------------------------------------------------------
  // The reader finds what is there, and only that

  lemma {:induction false} EntriesEnd(mem: seq<u8>, lo: nat, hi: nat, es: seq<QueueEntry>)
    requires EntriesAt(mem, lo, hi, es)
    ensures hi == lo + EntriesSize(es)
    decreases |es|
  {
    hide HeaderAt, EntrySize;
    if es != [] { EntriesEnd(mem, lo + EntrySize(es[0].len), hi, es[1..]); }
  }

  /** A reader that steps by the lengths recovers the entries, and lands exactly on their end; and
    * whatever it recovers is there. */
  lemma {:induction false} ReadEntriesFinds(mem: seq<u8>, lo: nat, hi: nat, es: seq<QueueEntry>)
    requires hi <= |mem|
    ensures EntriesAt(mem, lo, hi, es) <==> ReadEntries(mem, lo, hi) == Some(es)
    decreases |es|
  {
    hide HeaderAt;
    if es == [] {
    } else if lo < hi && lo + ENTRY_HEADER <= hi {
      var e := HeaderAt(mem, lo);
      var rest := ReadEntries(mem, lo + EntrySize(e.len), hi);
      ReadEntriesFinds(mem, lo + EntrySize(e.len), hi, es[1..]);
      if rest.Some? { assert ([e] + rest.value)[1..] == rest.value; }
      assert [es[0]] + es[1..] == es;
    } else if EntriesAt(mem, lo, hi, es) {
      EntriesEnd(mem, lo, hi, es);
    }
  }

  lemma {:induction false} FramesEnd(mem: seq<u8>, lo: nat, hi: nat, fs: seq<seq<QueueEntry>>)
    requires FramesAt(mem, lo, hi, fs)
    ensures hi == lo + FramesSize(fs)
    decreases |fs|
  {
    hide EntriesAt, Read32;
    if fs != [] { FramesEnd(mem, lo + FRAME_HEADER + EntriesSize(fs[0]), hi, fs[1..]); }
  }

  /** The reader lands exactly on the end of every frame, as its header says, and on hi. */
  lemma {:induction false} ReadFramesFinds(mem: seq<u8>, lo: nat, hi: nat, fs: seq<seq<QueueEntry>>)
    requires hi <= |mem| && FramesAt(mem, lo, hi, fs)
    ensures ReadFrames(mem, lo, hi) == Some(fs)
    decreases |fs|
  {
    hide EntriesAt, Read32;
    FramesEnd(mem, lo, hi, fs);
    if fs != [] {
      var body := lo + FRAME_HEADER;
      ReadEntriesFinds(mem, body, body + EntriesSize(fs[0]), fs[0]);
      ReadFramesFinds(mem, body + EntriesSize(fs[0]), hi, fs[1..]);
      assert [fs[0]] + fs[1..] == fs;
    }
  }

  // ---------------------------------------------------------------------------------------
  // Appending, and writing to data only

  lemma {:induction false} EntriesAppend(mem: seq<u8>, lo: nat, mid: nat, es: seq<QueueEntry>, e: QueueEntry)
    requires EntriesAt(mem, lo, mid, es)
    requires mid + ENTRY_HEADER <= |mem| && HeaderAt(mem, mid) == e
    ensures EntriesAt(mem, lo, mid + EntrySize(e.len), es + [e])
    decreases |es|
  {
    hide HeaderAt, EntrySize;
    if es == [] {
      assert [e][1..] == [];
    } else {
      assert (es + [e])[1..] == es[1..] + [e];
      EntriesAppend(mem, lo + EntrySize(es[0].len), mid, es[1..], e);
    }
  }

  lemma {:induction false} FramesAppend(mem: seq<u8>, lo: nat, mid: nat, fs: seq<seq<QueueEntry>>, f: seq<QueueEntry>)
    requires FramesAt(mem, lo, mid, fs)
    requires mid + FRAME_HEADER <= |mem| && Read32(mem, mid) == EntriesSize(f)
    requires EntriesAt(mem, mid + FRAME_HEADER, mid + FRAME_HEADER + EntriesSize(f), f)
    ensures FramesAt(mem, lo, mid + FRAME_HEADER + EntriesSize(f), fs + [f])
    decreases |fs|
  {
    hide EntriesAt, Read32;
    if fs == [] {
      assert [f][1..] == [];
    } else {
      assert (fs + [f])[1..] == fs[1..] + [f];
      FramesAppend(mem, lo + FRAME_HEADER + EntriesSize(fs[0]), mid, fs[1..], f);
    }
  }

  /** The bytes [off, off + n) hold no header of the entries that start at lo. */
  predicate Avoids(lo: nat, es: seq<QueueEntry>, off: int, n: nat)
    decreases |es|
  {
    es == [] ||
    ((off + n <= lo || lo + ENTRY_HEADER <= off) && Avoids(lo + EntrySize(es[0].len), es[1..], off, n))
  }

  /** Writes that avoid the headers leave the entries as they are. */
  lemma {:induction false} EntriesKept(a: seq<u8>, b: seq<u8>, lo: nat, hi: nat, es: seq<QueueEntry>, off: int, n: nat)
    requires EntriesAt(a, lo, hi, es) && SameOutside(a, b, off, off + n) && Avoids(lo, es, off, n)
    ensures EntriesAt(b, lo, hi, es)
    decreases |es|
  {
    if es != [] {
      HeaderIsLocal(a, b, lo);
      hide HeaderAt, EntrySize, SameOutside;
      EntriesKept(a, b, lo + EntrySize(es[0].len), hi, es[1..], off, n);
    }
  }

  /** Writes at or above hi avoid everything below. */
  lemma {:induction false} AvoidsBelow(lo: nat, es: seq<QueueEntry>, off: nat, n: nat)
    requires lo + EntriesSize(es) <= off
    ensures Avoids(lo, es, off, n)
    decreases |es|
  {
    if es != [] { AvoidsBelow(lo + EntrySize(es[0].len), es[1..], off, n); }
  }

  lemma {:induction false} AvoidsAbove(lo: nat, es: seq<QueueEntry>, off: int, n: nat)
    requires off + n <= lo
    ensures Avoids(lo, es, off, n)
    decreases |es|
  {
    if es != [] { AvoidsAbove(lo + EntrySize(es[0].len), es[1..], off, n); }
  }

  lemma {:induction false} EntriesBelow(a: seq<u8>, b: seq<u8>, lo: nat, hi: nat, es: seq<QueueEntry>)
    requires EntriesAt(a, lo, hi, es) && hi <= |b|
    requires forall i :: lo <= i < hi && i < |a| ==> a[i] == b[i]
    ensures EntriesAt(b, lo, hi, es)
    decreases |es|
  {
    EntriesEnd(a, lo, hi, es);
    if es != [] {
      assert lo + ENTRY_HEADER <= hi by { EntriesEnd(a, lo + EntrySize(es[0].len), hi, es[1..]); }
      HeaderIsLocal(a, b, lo);
      hide HeaderAt;
      EntriesBelow(a, b, lo + EntrySize(es[0].len), hi, es[1..]);
    }
  }

  lemma {:induction false} FramesBelow(a: seq<u8>, b: seq<u8>, lo: nat, hi: nat, fs: seq<seq<QueueEntry>>)
    requires FramesAt(a, lo, hi, fs) && hi <= |b|
    requires forall i :: lo <= i < hi && i < |a| ==> a[i] == b[i]
    ensures FramesAt(b, lo, hi, fs)
    decreases |fs|
  {
    FramesEnd(a, lo, hi, fs);
    if fs != [] {
      var body := lo + FRAME_HEADER;
      var end := body + EntriesSize(fs[0]);
      FramesEnd(a, end, hi, fs[1..]);
      EntriesBelow(a, b, body, end, fs[0]);
      FramesBelow(a, b, end, hi, fs[1..]);
      hide EntriesAt;
    }
  }
}
