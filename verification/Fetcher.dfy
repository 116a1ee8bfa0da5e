/** The cache of snapshot programs: concurrent callers, one fetch per key at a time, and a bounded
  * cache behind a lock. The steps are the sections of the program between which other callers can
  * run. */
module Fetcher {
  type Name = string
  type ProgramId = nat

  datatype Error = Canceled | DeadlineExceeded | Failure

  datatype Result = Ok(program: ProgramId) | Err(error: Error)

  /** The errors of a context that is done. */
  predicate IsCancellation(r: Result) {
    r.Err? && (r.error.Canceled? || r.error.DeadlineExceeded?)
  }

  /** What a caller gets from one round: whether it ran the fetch itself, the result, and whether its
    * own context was still live. */
  datatype Attempt = Attempt(called: bool, result: Result, live: bool)

  /** Someone else's cancellation is no reason to give up. */
  predicate Retries(a: Attempt) {
    IsCancellation(a.result) && !a.called && a.live
  }

  /** The retry loop of one caller, over the rounds to come; none if it is still retrying then. It
    * ends with the first round that gives no reason to retry, and with no later one. */
  method RetryLoop(rounds: seq<Attempt>) returns (last: nat)
    ensures last <= |rounds|
    ensures forall i :: 0 <= i < last ==> Retries(rounds[i])
    ensures last < |rounds| ==> !Retries(rounds[last])
  {
    last := 0;
    while last < |rounds|
      invariant last <= |rounds|
      invariant forall i :: 0 <= i < last ==> Retries(rounds[i])
    {
      var called := rounds[last].called;
      var retry := rounds[last].result.Err? && !called && rounds[last].live && IsCancellation(rounds[last].result);
      if !retry {
        break;
      }
      last := last + 1;
    }
  }

  // ---------------------------------------------------------------------------------------
  // The cache

  function Max(a: int, b: int): int { if a < b then b else a }

  /** The cache with a program inserted. If it was full, just enough others were evicted, whichever
    * they are. */
  ghost predicate Inserted(before: map<Name, ProgramId>, capacity: int, key: Name, p: ProgramId,
                           after: map<Name, ProgramId>) {
    exists kept: map<Name, ProgramId> ::
      && after == kept[key := p]
      && (forall k :: k in kept ==> k in before && kept[k] == before[k])
      && |kept| == if |before| < capacity then |before| else Max(capacity - 1, 0)
  }

  class Cache {
    var cache: map<Name, ProgramId>
    const maxCapacity: int

    method GetCached(key: Name) returns (p: ProgramId, ok: bool)
      ensures ok == (key in cache) && (ok ==> p == cache[key])
    {
      ok := key in cache;
      p := if ok then cache[key] else 0;
    }

    /** Evicts programs until there is room, and inserts one. */
    method Insert(key: Name, p: ProgramId)
      requires |cache| <= Max(maxCapacity, 1)
      modifies this
      ensures Inserted(old(cache), maxCapacity, key, p, cache)
      ensures |cache| <= Max(maxCapacity, 1)
    {
      ghost var before := cache;
      while |cache| >= maxCapacity && |cache| > 0
        invariant forall k :: k in cache ==> k in before && cache[k] == before[k]
        invariant |before| < maxCapacity ==> cache == before
        invariant |before| >= maxCapacity ==> |cache| >= Max(maxCapacity - 1, 0)
        invariant |cache| <= |before|
        decreases |cache|
      {
        var k :| k in cache;
        SizeWithout(cache, k);
        cache := cache - {k};
      }
      assert |cache| == if |before| < maxCapacity then |before| else Max(maxCapacity - 1, 0);
      SizeWith(cache, key, p);
      cache := cache[key := p];
    }
  }

  lemma SizeWithout(m: map<Name, ProgramId>, k: Name)
    requires k in m
    ensures |m - {k}| == |m| - 1
  {
    assert (m - {k}).Keys == m.Keys - {k};
    assert |m| == |m.Keys| && |m - {k}| == |(m - {k}).Keys|;
  }

  lemma SizeWith(m: map<Name, ProgramId>, k: Name, p: ProgramId)
    ensures |m[k := p]| <= |m| + 1
  {
    assert m[k := p].Keys == m.Keys + {k};
    assert |m| == |m.Keys| && |m[k := p]| == |m[k := p].Keys|;
  }

  lemma InsertedFits(before: map<Name, ProgramId>, capacity: int, key: Name, p: ProgramId, after: map<Name, ProgramId>)
    requires Inserted(before, capacity, key, p, after)
    ensures |after| <= Max(capacity, 1)
    ensures forall k :: k in after && k != key ==> k in before && after[k] == before[k]
    ensures key in after && after[key] == p
  {
    var kept: map<Name, ProgramId> :|
      && after == kept[key := p]
      && (forall k :: k in kept ==> k in before && kept[k] == before[k])
      && |kept| == if |before| < capacity then |before| else Max(capacity - 1, 0);
    SizeWith(kept, key, p);
  }

  // ---------------------------------------------------------------------------------------
  // The callers

  /** Where a caller is. Leading, Storing and Finishing run the fetch of a flight; Waiting waits for
    * the flight of another caller. In Deciding and Returned, called says whether the caller ran the
    * fetch itself. */
  datatype Phase =
    | Lookup
    | Joining
    | Leading(flight: nat)
    | Storing(flight: nat, program: ProgramId)
    | Finishing(flight: nat, result: Result)
    | Waiting(flight: nat)
    | Deciding(called: bool, result: Result)
    | Returned(called: bool, result: Result)
  {
    predicate Leads(f: nat) {
      (Leading? || Storing? || Finishing?) && flight == f
    }
  }

  datatype Call = Call(key: Name, phase: Phase)

  datatype Flight = Flight(id: nat, leader: nat)
  datatype Landed = Landed(key: Name, result: Result)

  /** The flights in the air by key, and the results of those that ended. The history fetched holds
    * the results of all fetches made. */
  datatype System = System(
    capacity: int,
    cache: map<Name, ProgramId>,
    calls: map<nat, Call>,
    live: set<nat>,
    inFlight: map<Name, Flight>,
    landed: map<nat, Landed>,
    next: nat,
    fetched: set<Landed>)
  {
    function Key(c: nat): Name
      requires c in calls
    {
      calls[c].key
    }

    function Phase(c: nat): Phase
      requires c in calls
    {
      calls[c].phase
    }

    function Goto(c: nat, p: Phase): System
      requires c in calls
    {
      this.(calls := calls[c := Call(calls[c].key, p)])
    }
  }

  function Initial(capacity: int): System {
    System(capacity, map[], map[], {}, map[], map[], 0, {})
  }

  datatype Step =
    | Begin(c: nat, key: Name)
    | Cancel(c: nat)
    | Look(c: nat)
    | Join(c: nat)
    | Fetch(c: nat, r: Result)
    | Store(c: nat)
    | Land(c: nat)
    | Wake(c: nat)
    | Decide(c: nat)

  /** One step of a caller, or the end of its context. */
  ghost predicate Next(s: System, step: Step, t: System) {
    match step
    case Begin(c, key) => c !in s.calls && t == s.(calls := s.calls[c := Call(key, Lookup)], live := s.live + {c})
    case Cancel(c) => t == s.(live := s.live - {c})
    case Look(c) =>
      && c in s.calls && s.Phase(c).Lookup?
      && t == s.Goto(c, if s.Key(c) in s.cache then Returned(false, Ok(s.cache[s.Key(c)])) else Joining)
    case Join(c) =>
      && c in s.calls && s.Phase(c).Joining?
      && t == if s.Key(c) in s.inFlight then s.Goto(c, Waiting(s.inFlight[s.Key(c)].id))
              else
                s.Goto(c, Leading(s.next)).(inFlight := s.inFlight[s.Key(c) := Flight(s.next, c)], next := s.next + 1)
    case Fetch(c, r) =>
      && c in s.calls && s.Phase(c).Leading?
      && t == s.Goto(c, if r.Ok? then Storing(s.Phase(c).flight, r.program) else Finishing(s.Phase(c).flight, r))
               .(fetched := s.fetched + {Landed(s.Key(c), r)})
    case Store(c) =>
      && c in s.calls && s.Phase(c).Storing?
      && Inserted(s.cache, s.capacity, s.Key(c), s.Phase(c).program, t.cache)
      && t == s.Goto(c, Finishing(s.Phase(c).flight, Ok(s.Phase(c).program))).(cache := t.cache)
    case Land(c) =>
      && c in s.calls && s.Phase(c).Finishing?
      && t == s.Goto(c, Deciding(true, s.Phase(c).result))
               .(inFlight := s.inFlight - {s.Key(c)},
                 landed := s.landed[s.Phase(c).flight := Landed(s.Key(c), s.Phase(c).result)])
    case Wake(c) =>
      && c in s.calls && s.Phase(c).Waiting? && s.Phase(c).flight in s.landed
      && t == s.Goto(c, Deciding(false, s.landed[s.Phase(c).flight].result))
    case Decide(c) =>
      && c in s.calls && s.Phase(c).Deciding?
      && var d := s.Phase(c);
         var retry := Retries(Attempt(d.called, d.result, c in s.live));
         t == s.Goto(c, if retry then Joining else Returned(d.called, d.result))
  }

  // ---------------------------------------------------------------------------------------
  // What every step keeps

  /** Every program in the cache came from a fetch of its key. */
  ghost predicate CacheInv(s: System) {
    && |s.cache| <= Max(s.capacity, 1)
    && forall k :: k in s.cache ==> Landed(k, Ok(s.cache[k])) in s.fetched
  }

  /** A caller holds only results of fetches of its own key; and if it gave up because of someone
    * else's cancellation, its own context was done. */
  ghost predicate CallInv(s: System, c: nat)
    requires c in s.calls
  {
    match s.Phase(c)
    case Storing(_, p) => Landed(s.Key(c), Ok(p)) in s.fetched
    case Finishing(_, r) => Landed(s.Key(c), r) in s.fetched
    case Deciding(_, r) => Landed(s.Key(c), r) in s.fetched
    case Returned(called, r) =>
      Landed(s.Key(c), r) in s.fetched && (IsCancellation(r) && !called ==> c !in s.live)
    case Waiting(f) => Expected(s, s.Key(c), f)
    case _ => true
  }

  /** The flight that a caller of the key waits for is in the air or has landed. */
  ghost predicate Expected(s: System, key: Name, f: nat) {
    || (key in s.inFlight && s.inFlight[key].id == f)
    || (f in s.landed && s.landed[f].key == key)
  }

  /** A flight in the air has a leader that fetches its key. */
  ghost predicate InAir(s: System, k: Name)
    requires k in s.inFlight
  {
    var f := s.inFlight[k];
    && f.id < s.next && f.id !in s.landed
    && f.leader in s.calls && s.calls[f.leader].key == k && s.calls[f.leader].phase.Leads(f.id)
  }

  /** A caller that leads is the leader of the one flight for its key. */
  ghost predicate Leader(s: System, c: nat)
    requires c in s.calls
  {
    var p := s.calls[c].phase;
    p.Leading? || p.Storing? || p.Finishing? ==>
      s.calls[c].key in s.inFlight && s.inFlight[s.calls[c].key] == Flight(p.flight, c)
  }

  /** The flights in the air are exactly those that some caller leads: one for each key. */
  ghost predicate FlightInv(s: System) {
    && (forall k :: k in s.inFlight ==> InAir(s, k))
    && (forall c :: c in s.calls ==> Leader(s, c))
    && (forall k, l :: k in s.inFlight && l in s.inFlight && s.inFlight[k].id == s.inFlight[l].id ==> k == l)
    && (forall f :: f in s.landed ==> f < s.next && s.landed[f] in s.fetched)
  }

  ghost predicate Inv(s: System) {
    && CacheInv(s)
    && FlightInv(s)
    && s.live <= s.calls.Keys
    && forall c :: c in s.calls ==> CallInv(s, c)
  }

  lemma InitialInv(capacity: int)
    ensures Inv(Initial(capacity))
  {
  }

  lemma StepKeepsCache(s: System, step: Step, t: System)
    requires Inv(s) && Next(s, step, t)
    ensures CacheInv(t)
  {
    if step.Store? {
      InsertedFits(s.cache, s.capacity, s.Key(step.c), s.Phase(step.c).program, t.cache);
      assert CallInv(s, step.c);
    }
  }

  lemma StepKeepsAir(s: System, step: Step, t: System, k: Name)
    requires FlightInv(s) && Next(s, step, t) && k in t.inFlight
    ensures InAir(t, k)
  {
    hide Inserted, FlightInv;
    if step.Begin? || step.Cancel? {
      assert InAir(s, k) by { FlightFacts(s, k, 0); }
    } else {
      assert Leader(s, step.c) by { FlightFacts(s, k, step.c); }
      if k in s.inFlight {
        assert InAir(s, k) by { FlightFacts(s, k, 0); }
        assert s.Key(step.c) in s.inFlight && s.inFlight[s.Key(step.c)].id == s.inFlight[k].id ==> k == s.Key(step.c)
        by {
          if s.Key(step.c) in s.inFlight && s.inFlight[s.Key(step.c)].id == s.inFlight[k].id {
            IdsDiffer(s, k, s.Key(step.c));
          }
        }
      } else {
        assert s.next !in s.landed by { NextIsNew(s); }
      }
    }
  }

  lemma IdsDiffer(s: System, k: Name, l: Name)
    requires FlightInv(s) && k in s.inFlight && l in s.inFlight && s.inFlight[k].id == s.inFlight[l].id
    ensures k == l
  {
  }

  lemma StepKeepsIds(s: System, step: Step, t: System, k: Name, l: Name)
    requires FlightInv(s) && Next(s, step, t)
    requires k in t.inFlight && l in t.inFlight && t.inFlight[k].id == t.inFlight[l].id
    ensures k == l
  {
    hide Inserted, FlightInv, InAir;
    if k in s.inFlight { AirIsEarlier(s, k); }
    if l in s.inFlight { AirIsEarlier(s, l); }
    if k in s.inFlight && l in s.inFlight && s.inFlight[k].id == s.inFlight[l].id { IdsDiffer(s, k, l); }
  }

  lemma FlightFacts(s: System, k: Name, c: nat)
    requires FlightInv(s)
    ensures k in s.inFlight ==> InAir(s, k)
    ensures c in s.calls ==> Leader(s, c)
  {
    hide InAir, Leader;
  }

  lemma StepKeepsLeader(s: System, step: Step, t: System, c: nat)
    requires FlightInv(s) && Next(s, step, t) && c in t.calls
    ensures Leader(t, c)
  {
    hide Inserted, FlightInv;
    if c in s.calls {
      FlightFacts(s, s.calls[c].key, c);
      if step.c in s.calls { FlightFacts(s, s.calls[step.c].key, step.c); }
    }
  }

  lemma StepKeepsLanded(s: System, step: Step, t: System, f: nat)
    requires Inv(s) && Next(s, step, t) && f in t.landed
    ensures f < t.next && t.landed[f] in t.fetched
  {
    hide Inserted, InAir;
    if step.Land? {
      assert CallInv(s, step.c);
      assert Leader(s, step.c);
      assert InAir(s, s.Key(step.c)) && s.inFlight[s.Key(step.c)].id < s.next by { AirIsEarlier(s, s.Key(step.c)); }
    }
    hide Leader;
  }

  lemma AirIsEarlier(s: System, k: Name)
    requires FlightInv(s) && k in s.inFlight
    ensures InAir(s, k) && s.inFlight[k].id < s.next
  {
  }

  lemma StepKeepsFlights(s: System, step: Step, t: System)
    requires Inv(s) && Next(s, step, t)
    ensures FlightInv(t)
  {
    hide Next, Inv, InAir, Leader;
    assert FlightInv(s) by { InvParts(s); }
    forall k | k in t.inFlight ensures InAir(t, k) { StepKeepsAir(s, step, t, k); }
    forall c | c in t.calls ensures Leader(t, c) { StepKeepsLeader(s, step, t, c); }
    forall k, l | k in t.inFlight && l in t.inFlight && t.inFlight[k].id == t.inFlight[l].id ensures k == l {
      StepKeepsIds(s, step, t, k, l);
    }
    forall f | f in t.landed ensures f < t.next && t.landed[f] in t.fetched { StepKeepsLanded(s, step, t, f); }
  }

  lemma InvParts(s: System)
    requires Inv(s)
    ensures FlightInv(s) && CacheInv(s)
  {
  }

  lemma StepKeepsCall(s: System, step: Step, t: System, c: nat)
    requires Inv(s) && Next(s, step, t) && c in t.calls && !(c in s.calls && s.Phase(c).Waiting?)
    ensures CallInv(t, c)
  {
    hide Inserted, FlightInv, CacheInv;
    if c in s.calls {
      assert CallInv(s, c);
      if step.Look? && s.Key(c) in s.cache { CacheFacts(s, s.Key(c)); }
    }
    hide Inv, Expected;
  }

  lemma CacheFacts(s: System, k: Name)
    requires CacheInv(s) && k in s.cache
    ensures Landed(k, Ok(s.cache[k])) in s.fetched
  {
  }

  lemma StepKeepsWaiter(s: System, step: Step, t: System, c: nat)
    requires Inv(s) && Next(s, step, t) && c in s.calls && s.Phase(c).Waiting?
    ensures c in t.calls && CallInv(t, c)
  {
    hide Inserted, FlightInv, CacheInv, InAir, Leader;
    var f := s.Phase(c).flight;
    assert CallInv(s, c);
    if s.Key(c) in s.inFlight { AirIsEarlier(s, s.Key(c)); }
    if step.Wake? && step.c == c {
      assert f in s.landed && s.landed[f] in s.fetched by { LandedFacts(s, f); }
      assert s.Key(c) in s.inFlight ==> s.inFlight[s.Key(c)].id !in s.landed by { AirNotLanded(s, s.Key(c)); }
    } else if step.Land? {
      FlightFacts(s, s.Key(c), step.c);
      assert Leader(s, step.c);
      LandKeepsExpected(s, step, t, s.Key(c), f);
    }
  }

  lemma LandKeepsExpected(s: System, step: Step, t: System, k: Name, f: nat)
    requires FlightInv(s) && Next(s, step, t) && step.Land? && Expected(s, k, f)
    ensures Expected(t, k, f)
  {
    FlightFacts(s, s.Key(step.c), step.c);
    FlightFacts(s, k, step.c);
    hide FlightInv;
  }

  lemma LandedFacts(s: System, f: nat)
    requires FlightInv(s) && f in s.landed
    ensures s.landed[f] in s.fetched
  {
  }

  lemma NextIsNew(s: System)
    requires FlightInv(s)
    ensures s.next !in s.landed
  {
  }

  lemma AirNotLanded(s: System, k: Name)
    requires FlightInv(s)
    ensures k in s.inFlight ==> s.inFlight[k].id !in s.landed
  {
  }

  /** Every step of every caller keeps the invariant. */
  lemma StepKeepsInv(s: System, step: Step, t: System)
    requires Inv(s) && Next(s, step, t)
    ensures Inv(t)
  {
    StepKeepsCache(s, step, t);
    StepKeepsFlights(s, step, t);
    forall c | c in t.calls ensures CallInv(t, c) {
      if c in s.calls && s.Phase(c).Waiting? { StepKeepsWaiter(s, step, t, c); } else { StepKeepsCall(s, step, t, c); }
    }
    assert t.live <= t.calls.Keys by { hide Inserted; }
  }

  /** A run from the empty cache, with the steps of any number of callers in any order. */
  ghost predicate Run(capacity: int, states: seq<System>, steps: seq<Step>) {
    && |states| == |steps| + 1
    && states[0] == Initial(capacity)
    && forall i :: 0 <= i < |steps| ==> Next(states[i], steps[i], states[i + 1])
  }

  lemma {:induction false} RunKeepsInv(capacity: int, states: seq<System>, steps: seq<Step>, k: nat)
    requires Run(capacity, states, steps) && k < |states|
    ensures Inv(states[k]) && states[k].capacity == capacity
  {
    hide Inv, Next;
    if k == 0 {
      InitialInv(capacity);
    } else {
      RunKeepsInv(capacity, states, steps, k - 1);
      assert Next(states[k - 1], steps[k - 1], states[k - 1 + 1]);
      StepKeepsInv(states[k - 1], steps[k - 1], states[k]);
      CapacityIsFixed(states[k - 1], steps[k - 1], states[k]);
    }
  }

  lemma CapacityIsFixed(s: System, step: Step, t: System)
    requires Next(s, step, t)
    ensures t.capacity == s.capacity
  {
    hide Inserted;
  }

  predicate Fetching(s: System, c: nat) {
    c in s.calls && s.Phase(c).Leading?
  }

  /** In every state that any callers can reach together: the cache is bounded, and what it holds was
    * fetched by its key; at most one caller fetches a key; and a caller that returned has the result
    * of a fetch of its key, which is not someone else's cancellation unless its own context is done. */
  lemma EveryStateIsSafe(capacity: int, states: seq<System>, steps: seq<Step>, k: nat)
    requires Run(capacity, states, steps) && k < |states|
    ensures var s := states[k];
            && |s.cache| <= Max(1, capacity)
            && (forall key :: key in s.cache ==> Landed(key, Ok(s.cache[key])) in s.fetched)
            && (forall c, d :: Fetching(s, c) && Fetching(s, d) && s.Key(c) == s.Key(d) ==> c == d)
            && (forall c :: c in s.calls && s.Phase(c).Returned? ==>
                  && Landed(s.Key(c), s.Phase(c).result) in s.fetched
                  && (c in s.live && IsCancellation(s.Phase(c).result) ==> s.Phase(c).called))
  {
    RunKeepsInv(capacity, states, steps, k);
    var s := states[k];
    forall c | c in s.calls && s.Phase(c).Returned?
      ensures Landed(s.Key(c), s.Phase(c).result) in s.fetched
      ensures c in s.live && IsCancellation(s.Phase(c).result) ==> s.Phase(c).called
    {
      assert CallInv(s, c);
    }
  }

  /** No caller waits for nothing: the flight it waits for has landed, so that it can go on, or has a
    * leader, which can. */
  lemma WaitersAreServed(capacity: int, states: seq<System>, steps: seq<Step>, k: nat, c: nat)
    returns (step: Step, t: System)
    requires Run(capacity, states, steps) && k < |states|
    requires c in states[k].calls && states[k].Phase(c).Waiting?
    ensures var s := states[k];
            && Next(s, step, t)
            && (step == Wake(c)
                || (s.Key(c) in s.inFlight && step.c == s.inFlight[s.Key(c)].leader
                    && (step.Fetch? || step.Store? || step.Land?)))
  {
    RunKeepsInv(capacity, states, steps, k);
    var s := states[k];
    assert CallInv(s, c);
    var f := s.Phase(c).flight;
    if f in s.landed {
      step, t := Wake(c), s.Goto(c, Deciding(false, s.landed[f].result));
    } else {
      var leader := s.inFlight[s.Key(c)].leader;
      match s.Phase(leader) {
        case Leading(g) =>
          step := Fetch(leader, Err(Failure));
          t := s.Goto(leader, Finishing(g, Err(Failure)))
               .(fetched := s.fetched + {Landed(s.Key(leader), Err(Failure))});
        case Storing(g, p) =>
          step := Store(leader);
          var cache := SomeInsertion(s.cache, s.capacity, s.Key(leader), p);
          t := s.Goto(leader, Finishing(g, Ok(p))).(cache := cache);
        case Finishing(g, r) =>
          step := Land(leader);
          t := s.Goto(leader, Deciding(true, r)).(inFlight := s.inFlight - {s.Key(leader)},
                                                 landed := s.landed[g := Landed(s.Key(leader), r)]);
      }
    }
  }

  lemma SomeInsertion(before: map<Name, ProgramId>, capacity: int, key: Name, p: ProgramId)
    returns (after: map<Name, ProgramId>)
    requires |before| <= Max(capacity, 1)
    ensures Inserted(before, capacity, key, p, after)
  {
    var kept := before;
    while |kept| >= capacity && |kept| > 0
      invariant forall k :: k in kept ==> k in before && kept[k] == before[k]
      invariant |before| < capacity ==> kept == before
      invariant |before| >= capacity ==> |kept| >= Max(capacity - 1, 0)
      invariant |kept| <= |before|
    {
      var k :| k in kept;
      SizeWithout(kept, k);
      kept := kept - {k};
    }
    after := kept[key := p];
  }
}
