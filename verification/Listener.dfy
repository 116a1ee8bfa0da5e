/** The listener that dials: its goroutine, the callers of Accept and Close, and the callers that
  * close the connections, as steps between which the others can run. */
module Listener {
  datatype Status = UnknownStatus | Connected | Disconnected | Connecting

  /** Where the dialling goroutine is. */
  datatype Phase =
    | Starting
    | Waiting                // until the next attempt
    | Dialing
    | Greeting(conn: nat)    // writing the header
    | Announcing(conn: nat)
    | Sending(conn: nat)     // until someone accepts the connection
    | Holding(conn: nat)     // until the connection is closed
    | Resuming
    | Returning
    | Finishing
    | Exited
  {
    /** No connection is in use, and another one may be dialled. */
    predicate Idle() { Starting? || Waiting? || Dialing? || Resuming? }

    predicate Busy() { Greeting? || Announcing? || Sending? || Holding? }

    predicate Uses(c: nat) { Busy() && conn == c }
  }

  datatype Once = Fresh | Running(closer: nat) | Done

  /** A dialled connection: whether it was closed, its once, how often its channel was closed, and the
    * error of closing it. */
  datatype Conn = Conn(closed: bool, once: Once, channelCloses: nat, err: int)

  /** Where a caller of Close of a connection is. */
  datatype CloserPhase = Calling | ClosingConn | ClosingChannel | Ending | Blocked | Left(err: int)

  datatype Closer = Closer(conn: nat, phase: CloserPhase) {
    predicate InBody() { phase.ClosingConn? || phase.ClosingChannel? || phase.Ending? }
  }

  datatype System = System(
    phase: Phase,
    status: Status,
    canceled: bool,
    done: bool,
    conns: map<nat, Conn>,
    last: nat,                  // the connection dialled last
    accepted: set<nat>,
    closers: map<nat, Closer>,
    closing: set<nat>,          // callers of the listener's Close
    returned: set<nat>)         // those that have returned
  {
    function Update(c: nat, conn: Conn, k: nat, p: CloserPhase): System {
      this.(conns := conns[c := conn], closers := closers[k := Closer(c, p)])
    }
  }

  const INITIAL := System(Starting, UnknownStatus, false, false, map[], 0, {}, map[], {}, {})

  datatype Step =
    | Start | Quit | Dial | DialFails | DialSucceeds(c: nat) | HeaderFails | HeaderSucceeds | Announce | Accept
    | Drop | Resume | Abandon | Disconnect | Finish
    | CloseListener(k: nat) | ListenerCloses(k: nat)
    | CloseConn(k: nat, c: nat) | EnterOnce(k: nat) | CloseRaw(k: nat, err: int) | CloseChannel(k: nat)
    | EndOnce(k: nat)
    | Unblock(k: nat)

  /** The dialling goroutine. It returns, and then sets the status and signals done, only when the
    * listener was closed; while it waits for someone to accept it does not notice that. */
  ghost predicate RunNext(s: System, step: Step, t: System) {
    match step
    case Start => s.phase.Starting? && t == s.(phase := Waiting, status := Connecting)
    case Quit => s.phase.Waiting? && s.canceled && t == s.(phase := Returning)
    case Dial => s.phase.Waiting? && t == s.(phase := Dialing)
    case DialFails => s.phase.Dialing? && t == s.(phase := Waiting)
    case DialSucceeds(c) =>
      && s.phase.Dialing? && c !in s.conns
      && t == s.(phase := Greeting(c), conns := s.conns[c := Conn(false, Fresh, 0, 0)], last := c)
    case HeaderFails =>
      && s.phase.Greeting? && s.phase.conn in s.conns
      && t == s.(phase := Waiting, conns := s.conns[s.phase.conn := s.conns[s.phase.conn].(closed := true)])
    case HeaderSucceeds => s.phase.Greeting? && t == s.(phase := Announcing(s.phase.conn))
    case Announce => s.phase.Announcing? && t == s.(phase := Sending(s.phase.conn), status := Connected)
    case Accept => s.phase.Sending? && t == s.(phase := Holding(s.phase.conn), accepted := s.accepted + {s.phase.conn})
    case Drop =>
      && s.phase.Holding? && s.phase.conn in s.conns && s.conns[s.phase.conn].channelCloses > 0
      && t == s.(phase := Resuming)
    case Resume => s.phase.Resuming? && t == s.(phase := Waiting, status := Connecting)
    case Abandon => s.phase.Holding? && s.canceled && t == s.(phase := Returning)
    case Disconnect => s.phase.Returning? && t == s.(phase := Finishing, status := Disconnected)
    case Finish => s.phase.Finishing? && t == s.(phase := Exited, done := true)
    case _ => false
  }

  /** Callers of Close of the listener, and of the connections. */
  ghost predicate CloserNext(s: System, step: Step, t: System) {
    match step
    case CloseListener(k) => k !in s.closing && t == s.(canceled := true, closing := s.closing + {k})
    case ListenerCloses(k) => k in s.closing && s.done && t == s.(returned := s.returned + {k})
    case CloseConn(k, c) =>
      k !in s.closers && c in s.accepted && t == s.(closers := s.closers[k := Closer(c, Calling)])
    case EnterOnce(k) =>
      && k in s.closers && s.closers[k].phase.Calling? && s.closers[k].conn in s.conns
      && var c := s.closers[k].conn;
         var conn := s.conns[c];
         (match conn.once
          case Fresh => t == s.Update(c, conn.(once := Running(k)), k, ClosingConn)
          case Running(_) => t == s.Update(c, conn, k, Blocked)
          case Done => t == s.Update(c, conn, k, Left(conn.err)))
    case CloseRaw(k, err) =>
      && k in s.closers && s.closers[k].phase.ClosingConn? && s.closers[k].conn in s.conns
      && t == s.Update(s.closers[k].conn, s.conns[s.closers[k].conn].(closed := true, err := err), k, ClosingChannel)
    case CloseChannel(k) =>
      && k in s.closers && s.closers[k].phase.ClosingChannel? && s.closers[k].conn in s.conns
      && var conn := s.conns[s.closers[k].conn];
         t == s.Update(s.closers[k].conn, conn.(channelCloses := conn.channelCloses + 1), k, Ending)
    case EndOnce(k) =>
      && k in s.closers && s.closers[k].phase.Ending? && s.closers[k].conn in s.conns
      && var conn := s.conns[s.closers[k].conn];
         t == s.Update(s.closers[k].conn, conn.(once := Done), k, Left(conn.err))
    case Unblock(k) =>
      && k in s.closers && s.closers[k].phase.Blocked? && s.closers[k].conn in s.conns
      && s.conns[s.closers[k].conn].once.Done?
      && t == s.Update(s.closers[k].conn, s.conns[s.closers[k].conn], k, Left(s.conns[s.closers[k].conn].err))
    case _ => false
  }

  ghost predicate Next(s: System, step: Step, t: System) {
    RunNext(s, step, t) || CloserNext(s, step, t)
  }

  // ---------------------------------------------------------------------------------------
  // What every step keeps

  ghost predicate ClosedUnlessLast(s: System, c: nat)
    requires c in s.conns
  {
    s.conns[c].closed || (c == s.last && !s.phase.Idle())
  }

  /** Only the connection dialled last may be unclosed, and none is while the goroutine is idle. */
  ghost predicate DialInv(s: System) {
    && (forall c :: c in s.conns ==> ClosedUnlessLast(s, c))
    && (s.phase.Uses(s.last) ==> s.last in s.conns && (s.last in s.accepted <==> s.phase.Holding?))
    && (s.phase.Busy() ==> s.phase.Uses(s.last))
    && s.accepted <= s.conns.Keys
  }

  /** The channel of a connection is closed once, by whoever runs the once, after the connection. */
  ghost predicate ConnInv(s: System, c: nat)
    requires c in s.conns
  {
    var conn := s.conns[c];
    match conn.once
    case Fresh => conn.channelCloses == 0
    case Running(k) =>
      && k in s.closers && s.closers[k].conn == c && s.closers[k].InBody()
      && (!s.closers[k].phase.ClosingConn? ==> conn.closed)
      && conn.channelCloses == if s.closers[k].phase.Ending? then 1 else 0
    case Done => conn.closed && conn.channelCloses == 1
  }

  ghost predicate CloserInv(s: System, k: nat)
    requires k in s.closers
  {
    var c := s.closers[k].conn;
    && c in s.accepted && c in s.conns
    && (s.closers[k].InBody() ==> s.conns[c].once == Running(k))
    && (s.closers[k].phase.Left? ==> s.conns[c].once.Done? && s.closers[k].phase.err == s.conns[c].err)
  }

  ghost predicate StatusInv(s: System) {
    && (s.done ==> s.phase.Exited?)
    && (s.phase.Finishing? || s.phase.Exited? ==> s.status.Disconnected?)
    && (s.status.Connected? ==> s.phase.Sending? || s.phase.Holding? || s.phase.Resuming? || s.phase.Returning?)
    && (s.phase.Sending? || s.phase.Holding? ==> s.status.Connected?)
    && (s.returned != {} ==> s.done && s.canceled)
    && (s.closing != {} ==> s.canceled)
    && s.returned <= s.closing
    && (s.phase.Returning? || s.phase.Finishing? || s.phase.Exited? ==> s.canceled)
  }

  ghost predicate Inv(s: System) {
    && DialInv(s)
    && (forall c :: c in s.conns ==> ConnInv(s, c))
    && (forall k :: k in s.closers ==> CloserInv(s, k))
    && StatusInv(s)
  }

  lemma RunKeepsClosed(s: System, step: Step, t: System, c: nat)
    requires Inv(s) && RunNext(s, step, t) && c in t.conns
    ensures ClosedUnlessLast(t, c)
  {
    hide StatusInv, CloserInv;
    if step.Drop? { assert ConnInv(s, s.phase.conn); }
    hide ConnInv;
    if c in s.conns { assert ClosedUnlessLast(s, c); }
  }

  lemma RunKeepsDials(s: System, step: Step, t: System)
    requires Inv(s) && RunNext(s, step, t)
    ensures DialInv(t)
  {
    forall c | c in t.conns ensures ClosedUnlessLast(t, c) { RunKeepsClosed(s, step, t, c); }
    hide ConnInv, CloserInv, StatusInv, ClosedUnlessLast;
    assert step.DialSucceeds? ==> step.c !in s.accepted;
  }

  lemma ClosersKeepDials(s: System, step: Step, t: System)
    requires DialInv(s) && CloserNext(s, step, t)
    ensures DialInv(t)
  {
    assert t.phase == s.phase && t.last == s.last && t.accepted == s.accepted;
    assert t.conns.Keys == s.conns.Keys;
    forall c | c in t.conns ensures ClosedUnlessLast(t, c) { assert ClosedUnlessLast(s, c); }
    hide CloserNext;
  }

  lemma StepKeepsDials(s: System, step: Step, t: System)
    requires Inv(s) && Next(s, step, t)
    ensures DialInv(t)
  {
    hide RunNext, CloserNext, DialInv, ConnInv, CloserInv;
    if RunNext(s, step, t) { RunKeepsDials(s, step, t); } else { ClosersKeepDials(s, step, t); }
  }

  lemma RunKeepsConn(s: System, step: Step, t: System, c: nat)
    requires Inv(s) && RunNext(s, step, t) && c in t.conns
    ensures ConnInv(t, c)
  {
    hide CloserInv, StatusInv;
    if c in s.conns { assert ConnInv(s, c); }
    hide Inv;
  }

  /** The caller k that makes a step of its own. */
  predicate Moves(step: Step, k: nat) {
    (step.EnterOnce? || step.CloseRaw? || step.CloseChannel? || step.EndOnce? || step.Unblock?) && step.k == k
  }

  lemma ClosersKeepConn(s: System, step: Step, t: System, c: nat)
    requires CloserNext(s, step, t) && c in t.conns
    requires c in s.conns ==> ConnInv(s, c)
    requires forall k :: k in s.closers && Moves(step, k) ==> CloserInv(s, k)
    ensures ConnInv(t, c)
  {
    if Moves(step, step.k) { assert CloserInv(s, step.k); }
  }

  lemma StepKeepsConn(s: System, step: Step, t: System, c: nat)
    requires Inv(s) && Next(s, step, t) && c in t.conns
    ensures ConnInv(t, c)
  {
    hide RunNext, CloserNext, DialInv, ConnInv, CloserInv, StatusInv;
    if RunNext(s, step, t) { RunKeepsConn(s, step, t, c); } else { ClosersKeepConn(s, step, t, c); }
  }

  lemma RunKeepsCloser(s: System, step: Step, t: System, k: nat)
    requires k in s.closers && CloserInv(s, k) && DialInv(s) && RunNext(s, step, t)
    ensures k in t.closers && CloserInv(t, k)
  {
    if step.HeaderFails? { assert s.phase.conn == s.last && s.last !in s.accepted; }
    hide DialInv;
  }

  lemma ClosersKeepCloser(s: System, step: Step, t: System, k: nat)
    requires CloserNext(s, step, t) && k in t.closers
    requires k in s.closers ==> CloserInv(s, k)
    requires forall i :: i in s.closers && Moves(step, i) ==> CloserInv(s, i)
    requires s.accepted <= s.conns.Keys
    ensures CloserInv(t, k)
  {
    if Moves(step, step.k) { assert CloserInv(s, step.k); }
  }

  lemma StepKeepsCloser(s: System, step: Step, t: System, k: nat)
    requires Inv(s) && Next(s, step, t) && k in t.closers
    ensures CloserInv(t, k)
  {
    hide CloserNext, ConnInv, CloserInv, StatusInv;
    if RunNext(s, step, t) {
      assert k in s.closers;
      hide RunNext, DialInv;
      RunKeepsCloser(s, step, t, k);
    } else {
      assert s.accepted <= s.conns.Keys;
      hide RunNext, DialInv;
      ClosersKeepCloser(s, step, t, k);
    }
  }

  lemma StepKeepsStatus(s: System, step: Step, t: System)
    requires StatusInv(s) && Next(s, step, t)
    ensures StatusInv(t)
    ensures s.done ==> t.done
  {
  }

  lemma StepKeepsInv(s: System, step: Step, t: System)
    requires Inv(s) && Next(s, step, t)
    ensures Inv(t) && (s.done ==> t.done) && s.returned <= t.returned
  {
    StepKeepsDials(s, step, t);
    forall c | c in t.conns ensures ConnInv(t, c) { StepKeepsConn(s, step, t, c); }
    forall k | k in t.closers ensures CloserInv(t, k) { StepKeepsCloser(s, step, t, k); }
    StepKeepsStatus(s, step, t);
  }

  /** A run of the listener, with any callers in any order. */
  ghost predicate Run(states: seq<System>, steps: seq<Step>) {
    && |states| == |steps| + 1
    && states[0] == INITIAL
    && forall i :: 0 <= i < |steps| ==> Next(states[i], steps[i], states[i + 1])
  }

  lemma {:induction false} RunKeepsInv(states: seq<System>, steps: seq<Step>, k: nat)
    requires Run(states, steps) && k < |states|
    ensures Inv(states[k])
  {
    hide Inv, Next;
    if k == 0 {
      assert Inv(INITIAL) by { InitialInv(); }
    } else {
      RunKeepsInv(states, steps, k - 1);
      assert Next(states[k - 1], steps[k - 1], states[k - 1 + 1]);
      StepKeepsInv(states[k - 1], steps[k - 1], states[k]);
    }
  }

  lemma InitialInv()
    ensures Inv(INITIAL)
  {
  }

  ghost predicate Unclosed(s: System, c: nat) {
    c in s.conns && !s.conns[c].closed
  }

  /** In every reachable state at most one dialled connection is unclosed, the channel of no
    * connection was closed twice, and every call of Close returns the error of the one close. */
  lemma EveryStateIsSafe(states: seq<System>, steps: seq<Step>, i: nat)
    requires Run(states, steps) && i < |states|
    ensures var s := states[i];
            && (forall c, d :: Unclosed(s, c) && Unclosed(s, d) ==> c == d)
            && (forall c :: c in s.conns ==> s.conns[c].channelCloses <= 1)
            && (forall c :: c in s.conns && s.conns[c].channelCloses == 1 ==> s.conns[c].closed)
            && (forall k :: k in s.closers && s.closers[k].phase.Left? ==>
                  && s.closers[k].conn in s.conns
                  && s.conns[s.closers[k].conn].closed && s.closers[k].phase.err == s.conns[s.closers[k].conn].err)
  {
    RunKeepsInv(states, steps, i);
    var s := states[i];
    forall c | c in s.conns
      ensures s.conns[c].channelCloses <= 1
      ensures s.conns[c].channelCloses == 1 ==> s.conns[c].closed
    {
      assert ConnInv(s, c);
    }
    forall k | k in s.closers && s.closers[k].phase.Left?
      ensures s.closers[k].conn in s.conns && s.conns[s.closers[k].conn].closed
    {
      assert CloserInv(s, k);
      assert ConnInv(s, s.closers[k].conn);
    }
    hide DialInv;
    assert DialInv(s);
    assert forall c, d :: Unclosed(s, c) && Unclosed(s, d) ==> c == d by { OneUnclosed(s); }
  }

  lemma OneUnclosed(s: System)
    requires DialInv(s)
    ensures forall c, d :: Unclosed(s, c) && Unclosed(s, d) ==> c == d
  {
    assert forall c :: Unclosed(s, c) ==> ClosedUnlessLast(s, c);
  }

  /** What holds from the moment on that a call of the listener's Close has returned. */
  ghost predicate Shut(s: System) {
    s.status == Disconnected && s.phase == Exited && s.returned != {}
  }

  lemma ReturnedIsShut(s: System)
    requires Inv(s) && s.returned != {}
    ensures Shut(s)
  {
    hide DialInv, ConnInv, CloserInv;
  }

  /** Once a call of the listener's Close has returned, the status is Disconnected and no connection
    * is dialled any more, forever. */
  lemma {:induction false} ClosedForever(states: seq<System>, steps: seq<Step>, i: nat, j: nat)
    requires Run(states, steps) && i <= j < |states|
    requires states[i].returned != {}
    ensures states[j].status == Disconnected && states[j].phase == Exited && states[j].returned != {}
    ensures states[j].conns.Keys == states[i].conns.Keys
    decreases j
  {
    hide Inv, Next;
    if i < j {
      ClosedForever(states, steps, i, j - 1);
      assert Next(states[j - 1], steps[j - 1], states[j - 1 + 1]);
      RunKeepsInv(states, steps, j - 1);
      KeepsReturned(states[j - 1], steps[j - 1], states[j]);
    }
    RunKeepsInv(states, steps, j);
    ReturnedIsShut(states[j]);
  }

  lemma KeepsReturned(s: System, step: Step, t: System)
    requires Next(s, step, t) && s.phase.Exited?
    ensures s.returned <= t.returned && t.conns.Keys == s.conns.Keys
  {
    hide DialInv, ConnInv, CloserInv;
    if RunNext(s, step, t) {
      hide CloserNext;
    } else {
      hide RunNext;
    }
  }
}
