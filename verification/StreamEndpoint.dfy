/** Send, Recv and CloseSend of contract/stream.go as the code runs them. The direction they share
    records its history as a run of the stream machine; every other call, the handler, the watchdog and
    Close may act between any two of their steps. */
module StreamEndpoint {
  import opened Options
  import opened StreamMachine
  import opened StreamSafety

  datatype Caller = Sender(op: OpId) | Receiver(op: OpId) | SideCloser(op: OpId)

  // A rendezvous is a step of both calls.
  predicate Mine<V>(step: Step<V>, me: Caller) {
    match me
    case Sender(op) => step.OfSend? && step.send.op == op
    case Receiver(op) => (step.OfRecv? && step.recv.op == op) || (step.OfSend? && step.send.Handoff? && step.send.taker == op)
    case SideCloser(op) => step.OfClose? && step.close.op == op
  }

  // What only the call itself changes.
  ghost predicate SameCall<V>(s: State<V>, t: State<V>, me: Caller) {
    match me
    case Sender(op) =>
      && (op in s.sends <==> op in t.sends) && (op in s.sends ==> s.sends[op] == t.sends[op])
      && (op in s.log.sendResults <==> op in t.log.sendResults)
      && (op in s.log.sendResults ==> s.log.sendResults[op] == t.log.sendResults[op])
    case Receiver(op) =>
      && (op in s.recvs <==> op in t.recvs) && (op in s.recvs ==> s.recvs[op] == t.recvs[op])
      && (op in s.log.recvResults <==> op in t.log.recvResults)
      && (op in s.log.recvResults ==> s.log.recvResults[op] == t.log.recvResults[op])
    case SideCloser(op) =>
      (op in s.closes <==> op in t.closes) && (op in s.closes ==> s.closes[op] == t.closes[op])
  }

  lemma SendKeepsCall<V(!new)>(s: State<V>, x: SendStep<V>, me: Caller)
    requires SendEnabled(s, x) && !Mine(OfSend(x), me)
    ensures SameCall(s, DoSend(s, x), me)
  {
    match x {
      case Handoff(op, taker) =>
        assert DoSend(s, x).recvs.Keys == s.recvs.Keys && DoSend(s, x).sends.Keys == s.sends.Keys;
      case _ => assert DoSend(s, x).recvs == s.recvs && DoSend(s, x).closes == s.closes;
    }
  }

  lemma RecvKeepsCall<V(!new)>(s: State<V>, x: RecvStep, me: Caller)
    requires RecvEnabled(s, x) && !Mine<V>(OfRecv(x), me)
    ensures SameCall(s, DoRecv(s, x), me)
  {
    assert DoRecv(s, x).closes == s.closes;
  }

  lemma OthersKeepCall<V(!new)>(s: State<V>, step: Step<V>, me: Caller)
    requires Enabled(s, step) && !Mine(step, me)
    ensures SameCall(s, Do(s, step), me)
  {
    hide DoSend, DoRecv, SendEnabled, RecvEnabled;
    match step {
      case OfSend(x) => SendKeepsCall(s, x, me);
      case OfRecv(x) => RecvKeepsCall(s, x, me);
      case OfClose(x) => CloseKeepsCalls(s, x);
      case OfSession(x) => SessionKeepsCalls(s, x);
    }
  }

  // The value this Send put in, and the value this Recv took out, each in its place among the accepted.
  ghost predicate Accepted<V>(s: State<V>, op: OpId, value: V) {
    exists i :: 0 <= i < |s.log.senders| && i < |s.flow.accepted| && s.log.senders[i] == op && s.flow.accepted[i] == value
  }

  ghost predicate Delivered<V>(s: State<V>, op: OpId, value: V) {
    exists i :: 0 <= i < |s.log.takers| && i < |s.flow.accepted| && s.log.takers[i] == op && s.flow.accepted[i] == value
  }

  class Direction<V(!new)> {
    var st: State<V>
    ghost var trace: seq<State<V>>

    ghost predicate Valid()
      reads this
    {
      Run(trace) && trace[|trace| - 1] == st
    }

    constructor (capacity: nat)
      ensures Valid() && st == Opened(capacity)
    {
      st := Opened(capacity);
      trace := [Opened(capacity)];
    }

    lemma Invariant()
      requires Valid()
      ensures Inv(st)
    {
      InvAlong(trace, |trace| - 1);
    }

    // One step of the machine, whoever takes it.
    method Step(step: Step<V>)
      requires Valid() && Enabled(st, step)
      modifies this
      ensures Valid() && trace == old(trace) + [st] && st == Do(old(st), step)
    {
      ghost var was := st;
      st := Do(st, step);
      assert Next(was, st);
      trace := trace + [st];
    }

    // Whatever everybody else does in the meantime.
    method Interfere(me: Caller)
      requires Valid()
      modifies this
      ensures Valid() && old(trace) <= trace && SameCall(old(st), st, me)
    {
      hide Run, Next, Enabled, Do, Mine, SameCall;
      var steps: int := *;
      CallItself(st, me);
      for i := 0 to if steps < 0 then 0 else steps
        invariant Valid() && old(trace) <= trace && SameCall(old(st), st, me)
      {
        var step: Step<V> := *;
        if Enabled(st, step) && !Mine(step, me) {
          OthersKeepCall(st, step, me);
          CallSince(old(st), st, Do(st, step), me);
          Step(step);
        }
      }
    }

    // `finish`: whoever comes first records its error, everybody returns when the session is over.
    method Finish(me: Caller, err: Option<Terminal>)
      requires Valid()
      modifies this
      ensures Valid() && old(trace) <= trace && SameCall(old(st), st, me) && st.session.done
    {
      hide Run, Next, SameCall;
      CallItself(st, me);
      if st.session.terminal.None? {
        OthersKeepCall(st, OfSession(FinishStart(err)), me);
        Step(OfSession(FinishStart(err)));
      }
      if !st.session.done {
        OthersKeepCall(st, OfSession(FinishDone), me);
        CallSince(old(st), st, Do(st, OfSession(FinishDone)), me);
        Step(OfSession(FinishDone));
      }
    }

    /** Puts a value into the queue, or says why not. */
    method Send(op: OpId, value: V) returns (r: SendResult)
      requires Valid() && op !in st.sends && op !in st.log.sendResults
      modifies this
      ensures Valid() && old(trace) <= trace
      ensures op !in st.sends && op in st.log.sendResults && st.log.sendResults[op] == (value, r)
      ensures r.Sent? ==> Accepted(st, op, value)
      ensures !r.Sent? ==> op !in st.log.senders
      ensures r.SendEnded? ==> st.session.terminal == Some(r.why)
    {
      hide Run, Next, Inv, Accepted, SendEnabled, DoSend;
      var ended := Enter(op, value);
      if ended {
        r := SendCancelled;
      } else {
        var refused, at := Begin(op);
        if refused {
          r := st.log.sendResults[op].1;
        } else {
          Offer(op);
          r := End(op);
        }
      }
      SendReported(op, value, r);
    }

    // The call, and the look at its own context before the gate is asked.
    method Enter(op: OpId, value: V) returns (ended: bool)
      requires Valid() && op !in st.sends && op !in st.log.sendResults
      modifies this
      ensures Valid() && old(trace) <= trace
      ensures ended ==> op !in st.sends && op in st.log.sendResults && st.log.sendResults[op] == (value, SendCancelled)
      ensures !ended ==> op in st.sends && st.sends[op] == SendOp(value, Calling) && op !in st.log.sendResults
    {
      hide Run, Next, Inv;
      Step(OfSend(SendCall(op, value)));
      Interfere(Sender(op));
      ended := *;
      if ended {
        Step(OfSend(SendGiveUp(op)));
      }
    }

    /** `begin`: a Send is refused exactly if, in the moment `at` of this call in which it asked, the side was
        closed or another Send was at work; otherwise it holds the gate. */
    method Begin(op: OpId) returns (refused: bool, ghost at: nat)
      requires Valid() && op in st.sends && st.sends[op].pc == Calling && op !in st.log.sendResults
      modifies this
      ensures Valid() && old(trace) <= trace
      ensures |old(trace)| - 1 <= at == |trace| - 2
      ensures refused <==> trace[at].gate.closed || trace[at].gate.busy
      ensures refused ==> op !in st.sends && op in st.log.sendResults
                          && st.log.sendResults[op] == (old(st).sends[op].value, if trace[at].gate.closed then SideClosed else Conflict)
      ensures !refused ==> st.gate.busy && op in st.sends && op !in st.log.sendResults
                           && st.sends[op] == SendOp(old(st).sends[op].value, Checking)
    {
      hide Next, Inv;
      Interfere(Sender(op));
      at := |trace| - 1;
      Step(OfSend(SendBegin(op)));
      refused := op in st.log.sendResults;
    }

    // Between `begin` and `end`.
    method Offer(op: OpId)
      requires Valid() && op in st.sends && st.sends[op].pc.Checking?
      modifies this
      ensures Valid() && old(trace) <= trace
      ensures op in st.sends && st.sends[op].value == old(st).sends[op].value && st.sends[op].pc.Leaving?
    {
      hide Run, Next, Inv, CanTake;
      Interfere(Sender(op));
      Step(OfSend(SendCheck(op)));
      Interfere(Sender(op));
      if st.sends[op].pc.Waiting? {
        SelectSend(op);
      }
      if st.sends[op].pc.AwaitingDone? {
        Finish(Sender(op), Some(Failed(0)));
        Step(OfSend(SendSeesDone(op)));
      }
    }

    method End(op: OpId) returns (r: SendResult)
      requires Valid() && op in st.sends && st.sends[op].pc.Leaving?
      modifies this
      ensures Valid() && old(trace) <= trace && op !in st.sends
      ensures op in st.log.sendResults && st.log.sendResults[op] == (old(st).sends[op].value, r)
    {
      hide Run, Next, Inv;
      Interfere(Sender(op));
      r := st.sends[op].pc.result;
      Step(OfSend(SendEnd(op)));
    }

    // The blocking select: any case that is ready may be taken.
    method SelectSend(op: OpId)
      requires Valid() && SendAt(st, op, Waiting)
      modifies this
      ensures Valid() && old(trace) <= trace
      ensures op in st.sends && st.sends[op].value == old(st).sends[op].value
      ensures st.sends[op].pc.AwaitingDone? || st.sends[op].pc.Leaving?
    {
      hide Run, Next;
      var taker: OpId := *;
      if {
        case true => Step(OfSend(SendStop(op, OwnContext)));
        case st.session.done => Step(OfSend(SendStop(op, SeesDone)));
        case st.session.cancelled => Step(OfSend(SendStop(op, SeesCancel)));
        case st.session.forced => Step(OfSend(SendStop(op, SeesForce)));
        case st.gate.closed => Step(OfSend(SendStop(op, SeesClosed)));
        case |st.flow.queue| < st.cap => Step(OfSend(SendEnqueue(op)));
        case st.cap == 0 && CanTake(st, taker) => Step(OfSend(Handoff(op, taker)));
      }
    }

    lemma SendReported(op: OpId, value: V, r: SendResult)
      requires Valid() && op in st.log.sendResults && st.log.sendResults[op] == (value, r)
      ensures r.Sent? ==> Accepted(st, op, value)
      ensures !r.Sent? ==> op !in st.log.senders
      ensures r.SendEnded? ==> st.session.terminal == Some(r.why)
    {
      hide Run, FlowOk, SendGateOk, RecvGateOk, SignalsOk, EofOk, RoundsOk, TakersOk, LateOk;
      Invariant();
      assert SendDecided(st, op, value, r);
      forall i | 0 <= i < |st.log.senders| && st.log.senders[i] == op ensures r.Sent? && st.flow.accepted[i] == value {
        assert SendDecided(st, st.log.senders[i], st.flow.accepted[i], Sent);
      }
    }

    /** The next value, the end of the side, or the end of the session once nothing is left. */
    method Recv(op: OpId) returns (r: RecvResult<V>)
      requires Valid() && op !in st.recvs && op !in st.log.recvResults
      modifies this
      ensures Valid() && old(trace) <= trace
      ensures op !in st.recvs && op in st.log.recvResults && st.log.recvResults[op] == r
      ensures r.Received? ==> Delivered(st, op, r.value)
      ensures !r.Received? ==> op !in st.log.takers
      ensures r.EndOfSide? ==> st.flow.received == st.flow.accepted
      ensures r.RecvEnded? ==> st.session.terminal == Some(r.why) && st.session.acceptedAtDone <= |st.flow.received|
    {
      hide Run, Next, Inv, Delivered;
      Step(OfRecv(RecvCall(op)));
      Interfere(Receiver(op));
      var cancelled: bool := *;
      Step(OfRecv(RecvBegin(op, cancelled)));
      if op in st.log.recvResults {
        r := st.log.recvResults[op];
        RecvReported(op, r);
        return;
      }
      RoundBound(op);
      while !st.recvs[op].pc.Return?
        invariant Valid() && old(trace) <= trace
        invariant op in st.recvs && (st.recvs[op].pc.Poll? || st.recvs[op].pc.Return?) && st.recvs[op].round <= 2
        decreases if st.recvs[op].pc.Return? then 0 else 4 - st.recvs[op].round
      {
        Round(op);
      }
      Interfere(Receiver(op));
      r := st.recvs[op].pc.result;
      Step(OfRecv(RecvEnd(op)));
      RecvReported(op, r);
    }

    // The body of the receive loop.
    method Round(op: OpId)
      requires Valid() && op in st.recvs && st.recvs[op].pc.Poll?
      modifies this
      ensures Valid() && old(trace) <= trace && op in st.recvs
      ensures st.recvs[op].pc.Return? || (st.recvs[op].pc.Poll? && st.recvs[op].round > old(st).recvs[op].round)
      ensures st.recvs[op].round <= 2
    {
      hide Run, Next, Inv;
      TryTake(op);
      if st.recvs[op].pc.Return? {
        RoundBound(op);
        return;
      }
      Interfere(Receiver(op));
      Step(OfRecv(RecvAsk(op)));
      if st.recvs[op].pc.LastPoll? {
        TryTake(op);
        RoundBound(op);
        return;
      }
      Wait(op);
      RoundBound(op);
    }

    // The blocking select and what follows the case that was taken.
    method Wait(op: OpId)
      requires Valid() && op in st.recvs && st.recvs[op].pc.Select?
      modifies this
      ensures Valid() && old(trace) <= trace && op in st.recvs
      ensures st.recvs[op].pc.Return? || (st.recvs[op].pc.Poll? && st.recvs[op].round > old(st).recvs[op].round)
    {
      hide Run, Next, Inv;
      Interfere(Receiver(op));
      SelectRecv(op);
      if st.recvs[op].pc.ClosedPoll? {
        TryTake(op);
      } else if st.recvs[op].pc.AwaitDone? {
        Finish(Receiver(op), Some(Failed(0)));
        Step(OfRecv(RecvSeesDone(op)));
      }
    }

    // A receive with a default: the queue first, then a sender that is waiting, then nothing.
    method TryTake(op: OpId)
      requires Valid() && CanTake(st, op) && !st.recvs[op].pc.Select?
      modifies this
      ensures Valid() && old(trace) <= trace && op in st.recvs && st.recvs[op].round == old(st).recvs[op].round
      ensures st.recvs[op].pc.Return? || (old(st).recvs[op].pc.Poll? && st.recvs[op].pc.AskDone?)
    {
      hide Run, Next;
      Interfere(Receiver(op));
      var giver: OpId := *;
      if st.flow.queue != [] {
        Step(OfRecv(RecvTake(op)));
      } else if SendEnabled(st, Handoff(giver, op)) {
        Step(OfSend(Handoff(giver, op)));
      } else {
        Step(OfRecv(RecvMiss(op)));
      }
    }

    method SelectRecv(op: OpId)
      requires Valid() && op in st.recvs && st.recvs[op].pc.Select?
      modifies this
      ensures Valid() && old(trace) <= trace && op in st.recvs
      ensures var was, now := old(st).recvs[op], st.recvs[op];
        (now.round == was.round && (now.pc.Return? || now.pc.ClosedPoll? || now.pc.AwaitDone?))
        || (now.round == was.round + 1 && now.pc.Poll?)
    {
      hide Run, Next;
      var giver: OpId := *;
      if {
        case true => Step(OfRecv(RecvStop(op, OwnContext)));
        case st.flow.queue != [] => Step(OfRecv(RecvTake(op)));
        case SendEnabled(st, Handoff(giver, op)) => Step(OfSend(Handoff(giver, op)));
        case st.gate.closed => Step(OfRecv(RecvStop(op, SeesClosed)));
        case st.session.done => Step(OfRecv(RecvStop(op, SeesDone)));
        case st.session.cancelled => Step(OfRecv(RecvStop(op, SeesCancel)));
        case st.session.forced => Step(OfRecv(RecvStop(op, SeesForce)));
      }
    }

    lemma RoundBound(op: OpId)
      requires Valid() && op in st.recvs
      ensures st.recvs[op].round <= 2
    {
      hide Run, FlowOk, SendGateOk, RecvGateOk, SignalsOk, EofOk, EndOk, SendersOk, TakersOk, LateOk;
      Invariant();
    }

    /** Half-closes the side after the Send in flight, however often a new one gets in first. How long the
        caller keeps waiting is up to its context. */
    method CloseSend(op: OpId) returns (ok: bool)
      requires Valid() && op !in st.closes
      modifies this
      ensures Valid() && old(trace) <= trace && op !in st.closes
      ensures ok ==> st.gate.closed && forall a :: !InFlight(st, a)
    {
      hide Run, Next, Inv;
      var patience: nat := *;
      ok := false;
      Step(OfClose(CloseCall(op)));
      while op in st.closes
        invariant Valid() && old(trace) <= trace
        invariant op in st.closes ==> st.closes[op].Look? && !ok
        invariant ok ==> st.gate.closed
        decreases if op in st.closes then patience + 1 else 0
      {
        Interfere(SideCloser(op));
        Step(OfClose(CloseLook(op)));
        if op in st.closes && st.closes[op].AwaitEnd? {
          Finish(SideCloser(op), Some(Failed(0)));
          Step(OfClose(CloseSeesDone(op)));
        } else if op in st.closes {
          ok := TryClose(op);
          if op in st.closes {
            patience := AwaitSend(op, patience);
          }
        }
      }
      QuietIfClosed();
    }

    // The critical section: close if no Send is in flight, otherwise take its signal.
    method TryClose(op: OpId) returns (ok: bool)
      requires Valid() && op in st.closes && st.closes[op].Lock?
      modifies this
      ensures Valid() && old(trace) <= trace && (op in st.closes ==> st.closes[op].Park? && !ok)
      ensures ok ==> st.gate.closed
    {
      hide Run, Next;
      Interfere(SideCloser(op));
      var cancelled: bool := *;
      Step(OfClose(CloseLock(op, cancelled)));
      ok := op !in st.closes && st.gate.closed;
    }

    method AwaitSend(op: OpId, patience: nat) returns (left: nat)
      requires Valid() && op in st.closes && st.closes[op].Park?
      modifies this
      ensures Valid() && old(trace) <= trace && (op in st.closes ==> st.closes[op].Look? && left < patience)
    {
      hide Run, Next, Inv;
      left := patience;
      Interfere(SideCloser(op));
      if {
        case true => Step(OfClose(CloseStop(op, OwnContext)));
        case st.session.done => Step(OfClose(CloseStop(op, SeesDone)));
        case st.session.forced => Step(OfClose(CloseStop(op, SeesForce)));
        case st.session.cancelled =>
          Step(OfClose(CloseStop(op, SeesCancel)));
          Finish(SideCloser(op), Some(Failed(0)));
          Step(OfClose(CloseSeesDone(op)));
        case patience > 0 && st.closes[op].signal in st.gate.fired =>
          left := patience - 1;
          Step(OfClose(CloseWake(op)));
      }
    }

    lemma QuietIfClosed()
      requires Valid()
      ensures st.gate.closed ==> forall a :: !InFlight(st, a)
    {
      hide Run, RecvGateOk, SignalsOk, EofOk, EndOk, RoundsOk, SendersOk, TakersOk, LateOk, FlowOk;
      Invariant();
    }

    lemma RecvReported(op: OpId, r: RecvResult<V>)
      requires Valid() && op in st.log.recvResults && st.log.recvResults[op] == r
      ensures r.Received? ==> Delivered(st, op, r.value)
      ensures !r.Received? ==> op !in st.log.takers
      ensures r.EndOfSide? ==> st.flow.received == st.flow.accepted
      ensures r.RecvEnded? ==> st.session.terminal == Some(r.why) && st.session.acceptedAtDone <= |st.flow.received|
    {
      hide Run, SendGateOk, RecvGateOk, SignalsOk, RoundsOk, SendersOk, LateOk;
      Invariant();
      assert RecvDecided(st, op, r);
      assert st.flow.received + [] == st.flow.received;
      forall i | 0 <= i < |st.log.takers| && st.log.takers[i] == op ensures r == Received(st.flow.accepted[i]) {
        assert RecvDecided(st, st.log.takers[i], Received(st.flow.received[i]));
        assert st.flow.accepted[i] == st.flow.received[i];
      }
      if r.Received? {
        assert RecvDecided(st, op, Received(r.value)) && op in st.log.takers;
        var i :| 0 <= i < |st.log.takers| && st.log.takers[i] == op;
        assert r == Received(st.flow.accepted[i]);
      }
    }
  }

  lemma CallItself<V(!new)>(s: State<V>, me: Caller)
    ensures SameCall(s, s, me)
  {
  }

  lemma CallSince<V(!new)>(s: State<V>, t: State<V>, u: State<V>, me: Caller)
    requires SameCall(s, t, me) && SameCall(t, u, me)
    ensures SameCall(s, u, me)
  {
  }
}
