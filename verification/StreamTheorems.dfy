/** The promises of contract/stream.go, over every run of one direction of a stream. */
module StreamTheorems {
  import opened Options
  import opened StreamMachine
  import opened StreamSafety

  // ---- one step --------------------------------------------------------------------------

  // What no step undoes.
  ghost predicate Grows<V(!new)>(s: State<V>, t: State<V>) {
    && t.cap == s.cap
    && s.flow.accepted <= t.flow.accepted && s.flow.received <= t.flow.received
    && (s.gate.closed ==> t.gate.closed && t.flow.accepted == s.flow.accepted)
    && (s.session.done ==> t.session.done && t.session.terminal == s.session.terminal)
    && (s.session.done ==> t.session.acceptedAtDone == s.session.acceptedAtDone)
    && (!s.session.done && t.session.done ==> |s.flow.accepted| <= t.session.acceptedAtDone)
  }

  lemma SendGrows<V(!new)>(s: State<V>, step: SendStep<V>)
    requires SendGateOk(s) && SendEnabled(s, step)
    ensures Grows(s, DoSend(s, step))
  {
    if step.SendEnqueue? || step.Handoff? {
      assert InFlight(s, step.op);
    }
  }

  lemma RecvGrows<V(!new)>(s: State<V>, step: RecvStep)
    requires RecvEnabled(s, step)
    ensures Grows(s, DoRecv(s, step))
  {
    RecvKeepsSends(s, step);
  }

  lemma StepGrows<V(!new)>(s: State<V>, t: State<V>)
    requires Inv(s) && Next(s, t)
    ensures Grows(s, t)
  {
    hide DoSend, DoRecv, SendEnabled, RecvEnabled, SendersOk, TakersOk, EndOk, EofOk, RoundsOk, Grows;
    var step: Step<V> :| Enabled(s, step) && t == Do(s, step);
    match step {
      case OfSend(x) => SendGrows(s, x);
      case OfRecv(x) => RecvGrows(s, x);
      case OfClose(x) =>
        CloseKeepsCalls(s, x);
        KeptGrows(s, t);
      case OfSession(x) =>
        SessionKeepsCalls(s, x);
        KeptGrows(s, t);
    }
  }

  lemma KeptGrows<V(!new)>(s: State<V>, t: State<V>)
    requires CallsKept(s, t) && (s.gate.closed ==> t.gate.closed)
    requires s.session.done ==>
      t.session.done && t.session.terminal == s.session.terminal && t.session.acceptedAtDone == s.session.acceptedAtDone
    requires !s.session.done && t.session.done ==> |s.flow.accepted| <= t.session.acceptedAtDone
    ensures Grows(s, t)
  {
  }

  lemma {:induction false} GrowsAlong<V(!new)>(trace: seq<State<V>>, i: nat, j: nat)
    requires Run(trace) && i <= j < |trace|
    ensures Grows(trace[i], trace[j])
    decreases j
  {
    hide Inv, Next;
    if i < j {
      GrowsAlong(trace, i, j - 1);
      InvAlong(trace, j - 1);
      StepGrows(trace[j - 1], trace[j]);
      var s, m, t := trace[i], trace[j - 1], trace[j];
      assert |s.flow.accepted| <= |m.flow.accepted|;
    }
  }

  // ---- the promises ----------------------------------------------------------------------

  /** Nothing is lost, duplicated or reordered, and the queue never holds more than its capacity. */
  lemma NothingLost<V(!new)>(trace: seq<State<V>>, i: nat)
    requires Run(trace) && i < |trace|
    ensures var s := trace[i]; s.flow.accepted == s.flow.received + s.flow.queue && |s.flow.queue| <= trace[0].cap
  {
    hide SendGateOk, RecvGateOk, SignalsOk, SessionOk, EofOk, EndOk, RoundsOk, SendersOk, TakersOk, LateOk, Run;
    InvAlong(trace, i);
    GrowsAlong(trace, 0, i);
  }

  /** A value is received exactly if the Send that offered it was told so, up to what is still queued:
      the sends that succeeded, in order, are the receives that got a value, in order, then the queue. */
  lemma ExactlyOnce<V(!new)>(trace: seq<State<V>>, i: nat)
    requires Run(trace) && i < |trace|
    ensures var s := trace[i];
      && |s.log.takers| == |s.flow.received| <= |s.log.senders| == |s.flow.accepted|
      && (forall k :: 0 <= k < |s.log.senders| ==> SendDecided(s, s.log.senders[k], s.flow.accepted[k], Sent))
      && (forall k :: 0 <= k < |s.log.takers| ==> RecvDecided(s, s.log.takers[k], Received(s.flow.accepted[k])))
      && (forall op, value :: SendDecided(s, op, value, Sent) ==> op in s.log.senders)
      && (forall op, value :: RecvDecided(s, op, Received(value)) ==> op in s.log.takers)
      && (forall a, b :: 0 <= a < b < |s.log.senders| ==> s.log.senders[a] != s.log.senders[b])
      && (forall a, b :: 0 <= a < b < |s.log.takers| ==> s.log.takers[a] != s.log.takers[b])
  {
    hide SendGateOk, RecvGateOk, SignalsOk, SessionOk, EofOk, EndOk, RoundsOk, LateOk, Run, SendDecided, RecvDecided;
    InvAlong(trace, i);
    var s := trace[i];
    forall k | 0 <= k < |s.log.takers| ensures RecvDecided(s, s.log.takers[k], Received(s.flow.accepted[k])) {
      assert s.flow.accepted[k] == s.flow.received[k];
    }
  }

  /** io.EOF means the end: all that was accepted has been received, and nothing is accepted any more. */
  lemma EofIsTheEnd<V(!new)>(trace: seq<State<V>>, i: nat, j: nat, op: OpId)
    requires Run(trace) && i <= j < |trace| && RecvDecided(trace[i], op, EndOfSide)
    ensures trace[i].flow.received == trace[i].flow.accepted == trace[j].flow.accepted == trace[j].flow.received
  {
    hide SendGateOk, RecvGateOk, SignalsOk, SessionOk, EndOk, RoundsOk, SendersOk, TakersOk, LateOk, Run, RecvDecided;
    InvAlong(trace, i);
    InvAlong(trace, j);
    GrowsAlong(trace, i, j);
    assert trace[i].flow.received + [] == trace[i].flow.received;
  }

  /** Closing waits for the Send in flight: a closed side has none. */
  lemma ClosedMeansQuiet<V(!new)>(trace: seq<State<V>>, i: nat, op: OpId)
    requires Run(trace) && i < |trace| && trace[i].gate.closed
    ensures !InFlight(trace[i], op)
  {
    hide RecvGateOk, SignalsOk, SessionOk, EofOk, EndOk, RoundsOk, SendersOk, TakersOk, LateOk, Run;
    InvAlong(trace, i);
  }

  /** The session's end is reported to a receiver only after every value accepted before it. */
  lemma EndAfterDrain<V(!new)>(trace: seq<State<V>>, k: nat, i: nat, op: OpId, why: Terminal)
    requires Run(trace) && k <= i < |trace| && !trace[k].session.done
    requires RecvDecided(trace[i], op, RecvEnded(why))
    ensures trace[k].flow.accepted <= trace[i].flow.received
  {
    hide SendGateOk, RecvGateOk, SignalsOk, SessionOk, EofOk, RoundsOk, SendersOk, TakersOk, LateOk, Run, RecvDecided;
    InvAlong(trace, i);
    GrowsAlong(trace, k, i);
  }

  /** And after the session's end at most one more value gets in. */
  lemma AtMostOneLate<V(!new)>(trace: seq<State<V>>, k: nat, i: nat)
    requires Run(trace) && k <= i < |trace| && trace[k].session.done
    ensures |trace[i].flow.accepted| <= |trace[k].flow.accepted| + 1
  {
    hide SendGateOk, RecvGateOk, SignalsOk, SessionOk, EofOk, EndOk, RoundsOk, SendersOk, TakersOk, Run;
    InvAlong(trace, k);
    InvAlong(trace, i);
    GrowsAlong(trace, k, i);
  }

  // What a call, sending or receiving, says the session ended with.
  ghost predicate Reports<V(!new)>(s: State<V>, why: Terminal) {
    || (exists op :: RecvDecided(s, op, RecvEnded(why)))
    || (exists op, value :: SendDecided(s, op, value, SendEnded(why)))
  }

  /** The terminal is one: every call that reports it reports the same one. */
  lemma OneTerminal<V(!new)>(trace: seq<State<V>>, i: nat, j: nat, a: Terminal, b: Terminal)
    requires Run(trace) && i <= j < |trace| && Reports(trace[i], a) && Reports(trace[j], b)
    ensures a == b
  {
    hide SendGateOk, RecvGateOk, SignalsOk, SessionOk, EofOk, RoundsOk, SendersOk, TakersOk, LateOk, Run;
    hide RecvDecided, SendDecided;
    InvAlong(trace, i);
    InvAlong(trace, j);
    GrowsAlong(trace, i, j);
  }

  /** The receive loop runs at most twice. */
  lemma AtMostTwoRounds<V(!new)>(trace: seq<State<V>>, i: nat, op: OpId)
    requires Run(trace) && i < |trace| && op in trace[i].recvs
    ensures trace[i].recvs[op].round <= 2
  {
    hide SendGateOk, RecvGateOk, SignalsOk, SessionOk, EofOk, EndOk, SendersOk, TakersOk, LateOk, FlowOk, Run;
    InvAlong(trace, i);
  }

  /** A Send that waits is never stopped by the close of its own side: that case of its select is dead. */
  lemma CloseNeverStopsASend<V(!new)>(trace: seq<State<V>>, i: nat, op: OpId)
    requires Run(trace) && i < |trace|
    ensures !SendEnabled(trace[i], SendStop(op, SeesClosed))
  {
    hide RecvGateOk, SignalsOk, SessionOk, EofOk, EndOk, RoundsOk, SendersOk, TakersOk, LateOk, FlowOk, Run;
    InvAlong(trace, i);
    if SendAt(trace[i], op, Waiting) {
      assert InFlight(trace[i], op);
    }
  }

  /** A closer that waits for a Send misses no wake-up: once no Send is in flight its signal has fired. */
  lemma CloserWakes<V(!new)>(trace: seq<State<V>>, i: nat, op: OpId)
    requires Run(trace) && i < |trace| && op in trace[i].closes && trace[i].closes[op].Park?
    ensures CloseEnabled(trace[i], CloseWake(op)) || exists a :: InFlight(trace[i], a)
  {
    hide RecvGateOk, SessionOk, EofOk, EndOk, RoundsOk, SendersOk, TakersOk, LateOk, FlowOk, Run;
    InvAlong(trace, i);
  }
}
