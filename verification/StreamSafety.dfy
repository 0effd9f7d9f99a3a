/** What every run of the stream machine keeps. */
module StreamSafety {
  import opened Options
  import opened StreamMachine

  // ---- the values ------------------------------------------------------------------------

  // What was accepted is what was received followed by the queue, which respects its capacity.
  ghost predicate FlowOk<V>(s: State<V>) {
    && s.flow.accepted == s.flow.received + s.flow.queue && |s.flow.queue| <= s.cap
    && (s.session.done ==> s.session.acceptedAtDone <= |s.flow.accepted|)
  }

  // Once the session is over only the Send that was already waiting can still get its value in.
  ghost predicate LateOk<V(!new)>(s: State<V>) {
    s.session.done ==>
      && |s.flow.accepted| <= s.session.acceptedAtDone + 1
      && (|s.flow.accepted| > s.session.acceptedAtDone ==> forall op :: !SendAt(s, op, Waiting))
  }

  // ---- the two gates ---------------------------------------------------------------------

  // The calls between `begin` and `end`.
  predicate InFlight(s: State, op: OpId) { op in s.sends && !s.sends[op].pc.Calling? }

  predicate Receiving(s: State, op: OpId) { op in s.recvs && !s.recvs[op].pc.Gate? }

  ghost predicate SendGateOk(s: State) {
    && (s.gate.busy <==> exists op :: InFlight(s, op))
    && (forall a, b :: InFlight(s, a) && InFlight(s, b) ==> a == b)
    && (s.gate.closed ==> !s.gate.busy)
  }

  ghost predicate RecvGateOk(s: State) {
    && (s.recvBusy <==> exists op :: Receiving(s, op))
    && (forall a, b :: Receiving(s, a) && Receiving(s, b) ==> a == b)
  }

  // The signal of a Send in flight has not fired; a parked closer's signal is the current one, or fired.
  ghost predicate SignalsOk(s: State) {
    && (s.gate.changed in s.gate.fired <==> !s.gate.busy)
    && (forall c :: c in s.gate.fired ==> c <= s.gate.changed)
    && (forall op :: op in s.closes && s.closes[op].Park? ==>
          s.closes[op].signal in s.gate.fired || s.closes[op].signal == s.gate.changed)
  }

  // ---- the session -----------------------------------------------------------------------

  ghost predicate SessionOk(s: State) {
    && (s.session.done ==> s.session.terminal.Some?)
    && (s.session.closer.TimedWait? ==> s.session.done)
    && (s.session.forced ==> s.session.closer.TimedWait?)
  }

  // ---- what the calls report -------------------------------------------------------------

  // Whether a receive has decided on this result, returned or about to be.
  predicate RecvDecided<V(==)>(s: State<V>, op: OpId, r: RecvResult<V>) {
    (op in s.recvs && s.recvs[op].pc == Return(r)) || (op in s.log.recvResults && s.log.recvResults[op] == r)
  }

  predicate SendDecided<V(==)>(s: State<V>, op: OpId, value: V, r: SendResult) {
    (op in s.sends && s.sends[op] == SendOp(value, Leaving(r))) || (op in s.log.sendResults && s.log.sendResults[op] == (value, r))
  }

  // A half-close is reported when everything accepted has been received; nothing is accepted after it.
  ghost predicate EofOk<V(!new)>(s: State<V>) {
    && (forall op :: op in s.recvs && s.recvs[op].pc.ClosedPoll? ==> s.gate.closed)
    && (forall op :: RecvDecided(s, op, EndOfSide) ==> s.gate.closed && s.flow.queue == [])
  }

  // The end of the session is reported after everything accepted before it has been received.
  ghost predicate EndOk<V(!new)>(s: State<V>) {
    && (forall op :: op in s.recvs && s.recvs[op].pc.LastPoll? ==> s.session.done)
    && (forall op, why :: RecvDecided(s, op, RecvEnded(why)) ==>
          s.session.done && s.session.terminal == Some(why) && s.session.acceptedAtDone <= |s.flow.received|)
    && (forall op, value, why :: SendDecided(s, op, value, SendEnded(why)) ==> s.session.done && s.session.terminal == Some(why))
  }

  // A receive goes round at most once more, and only because the session is over.
  ghost predicate RoundsOk(s: State) {
    forall op :: op in s.recvs ==> RoundOk(s.recvs[op], s.session.done)
  }

  predicate RoundOk<V>(op: RecvOp<V>, done: bool) {
    op.round <= 2 && (op.round == 2 ==> done && !op.pc.Select? && !op.pc.AwaitDone?)
  }

  // Every accepted value is the value of one Send that reports success, and of no other.
  ghost predicate SendersOk<V(!new)>(s: State<V>) {
    && |s.log.senders| == |s.flow.accepted|
    && (forall i, j :: 0 <= i < j < |s.log.senders| ==> s.log.senders[i] != s.log.senders[j])
    && (forall i :: 0 <= i < |s.log.senders| ==> SendDecided(s, s.log.senders[i], s.flow.accepted[i], Sent))
    && (forall op, value :: SendDecided(s, op, value, Sent) ==> op in s.log.senders)
    && (forall op :: op in s.sends ==> op !in s.log.sendResults)
  }

  // Every received value is the result of one Recv, and of no other.
  ghost predicate TakersOk<V(!new)>(s: State<V>) {
    && |s.log.takers| == |s.flow.received|
    && (forall i, j :: 0 <= i < j < |s.log.takers| ==> s.log.takers[i] != s.log.takers[j])
    && (forall i :: 0 <= i < |s.log.takers| ==> RecvDecided(s, s.log.takers[i], Received(s.flow.received[i])))
    && (forall op, value :: RecvDecided(s, op, Received(value)) ==> op in s.log.takers)
    && (forall op :: op in s.recvs ==> op !in s.log.recvResults)
  }

  ghost predicate Inv<V(!new)>(s: State<V>) {
    FlowOk(s) && SendGateOk(s) && RecvGateOk(s) && SignalsOk(s) && SessionOk(s)
    && EofOk(s) && EndOk(s) && RoundsOk(s) && SendersOk(s) && TakersOk(s) && LateOk(s)
  }

  lemma InvInit<V(!new)>(cap: nat)
    ensures Inv<V>(Opened(cap))
  {
  }

  // ---- sending ---------------------------------------------------------------------------

  lemma SendKeepsFlow<V(!new)>(s: State<V>, step: SendStep<V>)
    requires FlowOk(s) && SendEnabled(s, step)
    ensures FlowOk(DoSend(s, step))
  {
  }

  lemma SendKeepsGate<V(!new)>(s: State<V>, step: SendStep<V>)
    requires SendGateOk(s) && SendEnabled(s, step)
    ensures SendGateOk(DoSend(s, step))
  {
    var t := DoSend(s, step);
    var op := step.op;
    assert forall a :: a != op ==> (InFlight(t, a) <==> InFlight(s, a));
    if step.SendBegin? && !s.gate.closed && !s.gate.busy {
      assert InFlight(t, op);
    } else if step.SendEnd? {
      assert InFlight(s, op) && !InFlight(t, op);
    } else {
      assert InFlight(t, op) <==> InFlight(s, op);
      SameFlight(s, t);
    }
  }

  lemma SameFlight<V(!new)>(s: State<V>, t: State<V>)
    requires SendGateOk(s) && s.gate.busy == t.gate.busy && s.gate.closed == t.gate.closed
    requires forall a :: InFlight(t, a) <==> InFlight(s, a)
    ensures SendGateOk(t)
  {
    if s.gate.busy {
      var op :| InFlight(s, op);
      assert InFlight(t, op);
    }
  }

  lemma SendKeepsRecvGate<V(!new)>(s: State<V>, step: SendStep<V>)
    requires RecvGateOk(s) && SendEnabled(s, step)
    ensures RecvGateOk(DoSend(s, step))
  {
    SameReceiving(s, DoSend(s, step));
  }

  lemma SameReceiving<V(!new)>(s: State<V>, t: State<V>)
    requires RecvGateOk(s) && s.recvBusy == t.recvBusy
    requires forall a :: Receiving(t, a) <==> Receiving(s, a)
    ensures RecvGateOk(t)
  {
    if s.recvBusy {
      var op :| Receiving(s, op);
      assert Receiving(t, op);
    }
  }

  lemma SendKeepsSignals<V(!new)>(s: State<V>, step: SendStep<V>)
    requires SignalsOk(s) && SendGateOk(s) && SendEnabled(s, step)
    ensures SignalsOk(DoSend(s, step))
  {
    if step.SendEnd? {
      assert InFlight(s, step.op);
    }
  }

  // A send decides its own result only; the receive it hands a value to gets that value.
  lemma SendDecides<V(!new)>(s: State<V>, step: SendStep<V>, op: OpId, value: V, r: SendResult)
    requires SendEnabled(s, step) && op != step.op
    ensures SendDecided(DoSend(s, step), op, value, r) <==> SendDecided(s, op, value, r)
  {
  }

  lemma SendDecidesOwn<V(!new)>(s: State<V>, step: SendStep<V>, value: V, r: SendResult)
    requires SendEnabled(s, step) && (step.op in s.sends ==> step.op !in s.log.sendResults)
    ensures SendDecided(DoSend(s, step), step.op, value, r) ==>
      || SendDecided(s, step.op, value, r)
      || (SendDecidesNow(s, step) == Some(r) && step.op in s.sends && s.sends[step.op].value == value)
  {
  }

  function SendDecidesNow<V>(s: State<V>, step: SendStep<V>): Option<SendResult> {
    match step
    case SendGiveUp(_) => Some(SendCancelled)
    case SendBegin(_) => if s.gate.closed then Some(SideClosed) else if s.gate.busy then Some(Conflict) else None
    case SendCheck(_) => if s.session.done then Some(SendEnded(Why(s))) else None
    case SendEnqueue(_) => Some(Sent)
    case Handoff(_, _) => Some(Sent)
    case SendStop(_, why) =>
      (match why
       case OwnContext => Some(SendCancelled)
       case SeesClosed => Some(SideClosed)
       case SeesCancel => None
       case _ => Some(SendEnded(Why(s))))
    case SendSeesDone(_) => Some(SendEnded(Why(s)))
    case _ => None
  }

  lemma SendRecvFrame<V(!new)>(s: State<V>, step: SendStep<V>, op: OpId, r: RecvResult<V>)
    requires SendEnabled(s, step)
    ensures var given := step.Handoff? && step.taker == op && r == Received(s.sends[step.op].value);
      RecvDecided(DoSend(s, step), op, r) ==> RecvDecided(s, op, r) || given
  {
  }

  // What a send does to the session, and to what others may still do.
  lemma SendKeepsReports<V(!new)>(s: State<V>, step: SendStep<V>)
    requires SessionOk(s) && SendGateOk(s) && EofOk(s) && RoundsOk(s) && SendEnabled(s, step)
    ensures SessionOk(DoSend(s, step)) && EofOk(DoSend(s, step)) && RoundsOk(DoSend(s, step))
  {
    var t := DoSend(s, step);
    if step.SendEnqueue? || step.Handoff? {
      assert InFlight(s, step.op);
    }
    forall op | RecvDecided(t, op, EndOfSide) ensures t.gate.closed && t.flow.queue == [] {
      SendRecvFrame(s, step, op, EndOfSide);
    }
  }

  lemma SendDecidedStays<V(!new)>(s: State<V>, step: SendStep<V>, op: OpId, value: V, r: SendResult)
    requires SendEnabled(s, step) && SendDecided(s, op, value, r) && (op in s.sends ==> op !in s.log.sendResults)
    ensures SendDecided(DoSend(s, step), op, value, r)
  {
  }

  lemma RecvDecidedStays<V(!new)>(s: State<V>, step: SendStep<V>, op: OpId, r: RecvResult<V>)
    requires SendEnabled(s, step) && RecvDecided(s, op, r)
    ensures RecvDecided(DoSend(s, step), op, r)
  {
  }

  lemma SendKeepsEnd<V(!new)>(s: State<V>, step: SendStep<V>)
    requires SessionOk(s) && EndOk(s) && SendersOk(s) && SendEnabled(s, step) && (s.session.forced ==> s.session.done)
    ensures EndOk(DoSend(s, step))
  {
    hide SendDecided, RecvDecided;
    var t := DoSend(s, step);
    forall op, why | RecvDecided(t, op, RecvEnded(why))
      ensures t.session.done && t.session.terminal == Some(why) && t.session.acceptedAtDone <= |t.flow.received|
    {
      SendRecvFrame(s, step, op, RecvEnded(why));
    }
    forall op, value, why | SendDecided(t, op, value, SendEnded(why))
      ensures t.session.done && t.session.terminal == Some(why)
    {
      if op == step.op {
        SendDecidesOwn(s, step, value, SendEnded(why));
      } else {
        SendDecides(s, step, op, value, SendEnded(why));
      }
    }
  }

  // A value goes in together with the name of its Send.
  lemma SendLogs<V(!new)>(s: State<V>, step: SendStep<V>)
    requires SendEnabled(s, step)
    ensures var t := DoSend(s, step);
      if step.SendEnqueue? || step.Handoff? then
        && t.flow.accepted == s.flow.accepted + [s.sends[step.op].value] && t.log.senders == s.log.senders + [step.op]
        && SendAt(s, step.op, Waiting) && SendDecided(t, step.op, s.sends[step.op].value, Sent)
      else t.flow.accepted == s.flow.accepted && t.log.senders == s.log.senders && SendDecidesNow(s, step) != Some(Sent)
  {
  }

  lemma SendKeepsNames<V(!new)>(s: State<V>, step: SendStep<V>)
    requires SendEnabled(s, step) && forall op :: op in s.sends ==> op !in s.log.sendResults
    ensures forall op :: op in DoSend(s, step).sends ==> op !in DoSend(s, step).log.sendResults
  {
  }

  lemma SendKeepsSenders<V(!new)>(s: State<V>, step: SendStep<V>)
    requires SendersOk(s) && SendEnabled(s, step)
    ensures SendersOk(DoSend(s, step))
  {
    hide SendDecided, DoSend, SendEnabled, SendDecidesNow, SendAt;
    var t := DoSend(s, step);
    var op := step.op;
    SendLogs(s, step);
    SendKeepsNames(s, step);
    if step.SendEnqueue? || step.Handoff? {
      NotYetSent(s, op);
    }
    forall i | 0 <= i < |s.log.senders| ensures SendDecided(t, s.log.senders[i], s.flow.accepted[i], Sent) {
      SendDecidedStays(s, step, s.log.senders[i], s.flow.accepted[i], Sent);
    }
    forall o, value | SendDecided(t, o, value, Sent) ensures o in t.log.senders {
      if o == op {
        SendDecidesOwn(s, step, value, Sent);
      } else {
        SendDecides(s, step, o, value, Sent);
      }
    }
  }

  lemma NotYetSent<V(!new)>(s: State<V>, op: OpId)
    requires SendersOk(s) && SendAt(s, op, Waiting)
    ensures op !in s.log.senders
  {
    forall i | 0 <= i < |s.log.senders| ensures s.log.senders[i] != op {
      assert SendDecided(s, s.log.senders[i], s.flow.accepted[i], Sent);
    }
  }

  lemma SendKeepsTakers<V(!new)>(s: State<V>, step: SendStep<V>)
    requires TakersOk(s) && SendEnabled(s, step)
    ensures TakersOk(DoSend(s, step))
  {
    hide RecvDecided;
    var t := DoSend(s, step);
    if step.Handoff? {
      NotYetTaken(s, step.taker);
    }
    forall i | 0 <= i < |t.log.takers| ensures RecvDecided(t, t.log.takers[i], Received(t.flow.received[i])) {
      if i < |s.log.takers| {
        RecvDecidedStays(s, step, s.log.takers[i], Received(s.flow.received[i]));
      } else {
        NowHanded(s, step);
      }
    }
    forall o, value | RecvDecided(t, o, Received(value)) ensures o in t.log.takers {
      SendRecvFrame(s, step, o, Received(value));
      assert step.Handoff? ==> t.log.takers[|s.log.takers|] == step.taker;
    }
  }

  lemma NotYetTaken<V(!new)>(s: State<V>, op: OpId)
    requires TakersOk(s) && CanTake(s, op)
    ensures op !in s.log.takers
  {
    forall i | 0 <= i < |s.log.takers| ensures s.log.takers[i] != op {
      assert RecvDecided(s, s.log.takers[i], Received(s.flow.received[i]));
    }
  }

  lemma NowHanded<V(!new)>(s: State<V>, step: SendStep<V>)
    requires SendEnabled(s, step) && step.Handoff?
    ensures RecvDecided(DoSend(s, step), step.taker, Received(s.sends[step.op].value))
  {
  }

  lemma SendKeepsInv<V(!new)>(s: State<V>, step: SendStep<V>)
    requires Inv(s) && SendEnabled(s, step)
    ensures Inv(DoSend(s, step))
  {
    hide DoSend, SendEnabled, FlowOk, SendGateOk, RecvGateOk, SignalsOk, EofOk, EndOk, RoundsOk, SendersOk, TakersOk, LateOk;
    SendKeepsFlow(s, step);
    SendKeepsGate(s, step);
    SendKeepsRecvGate(s, step);
    SendKeepsSignals(s, step);
    SendKeepsReports(s, step);
    SendKeepsEnd(s, step);
    SendKeepsSenders(s, step);
    SendKeepsTakers(s, step);
    SendKeepsLate(s, step);
  }

  lemma SendKeepsLate<V(!new)>(s: State<V>, step: SendStep<V>)
    requires FlowOk(s) && SendGateOk(s) && LateOk(s) && SendEnabled(s, step)
    ensures LateOk(DoSend(s, step))
  {
    var t := DoSend(s, step);
    forall op | t.session.done && SendAt(t, op, Waiting) ensures SendAt(s, op, Waiting) && op != step.op {
    }
    if step.SendEnqueue? || step.Handoff? {
      assert InFlight(s, step.op);
      assert forall op :: SendAt(s, op, Waiting) ==> InFlight(s, op);
    }
  }

  lemma SameWaiting<V(!new)>(s: State<V>, t: State<V>)
    requires LateOk(s) && t.sends == s.sends && t.flow.accepted == s.flow.accepted
    requires s.session.done ==> t.session.done && t.session.acceptedAtDone == s.session.acceptedAtDone
    requires !s.session.done && t.session.done ==> t.session.acceptedAtDone == |s.flow.accepted|
    ensures LateOk(t)
  {
    assert forall op :: SendAt(t, op, Waiting) <==> SendAt(s, op, Waiting);
  }

  // ---- receiving -------------------------------------------------------------------------

  lemma RecvKeepsFlow<V(!new)>(s: State<V>, step: RecvStep)
    requires FlowOk(s) && RecvEnabled(s, step)
    ensures FlowOk(DoRecv(s, step))
  {
    if step.RecvTake? {
      assert s.flow.queue == [s.flow.queue[0]] + s.flow.queue[1..];
    }
  }

  lemma RecvKeepsSends<V(!new)>(s: State<V>, step: RecvStep)
    requires RecvEnabled(s, step)
    ensures var t := DoRecv(s, step);
      && t.sends == s.sends && t.gate == s.gate && t.closes == s.closes && t.session == s.session
      && t.flow.accepted == s.flow.accepted && t.log.senders == s.log.senders && t.log.sendResults == s.log.sendResults
  {
  }

  lemma SameSends<V(!new)>(s: State<V>, t: State<V>)
    requires t.sends == s.sends && t.gate == s.gate && t.flow.accepted == s.flow.accepted
    requires t.log.senders == s.log.senders && t.log.sendResults == s.log.sendResults
    ensures SendGateOk(s) ==> SendGateOk(t)
    ensures SendersOk(s) ==> SendersOk(t)
  {
    assert forall op :: InFlight(t, op) <==> InFlight(s, op);
    assert forall op, value, r :: SendDecided(t, op, value, r) <==> SendDecided(s, op, value, r);
  }

  lemma RecvKeepsGate<V(!new)>(s: State<V>, step: RecvStep)
    requires RecvGateOk(s) && RecvEnabled(s, step)
    ensures RecvGateOk(DoRecv(s, step))
  {
    var t := DoRecv(s, step);
    var op := step.op;
    assert forall a :: a != op ==> (Receiving(t, a) <==> Receiving(s, a));
    if step.RecvBegin? && !s.recvBusy {
      assert Receiving(t, op);
    } else if step.RecvEnd? {
      assert Receiving(s, op) && !Receiving(t, op);
    } else {
      assert Receiving(t, op) <==> Receiving(s, op);
      SameReceiving(s, t);
    }
  }

  function RecvDecidesNow<V>(s: State<V>, step: RecvStep): Option<RecvResult<V>>
    requires RecvEnabled(s, step)
  {
    match step
    case RecvBegin(_, cancelled) => if s.recvBusy then Some(RecvConflict) else if cancelled then Some(RecvCancelled) else None
    case RecvTake(_) => Some(Received(s.flow.queue[0]))
    case RecvMiss(op) =>
      if s.recvs[op].pc.Poll? then None else Some(if s.recvs[op].pc.LastPoll? then RecvEnded(Why(s)) else EndOfSide)
    case RecvStop(_, why) => if why.OwnContext? then Some(RecvCancelled) else None
    case _ => None
  }

  lemma RecvDecides<V(!new)>(s: State<V>, step: RecvStep, op: OpId, r: RecvResult<V>)
    requires RecvEnabled(s, step)
    ensures RecvDecided(DoRecv(s, step), op, r) ==>
      RecvDecided(s, op, r) || (op == step.op && RecvDecidesNow(s, step) == Some(r))
  {
  }

  lemma RecvStays<V(!new)>(s: State<V>, step: RecvStep, op: OpId, r: RecvResult<V>)
    requires RecvEnabled(s, step) && RecvDecided(s, op, r) && (op in s.recvs ==> op !in s.log.recvResults)
    ensures RecvDecided(DoRecv(s, step), op, r)
  {
  }

  lemma RecvKeepsEof<V(!new)>(s: State<V>, step: RecvStep)
    requires EofOk(s) && RecvEnabled(s, step)
    ensures EofOk(DoRecv(s, step))
  {
    hide RecvDecided;
    var t := DoRecv(s, step);
    forall op | RecvDecided(t, op, EndOfSide) ensures t.gate.closed && t.flow.queue == [] {
      RecvDecides(s, step, op, EndOfSide);
    }
  }

  lemma RecvKeepsEnd<V(!new)>(s: State<V>, step: RecvStep)
    requires FlowOk(s) && SessionOk(s) && EndOk(s) && RecvEnabled(s, step)
    ensures EndOk(DoRecv(s, step))
  {
    hide RecvDecided, SendDecided;
    var t := DoRecv(s, step);
    RecvKeepsSends(s, step);
    forall op, why | RecvDecided(t, op, RecvEnded(why))
      ensures t.session.done && t.session.terminal == Some(why) && t.session.acceptedAtDone <= |t.flow.received|
    {
      RecvDecides(s, step, op, RecvEnded(why));
    }
    forall op, value, why | SendDecided(t, op, value, SendEnded(why))
      ensures t.session.done && t.session.terminal == Some(why)
    {
      SameSendDecided(s, t, op, value, SendEnded(why));
    }
  }

  lemma SameSendDecided<V(!new)>(s: State<V>, t: State<V>, op: OpId, value: V, r: SendResult)
    requires t.sends == s.sends && t.log.sendResults == s.log.sendResults
    ensures SendDecided(t, op, value, r) <==> SendDecided(s, op, value, r)
  {
  }

  lemma RecvOwnRound<V(!new)>(s: State<V>, step: RecvStep)
    requires SessionOk(s) && RecvEnabled(s, step)
    requires step.op in s.recvs ==> RoundOk(s.recvs[step.op], s.session.done)
    ensures step.op in DoRecv(s, step).recvs ==> RoundOk(DoRecv(s, step).recvs[step.op], s.session.done)
  {
  }

  lemma RecvOtherRounds<V(!new)>(s: State<V>, step: RecvStep, op: OpId)
    requires RecvEnabled(s, step) && op != step.op
    ensures op in DoRecv(s, step).recvs <==> op in s.recvs
    ensures op in s.recvs ==> DoRecv(s, step).recvs[op] == s.recvs[op]
    ensures DoRecv(s, step).session == s.session
  {
  }

  lemma RecvKeepsRounds<V(!new)>(s: State<V>, step: RecvStep)
    requires SessionOk(s) && RoundsOk(s) && RecvEnabled(s, step)
    ensures RoundsOk(DoRecv(s, step))
  {
    hide DoRecv, RecvEnabled;
    var t := DoRecv(s, step);
    RecvKeepsSends(s, step);
    RecvOwnRound(s, step);
    forall op | op in t.recvs ensures RoundOk(t.recvs[op], t.session.done) {
      if op != step.op {
        RecvOtherRounds(s, step, op);
      }
    }
  }

  lemma RecvKeepsTakers<V(!new)>(s: State<V>, step: RecvStep)
    requires TakersOk(s) && RecvEnabled(s, step)
    ensures TakersOk(DoRecv(s, step))
  {
    hide RecvDecided;
    var t := DoRecv(s, step);
    if step.RecvTake? {
      NotYetTaken(s, step.op);
    }
    forall i | 0 <= i < |t.log.takers| ensures RecvDecided(t, t.log.takers[i], Received(t.flow.received[i])) {
      if i < |s.log.takers| {
        RecvStays(s, step, s.log.takers[i], Received(s.flow.received[i]));
      } else {
        NowTaken(s, step);
      }
    }
    forall o, value | RecvDecided(t, o, Received(value)) ensures o in t.log.takers {
      RecvDecides(s, step, o, Received(value));
      assert step.RecvTake? ==> t.log.takers[|s.log.takers|] == step.op;
    }
  }

  lemma NowTaken<V(!new)>(s: State<V>, step: RecvStep)
    requires RecvEnabled(s, step) && step.RecvTake?
    ensures RecvDecided(DoRecv(s, step), step.op, Received(s.flow.queue[0]))
  {
  }

  lemma RecvKeepsInv<V(!new)>(s: State<V>, step: RecvStep)
    requires Inv(s) && RecvEnabled(s, step)
    ensures Inv(DoRecv(s, step))
  {
    hide DoRecv, RecvEnabled, FlowOk, SendGateOk, RecvGateOk, EofOk, EndOk, RoundsOk, SendersOk, TakersOk, LateOk;
    RecvKeepsFlow(s, step);
    RecvKeepsSends(s, step);
    SameSends(s, DoRecv(s, step));
    RecvKeepsGate(s, step);
    RecvKeepsEof(s, step);
    RecvKeepsEnd(s, step);
    RecvKeepsRounds(s, step);
    RecvKeepsTakers(s, step);
    SameWaiting(s, DoRecv(s, step));
  }

  // ---- closing the send side, and the session --------------------------------------------

  // Neither touches the calls that send and receive, nor what has flowed.
  ghost predicate CallsKept<V>(s: State<V>, t: State<V>) {
    t.sends == s.sends && t.recvs == s.recvs && t.recvBusy == s.recvBusy && t.flow == s.flow && t.log == s.log && t.cap == s.cap
  }

  lemma CloseKeepsCalls<V(!new)>(s: State<V>, step: CloseStep)
    requires CloseEnabled(s, step)
    ensures CallsKept(s, DoClose(s, step)) && DoClose(s, step).session == s.session
    ensures s.gate.closed ==> DoClose(s, step).gate.closed
    ensures DoClose(s, step).gate.(closed := s.gate.closed) == s.gate
    ensures DoClose(s, step).gate.closed ==> s.gate.closed || !s.gate.busy
  {
  }

  lemma SessionKeepsCalls<V(!new)>(s: State<V>, step: SessionStep)
    requires SessionEnabled(s, step)
    ensures CallsKept(s, DoSession(s, step)) && DoSession(s, step).gate == s.gate && DoSession(s, step).closes == s.closes
    ensures s.session.done ==> DoSession(s, step).session.done
    ensures s.session.done && s.session.terminal.Some? ==>
      DoSession(s, step).session.terminal == s.session.terminal
      && DoSession(s, step).session.acceptedAtDone == s.session.acceptedAtDone
    ensures !s.session.done && DoSession(s, step).session.done ==>
      DoSession(s, step).session.acceptedAtDone == |s.flow.accepted|
  {
  }

  lemma KeptCallsKeep<V(!new)>(s: State<V>, t: State<V>)
    requires CallsKept(s, t)
    ensures RecvGateOk(s) ==> RecvGateOk(t)
    ensures SendersOk(s) ==> SendersOk(t)
    ensures TakersOk(s) ==> TakersOk(t)
    ensures EofOk(s) && (s.gate.closed ==> t.gate.closed) ==> EofOk(t)
    ensures RoundsOk(s) && (s.session.done ==> t.session.done) ==> RoundsOk(t)
  {
    assert forall op :: Receiving(t, op) <==> Receiving(s, op);
    assert forall op, r :: RecvDecided(t, op, r) <==> RecvDecided(s, op, r);
    assert forall op, value, r :: SendDecided(t, op, value, r) <==> SendDecided(s, op, value, r);
  }

  lemma KeptEnd<V(!new)>(s: State<V>, t: State<V>)
    requires CallsKept(s, t) && EndOk(s) && SessionOk(s)
    requires s.session.done ==>
      t.session.done && t.session.terminal == s.session.terminal && t.session.acceptedAtDone == s.session.acceptedAtDone
    ensures EndOk(t)
  {
    assert forall op, r :: RecvDecided(t, op, r) <==> RecvDecided(s, op, r);
    assert forall op, value, r :: SendDecided(t, op, value, r) <==> SendDecided(s, op, value, r);
  }

  lemma KeptGate<V(!new)>(s: State<V>, t: State<V>)
    requires CallsKept(s, t) && SendGateOk(s) && t.gate.busy == s.gate.busy
    requires t.gate.closed ==> s.gate.closed || !s.gate.busy
    ensures SendGateOk(t)
  {
    assert forall op :: InFlight(t, op) <==> InFlight(s, op);
    if s.gate.busy {
      var op :| InFlight(s, op);
      assert InFlight(t, op);
    }
  }

  lemma CloseKeepsSignals<V(!new)>(s: State<V>, step: CloseStep)
    requires SignalsOk(s) && CloseEnabled(s, step)
    ensures SignalsOk(DoClose(s, step))
  {
  }

  lemma CloseKeepsInv<V(!new)>(s: State<V>, step: CloseStep)
    requires Inv(s) && CloseEnabled(s, step)
    ensures Inv(DoClose(s, step))
  {
    hide DoClose, CloseEnabled, SendGateOk, RecvGateOk, SignalsOk, EofOk, EndOk, RoundsOk, SendersOk, TakersOk, LateOk;
    var t := DoClose(s, step);
    CloseKeepsCalls(s, step);
    CloseKeepsSignals(s, step);
    KeptCallsKeep(s, t);
    KeptEnd(s, t);
    KeptGate(s, t);
    SameWaiting(s, t);
  }

  lemma SessionKeepsInv<V(!new)>(s: State<V>, step: SessionStep)
    requires Inv(s) && SessionEnabled(s, step)
    ensures Inv(DoSession(s, step))
  {
    hide SendGateOk, RecvGateOk, EofOk, EndOk, RoundsOk, SendersOk, TakersOk, LateOk;
    var t := DoSession(s, step);
    SessionKeepsCalls(s, step);
    KeptCallsKeep(s, t);
    KeptEnd(s, t);
    KeptGate(s, t);
    SameWaiting(s, t);
  }

  // ---- every run -------------------------------------------------------------------------

  lemma InvStep<V(!new)>(s: State<V>, t: State<V>)
    requires Inv(s) && Next(s, t)
    ensures Inv(t)
  {
    hide Inv;
    var step: Step<V> :| Enabled(s, step) && t == Do(s, step);
    match step {
      case OfSend(x) => SendKeepsInv(s, x);
      case OfRecv(x) => RecvKeepsInv(s, x);
      case OfClose(x) => CloseKeepsInv(s, x);
      case OfSession(x) => SessionKeepsInv(s, x);
    }
  }

  lemma {:induction false} InvAlong<V(!new)>(trace: seq<State<V>>, i: nat)
    requires Run(trace) && i < |trace|
    ensures Inv(trace[i])
  {
    hide Inv, Next;
    if i == 0 {
      InvInit<V>(trace[0].cap);
    } else {
      InvAlong(trace, i - 1);
      InvStep(trace[i - 1], trace[i]);
    }
  }
}
