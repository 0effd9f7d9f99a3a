/**
 * One direction of an in-process stream (contract/stream.go) and the session both ends share, as a
 * state machine. A step is one critical section, one channel operation or one read of shared state;
 * where a select has several ready cases, each of them is a possible step.
 */
module StreamMachine {
  import opened Options

  type OpId = nat

  // What the session ended with: io.EOF, or an error.
  datatype Terminal = CleanEnd | Failed(code: nat)

  datatype SendResult = Sent | SendCancelled | SideClosed | Conflict | SendEnded(why: Terminal)

  // Calling: before `begin`. Between Checking and Leaving the call holds the busy flag.
  datatype SendPc = Calling | Checking | Waiting | AwaitingDone | Leaving(result: SendResult)

  datatype SendOp<V> = SendOp(value: V, pc: SendPc)

  datatype RecvResult<V> = Received(value: V) | EndOfSide | RecvCancelled | RecvEnded(why: Terminal) | RecvConflict

  // Gate: before tryBegin. Poll and LastPoll take without waiting; Select waits for any of its cases.
  datatype RecvPc<V> = Gate | Poll | AskDone | LastPoll | Select | ClosedPoll | AwaitDone | Return(result: RecvResult<V>)

  datatype RecvOp<V> = RecvOp(round: nat, pc: RecvPc<V>)

  // Look: about to read the session; Lock: about to enter the critical section; Park: waiting on a signal.
  datatype ClosePc = Look | Lock | Park(signal: nat) | AwaitEnd

  // Why a waiting call stops: its own context, or what it sees of the session or the other side.
  datatype Stop = OwnContext | SeesDone | SeesCancel | SeesForce | SeesClosed

  datatype Closer = NotClosing | Finishing | TimedWait

  // The channel, and what went into it and came out of it.
  datatype Flow<V> = Flow(queue: seq<V>, accepted: seq<V>, received: seq<V>)

  // sendState: `changed` is the signal of the latest Send, `fired` the signals that have been closed.
  datatype SendGate = SendGate(busy: bool, closed: bool, changed: nat, fired: set<nat>)

  // `cancelled` is the root context; acceptedAtDone is history.
  datatype Session = Session(
    done: bool, cancelled: bool, forced: bool, terminal: Option<Terminal>, closer: Closer, acceptedAtDone: nat)

  // History: which calls put each value in and took it out, and what the finished calls returned.
  datatype Log<V> = Log(
    senders: seq<OpId>, takers: seq<OpId>, sendResults: map<OpId, (V, SendResult)>, recvResults: map<OpId, RecvResult<V>>)

  datatype State<V> = State(
    cap: nat,
    flow: Flow<V>,
    gate: SendGate,
    recvBusy: bool,
    session: Session,
    sends: map<OpId, SendOp<V>>,
    recvs: map<OpId, RecvOp<V>>,
    closes: map<OpId, ClosePc>,
    log: Log<V>)

  datatype SendStep<V> =
    | SendCall(op: OpId, value: V)
    | SendGiveUp(op: OpId)
    | SendBegin(op: OpId)
    | SendCheck(op: OpId)
    | SendEnqueue(op: OpId)
    | SendStop(op: OpId, why: Stop)
    | SendSeesDone(op: OpId)
    | SendEnd(op: OpId)
    | Handoff(op: OpId, taker: OpId)

  datatype RecvStep =
    | RecvCall(op: OpId)
    | RecvBegin(op: OpId, cancelled: bool)
    | RecvTake(op: OpId)
    | RecvMiss(op: OpId)
    | RecvAsk(op: OpId)
    | RecvStop(op: OpId, why: Stop)
    | RecvSeesDone(op: OpId)
    | RecvEnd(op: OpId)

  datatype CloseStep =
    | CloseCall(op: OpId)
    | CloseLook(op: OpId)
    | CloseLock(op: OpId, cancelled: bool)
    | CloseWake(op: OpId)
    | CloseStop(op: OpId, why: Stop)
    | CloseSeesDone(op: OpId)

  datatype SessionStep = CancelRoot | FinishStart(err: Option<Terminal>) | FinishDone | CloseStream | CloseFinished | CloseTimeout

  datatype Step<V> = OfSend(send: SendStep<V>) | OfRecv(recv: RecvStep) | OfClose(close: CloseStep) | OfSession(session: SessionStep)

  // ---- the three kinds of calls ----------------------------------------------------------

  predicate SendAt(s: State, op: OpId, pc: SendPc) { op in s.sends && s.sends[op].pc == pc }

  // The places where a receive can take a value.
  predicate CanTake(s: State, op: OpId) {
    op in s.recvs && (s.recvs[op].pc.Poll? || s.recvs[op].pc.LastPoll? || s.recvs[op].pc.Select? || s.recvs[op].pc.ClosedPoll?)
  }

  function SendTo<V>(s: State<V>, op: OpId, pc: SendPc): State<V>
    requires op in s.sends
  {
    s.(sends := s.sends[op := s.sends[op].(pc := pc)])
  }

  function RecvTo<V>(s: State<V>, op: OpId, pc: RecvPc<V>): State<V>
    requires op in s.recvs
  {
    s.(recvs := s.recvs[op := s.recvs[op].(pc := pc)])
  }

  // Back to the top of the receive loop.
  function RecvAgain<V>(s: State<V>, op: OpId): State<V>
    requires op in s.recvs
  {
    s.(recvs := s.recvs[op := RecvOp(s.recvs[op].round + 1, Poll)])
  }

  function CloseTo<V>(s: State<V>, op: OpId, pc: ClosePc): State<V> {
    s.(closes := s.closes[op := pc])
  }

  function CloseOut<V>(s: State<V>, op: OpId): State<V> {
    s.(closes := s.closes - {op})
  }

  // Whether a waiting call can be woken for this reason.
  predicate Ready(s: State, why: Stop) {
    match why
    case OwnContext => true
    case SeesDone => s.session.done
    case SeesCancel => s.session.cancelled
    case SeesForce => s.session.forced
    case SeesClosed => s.gate.closed
  }

  // The value another goroutine reads once the session is over.
  function Why(s: State): Terminal {
    if s.session.terminal.Some? then s.session.terminal.value else CleanEnd
  }

  function Accept<V>(s: State<V>, op: OpId): State<V>
    requires op in s.sends
  {
    s.(flow := s.flow.(accepted := s.flow.accepted + [s.sends[op].value]),
       sends := s.sends[op := s.sends[op].(pc := Leaving(Sent))],
       log := s.log.(senders := s.log.senders + [op]))
  }

  function Take<V>(s: State<V>, op: OpId, value: V): State<V>
    requires op in s.recvs
  {
    s.(flow := s.flow.(received := s.flow.received + [value]),
       recvs := s.recvs[op := s.recvs[op].(pc := Return(Received(value)))],
       log := s.log.(takers := s.log.takers + [op]))
  }

  function Push<V>(s: State<V>, value: V): State<V> {
    s.(flow := s.flow.(queue := s.flow.queue + [value]))
  }

  function Pop<V>(s: State<V>): State<V>
    requires s.flow.queue != []
  {
    s.(flow := s.flow.(queue := s.flow.queue[1..]))
  }

  // `finish` records io.EOF only for a clean result on a context that still lives.
  function Normalized(s: State, err: Option<Terminal>): Terminal {
    match err
    case None => if s.session.cancelled then Failed(0) else CleanEnd
    case Some(CleanEnd) => if s.session.cancelled then Failed(0) else CleanEnd
    case Some(e) => e
  }

  // ---- sending ---------------------------------------------------------------------------

  predicate SendEnabled<V>(s: State<V>, step: SendStep<V>) {
    match step
    case SendCall(op, _) => op !in s.sends && op !in s.log.sendResults
    // The caller's context has ended before the gate was asked.
    case SendGiveUp(op) => SendAt(s, op, Calling)
    case SendBegin(op) => SendAt(s, op, Calling)
    case SendCheck(op) => SendAt(s, op, Checking)
    case SendEnqueue(op) => SendAt(s, op, Waiting) && |s.flow.queue| < s.cap
    case SendStop(op, why) => SendAt(s, op, Waiting) && Ready(s, why)
    case SendSeesDone(op) => SendAt(s, op, AwaitingDone) && s.session.done
    case SendEnd(op) => op in s.sends && s.sends[op].pc.Leaving?
    case Handoff(op, taker) => s.cap == 0 && SendAt(s, op, Waiting) && CanTake(s, taker)
  }

  function SendOut<V>(s: State<V>, op: OpId, r: SendResult): State<V>
    requires op in s.sends
  {
    s.(sends := s.sends - {op}, log := s.log.(sendResults := s.log.sendResults[op := (s.sends[op].value, r)]))
  }

  function DoSend<V>(s: State<V>, step: SendStep<V>): State<V>
    requires SendEnabled(s, step)
  {
    match step
    case SendCall(op, value) => s.(sends := s.sends[op := SendOp(value, Calling)])
    case SendGiveUp(op) => SendOut(s, op, SendCancelled)
    case SendBegin(op) =>
      if s.gate.closed then SendOut(s, op, SideClosed)
      else if s.gate.busy then SendOut(s, op, Conflict)
      else SendTo(s, op, Checking).(gate := s.gate.(busy := true, changed := s.gate.changed + 1))
    case SendCheck(op) =>
      SendTo(s, op, if s.session.done then Leaving(SendEnded(Why(s))) else if s.session.cancelled then AwaitingDone else Waiting)
    case SendEnqueue(op) => Push(Accept(s, op), s.sends[op].value)
    case SendStop(op, why) =>
      SendTo(s, op, match why
                    case OwnContext => Leaving(SendCancelled)
                    case SeesClosed => Leaving(SideClosed)
                    case SeesCancel => AwaitingDone
                    case _ => Leaving(SendEnded(Why(s))))
    case SendSeesDone(op) => SendTo(s, op, Leaving(SendEnded(Why(s))))
    case SendEnd(op) => 
      SendOut(s, op, s.sends[op].pc.result).(gate := s.gate.(busy := false, fired := s.gate.fired + {s.gate.changed}))
    case Handoff(op, taker) => Take(Accept(s, op), taker, s.sends[op].value)
  }

  // ---- receiving -------------------------------------------------------------------------

  predicate RecvEnabled<V>(s: State<V>, step: RecvStep) {
    match step
    case RecvCall(op) => op !in s.recvs && op !in s.log.recvResults
    case RecvBegin(op, _) => op in s.recvs && s.recvs[op].pc.Gate?
    case RecvTake(op) => CanTake(s, op) && s.flow.queue != []
    // A poll that finds nothing: a rendezvous can be missed, a buffered value cannot.
    case RecvMiss(op) => CanTake(s, op) && !s.recvs[op].pc.Select? && s.flow.queue == []
    case RecvAsk(op) => op in s.recvs && s.recvs[op].pc.AskDone?
    case RecvStop(op, why) => op in s.recvs && s.recvs[op].pc.Select? && Ready(s, why)
    case RecvSeesDone(op) => op in s.recvs && s.recvs[op].pc.AwaitDone? && s.session.done
    case RecvEnd(op) => op in s.recvs && s.recvs[op].pc.Return?
  }

  function RecvOut<V>(s: State<V>, op: OpId, r: RecvResult<V>): State<V> {
    s.(recvs := s.recvs - {op}, log := s.log.(recvResults := s.log.recvResults[op := r]))
  }

  function DoRecv<V>(s: State<V>, step: RecvStep): State<V>
    requires RecvEnabled(s, step)
  {
    match step
    case RecvCall(op) => s.(recvs := s.recvs[op := RecvOp(1, Gate)])
    case RecvBegin(op, cancelled) =>
      if s.recvBusy then RecvOut(s, op, RecvConflict)
      else RecvTo(s, op, if cancelled then Return(RecvCancelled) else Poll).(recvBusy := true)
    case RecvTake(op) => Take(Pop(s), op, s.flow.queue[0])
    case RecvMiss(op) =>
      RecvTo(s, op, match s.recvs[op].pc
                    case Poll => AskDone
                    case LastPoll => Return(RecvEnded(Why(s)))
                    case _ => Return(EndOfSide))
    case RecvAsk(op) => RecvTo(s, op, if s.session.done then LastPoll else Select)
    case RecvStop(op, why) =>
      (match why
       case OwnContext => RecvTo(s, op, Return(RecvCancelled))
       case SeesClosed => RecvTo(s, op, ClosedPoll)
       case SeesCancel => RecvTo(s, op, AwaitDone)
       case _ => RecvAgain(s, op))
    case RecvSeesDone(op) => RecvAgain(s, op)
    case RecvEnd(op) => RecvOut(s, op, s.recvs[op].pc.result).(recvBusy := false)
  }

  // ---- closing the send side -------------------------------------------------------------

  predicate CloseEnabled<V>(s: State<V>, step: CloseStep) {
    match step
    case CloseCall(op) => op !in s.closes
    case CloseLook(op) => op in s.closes && s.closes[op].Look?
    case CloseLock(op, _) => op in s.closes && s.closes[op].Lock?
    case CloseWake(op) => op in s.closes && s.closes[op].Park? && s.closes[op].signal in s.gate.fired
    case CloseStop(op, why) => op in s.closes && s.closes[op].Park? && Ready(s, why) && !why.SeesClosed?
    case CloseSeesDone(op) => op in s.closes && s.closes[op].AwaitEnd? && s.session.done
  }

  function DoClose<V>(s: State<V>, step: CloseStep): State<V>
    requires CloseEnabled(s, step)
  {
    match step
    case CloseCall(op) => CloseTo(s, op, Look)
    case CloseLook(op) =>
      if s.session.done then CloseOut(s, op) else CloseTo(s, op, if s.session.cancelled then AwaitEnd else Lock)
    case CloseLock(op, cancelled) =>
      if s.gate.closed || cancelled then CloseOut(s, op)
      else if !s.gate.busy then CloseOut(s, op).(gate := s.gate.(closed := true))
      else CloseTo(s, op, Park(s.gate.changed))
    case CloseWake(op) => CloseTo(s, op, Look)
    case CloseStop(op, why) => if why.SeesCancel? then CloseTo(s, op, AwaitEnd) else CloseOut(s, op)
    case CloseSeesDone(op) => CloseOut(s, op)
  }

  // ---- the session -----------------------------------------------------------------------

  predicate SessionEnabled<V>(s: State<V>, step: SessionStep) {
    match step
    case CancelRoot => true
    case FinishStart(_) => s.session.terminal.None?
    case FinishDone => s.session.terminal.Some? && !s.session.done
    case CloseStream => s.session.closer.NotClosing?
    case CloseFinished => s.session.closer.Finishing? && s.session.done
    case CloseTimeout => s.session.closer.TimedWait?
  }

  function DoSession<V>(s: State<V>, step: SessionStep): State<V>
    requires SessionEnabled(s, step)
  {
    match step
    case CancelRoot => s.(session := s.session.(cancelled := true))
    case FinishStart(err) => s.(session := s.session.(terminal := Some(Normalized(s, err))))
    case FinishDone => s.(session := s.session.(done := true, acceptedAtDone := |s.flow.accepted|))
    case CloseStream => s.(session := s.session.(closer := Finishing))
    case CloseFinished => s.(session := s.session.(closer := TimedWait))
    case CloseTimeout => s.(session := s.session.(forced := true))
  }

  // ---- runs ------------------------------------------------------------------------------

  predicate Enabled<V>(s: State<V>, step: Step<V>) {
    match step
    case OfSend(x) => SendEnabled(s, x)
    case OfRecv(x) => RecvEnabled(s, x)
    case OfClose(x) => CloseEnabled(s, x)
    case OfSession(x) => SessionEnabled(s, x)
  }

  function Do<V>(s: State<V>, step: Step<V>): State<V>
    requires Enabled(s, step)
  {
    match step
    case OfSend(x) => DoSend(s, x)
    case OfRecv(x) => DoRecv(s, x)
    case OfClose(x) => DoClose(s, x)
    case OfSession(x) => DoSession(s, x)
  }

  function Opened<V>(cap: nat): State<V> {
    State(cap, Flow([], [], []), SendGate(false, false, 0, {0}), false,
          Session(false, false, false, None, NotClosing, 0), map[], map[], map[], Log([], [], map[], map[]))
  }

  ghost predicate Next<V(!new)>(s: State<V>, t: State<V>) {
    exists step: Step<V> :: Enabled(s, step) && t == Do(s, step)
  }

  ghost predicate Run<V(!new)>(trace: seq<State<V>>) {
    && |trace| > 0 && trace[0] == Opened(trace[0].cap)
    && forall i :: 0 <= i < |trace| - 1 ==> Next(trace[i], trace[i + 1])
  }
}
