/**
 * Idempotency keys (idem/idem.go) as a state machine: any number of middleware requests over one table.
 * A step is one SQL statement, one handler run, or the clock. A statement works with the time it started
 * at, which may lie before the moment it takes effect; requests may die anywhere.
 */
module IdemMachine {
  import opened Options
  import opened IdemResponse

  type Key = string
  type Hash = nat      // the request fingerprint
  type Token = nat     // numbered as they are drawn
  type ReqId = nat

  // In clock units; limit is the capture limit in bytes.
  datatype Config = Config(ttl: nat, limit: nat)

  datatype RowState = InProgress | Completed(response: Response) | Executed(status: int)

  datatype Row = Row(hash: Hash, token: Token, createdAt: int, state: RowState)

  // How a statement ended for its caller: an error may come before or after its effect.
  datatype Exec = Fine | LostBefore | LostAfter

  // Insert, Read and TakeOver are the statements of one try of the claim loop.
  datatype Phase = Insert(tries: nat) | Read(tries: nat) | TakeOver(tries: nat) | Handling | Settling(calls: seq<Call>, failed: bool)

  datatype Req = Req(key: Key, hash: Hash, token: Token, phase: Phase)

  // Replayed and Answered carry what the client gets.
  datatype Reply = Mismatch | Replayed(response: Response) | ResultUnavailable | InFlight | Unavailable | Answered(response: Response)

  // History: every claim that took effect, and every handler run that returned.
  datatype Claim = Claim(key: Key, hash: Hash, token: Token, at: int)

  // The calls are those of the handler on its writer; failed says that some write did not go out whole.
  datatype HandlerRun = HandlerRun(key: Key, hash: Hash, token: Token, calls: seq<Call>, failed: bool) {
    function Result(): Response { RecordedResponse(calls) }
  }

  datatype Answer = Answer(key: Key, hash: Hash, reply: Reply)

  datatype State = State(
    now: int,
    tokens: nat,
    rows: map<Key, Row>,
    reqs: map<ReqId, Req>,
    claims: seq<Claim>,
    runs: seq<HandlerRun>,
    answers: map<ReqId, Answer>)

  datatype Step =
    | Tick(to: int)
    | Arrive(r: ReqId, key: Key, hash: Hash)
    | DoInsert(r: ReqId, at: int, exec: Exec)
    | DoRead(r: ReqId, at: int, exec: Exec)
    | DoTakeOver(r: ReqId, at: int, exec: Exec)
    | HandlerReturns(r: ReqId, calls: seq<Call>, failed: bool)
    | Settle(r: ReqId, exec: Exec)
    | Die(r: ReqId)

  // ---- the decisions ---------------------------------------------------------------------

  // A response that was not captured whole, or did not reach its client, is not replayed.
  predicate Replayable(c: Config, response: Response, failed: bool) {
    |response.body| <= c.limit && !failed
  }

  predicate Stale(c: Config, row: Row, at: int) { row.createdAt < at - c.ttl }

  predicate MayTakeOver(c: Config, row: Row, at: int) { row.state.InProgress? && Stale(c, row, at) }

  // The fingerprint is compared before the state.
  function ReplyTo(row: Row, hash: Hash): Reply {
    if row.hash != hash then Mismatch
    else match row.state
      case Completed(response) => Replayed(SentResponse(ReplayCalls(response)))
      case Executed(_) => ResultUnavailable
      case InProgress => InFlight
  }

  const TRIES: nat := 3

  // ---- steps -----------------------------------------------------------------------------

  predicate Enabled(c: Config, s: State, step: Step) {
    match step
    case Tick(to) => s.now <= to
    case Arrive(r, _, _) => r !in s.reqs && r !in s.answers
    case DoInsert(r, at, _) => r in s.reqs && s.reqs[r].phase.Insert? && at <= s.now
    case DoRead(r, at, _) => r in s.reqs && s.reqs[r].phase.Read? && at <= s.now
    case DoTakeOver(r, at, _) => r in s.reqs && s.reqs[r].phase.TakeOver? && at <= s.now
    case HandlerReturns(r, calls, _) => r in s.reqs && s.reqs[r].phase.Handling? && AllLegal(calls)
    case Settle(r, _) => r in s.reqs && s.reqs[r].phase.Settling?
    case Die(r) => r in s.reqs
  }

  function To(s: State, r: ReqId, phase: Phase): State
    requires r in s.reqs
  {
    s.(reqs := s.reqs[r := s.reqs[r].(phase := phase)])
  }

  function AnswerWith(s: State, r: ReqId, reply: Reply): State
    requires r in s.reqs
  {
    s.(reqs := s.reqs - {r}, answers := s.answers[r := Answer(s.reqs[r].key, s.reqs[r].hash, reply)])
  }

  // The next try of the claim loop, if one is left.
  function NextTry(s: State, r: ReqId, tries: nat): State
    requires r in s.reqs
  {
    if tries + 1 < TRIES then To(s, r, Insert(tries + 1)) else AnswerWith(s, r, Unavailable)
  }

  // A claim that took effect; the request goes on to its handler unless it lost the answer.
  function Claimed(s: State, r: ReqId, token: Token, at: int, lost: bool): State
    requires r in s.reqs
  {
    var q := s.reqs[r].(token := token, phase := Handling);
    var t := s.(rows := s.rows[q.key := Row(q.hash, token, at, InProgress)],
                reqs := s.reqs[r := q],
                claims := s.claims + [Claim(q.key, q.hash, token, at)]);
    if lost then AnswerWith(t, r, Unavailable) else t
  }

  // INSERT … ON CONFLICT DO NOTHING, with a token drawn for this try.
  function InsertState(s: State, r: ReqId, at: int, exec: Exec): State
    requires r in s.reqs && s.reqs[r].phase.Insert?
  {
    var token := s.tokens;
    var drawn := s.(tokens := token + 1);
    if exec.LostBefore? then AnswerWith(drawn, r, Unavailable)
    else if s.reqs[r].key !in s.rows then Claimed(drawn, r, token, at, exec.LostAfter?)
    else if exec.LostAfter? then AnswerWith(drawn, r, Unavailable)
    else drawn.(reqs := s.reqs[r := s.reqs[r].(token := token, phase := Read(s.reqs[r].phase.tries))])
  }

  function ReadState(c: Config, s: State, r: ReqId, at: int, exec: Exec): State
    requires r in s.reqs && s.reqs[r].phase.Read?
  {
    var q := s.reqs[r];
    if !exec.Fine? then AnswerWith(s, r, Unavailable)
    else if q.key !in s.rows then NextTry(s, r, q.phase.tries)
    else if MayTakeOver(c, s.rows[q.key], at) && s.rows[q.key].hash == q.hash then To(s, r, TakeOver(q.phase.tries))
    else AnswerWith(s, r, ReplyTo(s.rows[q.key], q.hash))
  }

  // The guarded UPDATE; it does not look at the fingerprint again.
  function TakeOverState(c: Config, s: State, r: ReqId, at: int, exec: Exec): State
    requires r in s.reqs && s.reqs[r].phase.TakeOver?
  {
    var q := s.reqs[r];
    if exec.LostBefore? then AnswerWith(s, r, Unavailable)
    else if q.key in s.rows && MayTakeOver(c, s.rows[q.key], at) then
      var row := s.rows[q.key].(token := q.token, createdAt := at);
      var t := s.(rows := s.rows[q.key := row],
                  reqs := s.reqs[r := q.(phase := Handling)],
                  claims := s.claims + [Claim(q.key, q.hash, q.token, at)]);
      if exec.LostAfter? then AnswerWith(t, r, Unavailable) else t
    else if exec.LostAfter? then AnswerWith(s, r, Unavailable)
    else NextTry(s, r, q.phase.tries)
  }

  // Complete, or MarkExecuted: both only under the token that claimed.
  function Settled(c: Config, row: Row, response: Response, failed: bool): Row {
    row.(state := if Replayable(c, response, failed) then Completed(Kept(response)) else Executed(response.status))
  }

  predicate Holds(s: State, r: ReqId) {
    && r in s.reqs && s.reqs[r].key in s.rows
    && s.rows[s.reqs[r].key].state.InProgress? && s.rows[s.reqs[r].key].token == s.reqs[r].token
  }

  function SettleState(c: Config, s: State, r: ReqId, exec: Exec): State
    requires r in s.reqs && s.reqs[r].phase.Settling?
  {
    var q := s.reqs[r];
    var t := AnswerWith(s, r, Answered(SentResponse(q.phase.calls)));
    if Holds(s, r) && !exec.LostBefore?
    then t.(rows := s.rows[q.key := Settled(c, s.rows[q.key], RecordedResponse(q.phase.calls), q.phase.failed)])
    else t
  }

  function ReturnState(s: State, r: ReqId, calls: seq<Call>, failed: bool): State
    requires r in s.reqs
  {
    var q := s.reqs[r];
    To(s, r, Settling(calls, failed)).(runs := s.runs + [HandlerRun(q.key, q.hash, q.token, calls, failed)])
  }

  function Do(c: Config, s: State, step: Step): State
    requires Enabled(c, s, step)
  {
    match step
    case Tick(to) => s.(now := to)
    case Arrive(r, key, hash) => s.(reqs := s.reqs[r := Req(key, hash, 0, Insert(0))])
    case DoInsert(r, at, exec) => InsertState(s, r, at, exec)
    case DoRead(r, at, exec) => ReadState(c, s, r, at, exec)
    case DoTakeOver(r, at, exec) => TakeOverState(c, s, r, at, exec)
    case HandlerReturns(r, calls, failed) => ReturnState(s, r, calls, failed)
    case Settle(r, exec) => SettleState(c, s, r, exec)
    case Die(r) => s.(reqs := s.reqs - {r})
  }

  ghost predicate Init(s: State) {
    s.tokens == 0 && s.rows == map[] && s.reqs == map[] && s.claims == [] && s.runs == [] && s.answers == map[]
  }

  ghost predicate Next(c: Config, s: State, t: State) {
    exists step :: Enabled(c, s, step) && t == Do(c, s, step)
  }

  ghost predicate Run(c: Config, trace: seq<State>) {
    |trace| > 0 && Init(trace[0]) && forall i :: 0 <= i < |trace| - 1 ==> Next(c, trace[i], trace[i + 1])
  }
}
