/** The outbox as a state machine: table rows, running relays, the consumers' inbox table and the
    effects the consumers committed. Every SQL statement or short transaction of the relay, of the
    inbox wrapper and of the dead-letter tool is one atomic step; a relay may crash between any two. A
    statement works with the time its transaction started at, which may lie before the moment it takes effect. */
module OutboxMachine {
  import opened Options

  type EventId = string
  type Topic = string
  type Consumer = string
  type WorkerId = nat
  // Tokens are drawn fresh; numbering them in draw order lets a run say which claim came first.
  type Token = nat

  datatype Config = Config(lease: nat, batch: nat, maxAttempts: nat, interval: int, subs: map<Topic, seq<Consumer>>) {
    predicate Valid() { maxAttempts >= 1 && batch >= 1 && 0 < interval < INT64_LIMIT }

    function Handlers(topic: Topic): seq<Consumer> {
      if topic in subs then subs[topic] else []
    }
  }

  datatype Row = Row(topic: Topic, metaOk: bool, attempts: nat, nextAttemptAt: int,
                     claimedUntil: Option<int>, claimToken: Option<Token>,
                     failedAt: Option<int>, publishedAt: Option<int>) {
    predicate Live() { publishedAt.None? && failedAt.None? }

    predicate Due(now: int) {
      Live() && nextAttemptAt <= now && (claimedUntil.None? || claimedUntil.value < now)
    }

    predicate OwnedBy(token: Token) { Live() && claimToken == Some(token) }

    function Unclaimed(): Row { this.(claimedUntil := None, claimToken := None) }
  }

  type Rows = map<EventId, Row>

  // What a relay remembers of a claimed row.
  datatype Claimed = Claimed(id: EventId, topic: Topic, metaOk: bool, attempts: nat)

  // Where a relay stands in its round. `delivered` counts the events every handler accepted;
  // when `failure` holds, the event right after them is the one that failed.
  datatype Phase =
    | Delivering(index: nat, handler: nat, bad: bool)
    | Publishing(delivered: nat, failure: bool)
    | Recording(delivered: nat, failure: bool)
    | Releasing(delivered: nat, failure: bool)

  datatype Worker = Worker(token: Token, events: seq<Claimed>, phase: Phase) {
    function Delivered(): nat {
      match phase
      case Delivering(index, _, _) => index
      case Publishing(d, _) => d
      case Recording(d, _) => d
      case Releasing(d, _) => d
    }

    // The first position of the batch that no settling statement has been sent for.
    function Unsettled(): nat {
      match phase
      case Delivering(_, _, _) => 0
      case Publishing(_, _) => 0
      case Recording(d, _) => d
      case Releasing(d, _) => d + 1
    }
  }

  // A claim as the database granted it, with the moment it took effect; kept for the proofs after the relay is gone.
  datatype Grant = Grant(takenAt: int, until: int, attempts: map<EventId, nat>)

  datatype State = State(now: int, rows: Rows, workers: map<WorkerId, Worker>,
                         inbox: set<(Consumer, EventId)>, effects: multiset<(Consumer, EventId)>,
                         grants: seq<Grant>)

  datatype Outcome = Succeeds | RolledBack | CommittedThenError | Panics

  datatype Step =
    | Tick(to: int)
    | Append(id: EventId, topic: Topic, metaOk: bool, at: int)
    | Claim(w: WorkerId, ids: seq<EventId>, at: int)
    | Handle(w: WorkerId, outcome: Outcome)
    | Reject(w: WorkerId)
    | Finish(w: WorkerId)
    | Settle(w: WorkerId, applied: bool, at: int)
    | Crash(w: WorkerId)
    | Requeue(dead: set<EventId>, at: int)

  // ---- the statements --------------------------------------------------------------------

  function ClaimMark(rows: Rows, ids: seq<EventId>, until: int, token: Token): Rows {
    map id | id in rows ::
      if id in ids && rows[id].Live() then rows[id].(claimedUntil := Some(until), claimToken := Some(token))
      else rows[id]
  }

  function MarkPublished(rows: Rows, ids: seq<EventId>, token: Token, now: int): Rows {
    map id | id in rows ::
      if id in ids && rows[id].OwnedBy(token) then rows[id].Unclaimed().(publishedAt := Some(now)) else rows[id]
  }

  function MarkRetry(rows: Rows, id: EventId, token: Token, at: int): Rows {
    if id in rows && rows[id].OwnedBy(token)
    then rows[id := rows[id].Unclaimed().(attempts := rows[id].attempts + 1, nextAttemptAt := at)]
    else rows
  }

  function MarkDead(rows: Rows, id: EventId, token: Token, now: int): Rows {
    if id in rows && rows[id].OwnedBy(token)
    then rows[id := rows[id].Unclaimed().(attempts := rows[id].attempts + 1, failedAt := Some(now))]
    else rows
  }

  function Release(rows: Rows, ids: seq<EventId>, token: Token): Rows {
    map id | id in rows :: if id in ids && rows[id].OwnedBy(token) then rows[id].Unclaimed() else rows[id]
  }

  function PutBack(rows: Rows, ids: set<EventId>, now: int): Rows {
    map id | id in rows ::
      if id in ids && rows[id].failedAt.Some? && rows[id].publishedAt.None?
      then rows[id].Unclaimed().(failedAt := None, attempts := 0, nextAttemptAt := now)
      else rows[id]
  }

  // ---- back-off --------------------------------------------------------------------------

  // Durations are nanoseconds; the database clock counts milliseconds.
  const NANOS_PER_MILLI: int := 1_000_000
  const MAX_BACKOFF: int := 300_000_000_000
  const INT64_LIMIT: int := 0x8000_0000_0000_0000

  // Two's-complement wrap of a 64-bit result.
  function Wrap64(x: int): int {
    (x + INT64_LIMIT) % (2 * INT64_LIMIT) - INT64_LIMIT
  }

  function Pow2(n: nat): nat { if n == 0 then 1 else 2 * Pow2(n - 1) }

  function Min(a: int, b: int): int { if a < b then a else b }

  // The delay the documentation promises: base * 2^attempts, capped.
  function PromisedDelay(base: int, attempts: nat): int { Min(base * Pow2(attempts), MAX_BACKOFF) }

  lemma {:induction false} Pow2Grows(base: int, i: nat, n: nat)
    requires base >= 0 && i <= n
    ensures base * Pow2(i) <= base * Pow2(n)
    decreases n
  {
    if i < n {
      Pow2Grows(base, i, n - 1);
      assert base * Pow2(n) == 2 * (base * Pow2(n - 1));
    }
  }

  lemma WrapDouble(d: int)
    requires 0 < d < INT64_LIMIT
    ensures 2 * d < INT64_LIMIT ==> Wrap64(2 * d) == 2 * d
    ensures 2 * d >= INT64_LIMIT ==> Wrap64(2 * d) <= 0
  {
  }

  /** The doubling loop runs on 64-bit durations that wrap; it still yields the promised delay for
      every positive base and every attempt count. */
  method Backoff(base: int, attempts: nat) returns (d: int)
    requires 0 < base < INT64_LIMIT
    ensures d == PromisedDelay(base, attempts)
  {
    d := base;
    for i := 0 to attempts
      invariant d == base * Pow2(i) && 0 < d < INT64_LIMIT
    {
      WrapDouble(d);
      assert base * Pow2(i + 1) == 2 * d;
      Pow2Grows(base, i + 1, attempts);
      d := Wrap64(d * 2);
      if d >= MAX_BACKOFF || d <= 0 {
        return MAX_BACKOFF;
      }
    }
    return Min(d, MAX_BACKOFF);
  }

  // ---- steps -----------------------------------------------------------------------------

  function Ids(events: seq<Claimed>): (ids: seq<EventId>)
    ensures |ids| == |events| && forall i :: 0 <= i < |ids| ==> ids[i] == events[i].id
  {
    seq(|events|, i requires 0 <= i < |events| => events[i].id)
  }

  function Snapshot(rows: Rows, ids: seq<EventId>): (events: seq<Claimed>)
    requires forall id :: id in ids ==> id in rows
    ensures Ids(events) == ids
  {
    seq(|ids|, i requires 0 <= i < |ids| =>
      var r := rows[ids[i]]; Claimed(ids[i], r.topic, r.metaOk, r.attempts))
  }

  predicate Distinct<T(==)>(xs: seq<T>) {
    forall i, j :: 0 <= i < j < |xs| ==> xs[i] != xs[j]
  }

  predicate Busy(s: State, w: WorkerId) {
    w in s.workers && s.workers[w].phase.Delivering? && s.workers[w].phase.index < |s.workers[w].events|
  }

  function Current(s: State, w: WorkerId): Claimed
    requires Busy(s, w)
  {
    s.workers[w].events[s.workers[w].phase.index]
  }

  predicate Enabled(c: Config, s: State, step: Step) {
    match step
    case Tick(to) => s.now <= to
    case Append(id, _, _, at) => id !in s.rows && at <= s.now
    case Claim(w, ids, at) =>
      && at <= s.now && w !in s.workers && 0 < |ids| <= c.batch && Distinct(ids)
      && forall id :: id in ids ==> id in s.rows && s.rows[id].Due(at)
    case Handle(w, _) =>
      Busy(s, w) && Current(s, w).metaOk && s.workers[w].phase.handler < |c.Handlers(Current(s, w).topic)|
    case Reject(w) =>
      Busy(s, w) && (!Current(s, w).metaOk || c.Handlers(Current(s, w).topic) == [])
    case Finish(w) =>
      && Busy(s, w) && Current(s, w).metaOk
      && 0 < |c.Handlers(Current(s, w).topic)| == s.workers[w].phase.handler
    case Settle(w, _, at) =>
      at <= s.now && w in s.workers && !s.workers[w].phase.Delivering?
    case Crash(w) => w in s.workers
    case Requeue(_, at) => at <= s.now
  }

  // One handler of one event: the inbox row and the business effect commit together or not at all.
  function HandleState(c: Config, s: State, w: WorkerId, outcome: Outcome): State
    requires Enabled(c, s, Handle(w, outcome))
  {
    var k := s.workers[w];
    var key := (c.Handlers(Current(s, w).topic)[k.phase.handler], Current(s, w).id);
    var commits := outcome.Succeeds? || outcome.CommittedThenError?;
    var first := commits && key !in s.inbox;
    var phase :=
      if outcome.Panics? then Publishing(k.phase.index, true)
      else Delivering(k.phase.index, k.phase.handler + 1, k.phase.bad || !outcome.Succeeds?);
    s.(workers := s.workers[w := k.(phase := phase)],
       inbox := if first then s.inbox + {key} else s.inbox,
       effects := if first then s.effects + multiset{key} else s.effects)
  }

  function FinishPhase(k: Worker): Phase
    requires k.phase.Delivering?
  {
    if k.phase.bad then Publishing(k.phase.index, true)
    else if k.phase.index + 1 == |k.events| then Publishing(k.phase.index + 1, false)
    else Delivering(k.phase.index + 1, 0, false)
  }

  function RecordFailure(c: Config, rows: Rows, e: Claimed, token: Token, at: int): Rows {
    if e.attempts + 1 >= c.maxAttempts then MarkDead(rows, e.id, token, at)
    else MarkRetry(rows, e.id, token, at + PromisedDelay(c.interval, e.attempts) / NANOS_PER_MILLI)
  }

  function SettleRows(c: Config, s: State, k: Worker, at: int): Rows {
    match k.phase
    case Delivering(_, _, _) => s.rows
    case Publishing(d, _) =>
      if d <= |k.events| then MarkPublished(s.rows, Ids(k.events[..d]), k.token, at) else s.rows
    case Recording(d, failure) =>
      if failure && d < |k.events| then RecordFailure(c, s.rows, k.events[d], k.token, at) else s.rows
    case Releasing(d, failure) =>
      if failure && d < |k.events| then Release(s.rows, Ids(k.events[d + 1..]), k.token) else s.rows
  }

  function SettleState(c: Config, s: State, w: WorkerId, applied: bool, at: int): State
    requires Enabled(c, s, Settle(w, applied, at))
  {
    var k := s.workers[w];
    s.(rows := if applied then SettleRows(c, s, k, at) else s.rows,
       workers := match k.phase
                  case Publishing(d, f) => s.workers[w := k.(phase := Recording(d, f))]
                  case Recording(d, f) => s.workers[w := k.(phase := Releasing(d, f))]
                  case _ => s.workers - {w})
  }

  function ClaimState(c: Config, s: State, w: WorkerId, ids: seq<EventId>, at: int): State
    requires Enabled(c, s, Claim(w, ids, at))
  {
    var token := |s.grants|;
    s.(rows := ClaimMark(s.rows, ids, at + c.lease, token),
       workers := s.workers[w := Worker(token, Snapshot(s.rows, ids), Delivering(0, 0, false))],
       grants := s.grants + [Grant(s.now, at + c.lease, map id | id in ids :: s.rows[id].attempts)])
  }

  function Do(c: Config, s: State, step: Step): State
    requires Enabled(c, s, step)
  {
    match step
    case Tick(to) => s.(now := to)
    case Append(id, topic, metaOk, at) =>
      s.(rows := s.rows[id := Row(topic, metaOk, 0, at, None, None, None, None)])
    case Claim(w, ids, at) => ClaimState(c, s, w, ids, at)
    case Handle(w, outcome) => HandleState(c, s, w, outcome)
    case Reject(w) =>
      s.(workers := s.workers[w := s.workers[w].(phase := Publishing(s.workers[w].phase.index, true))])
    case Finish(w) =>
      s.(workers := s.workers[w := s.workers[w].(phase := FinishPhase(s.workers[w]))])
    case Settle(w, applied, at) => SettleState(c, s, w, applied, at)
    case Crash(w) => s.(workers := s.workers - {w})
    case Requeue(dead, at) => s.(rows := PutBack(s.rows, dead, at))
  }

  // ---- runs ------------------------------------------------------------------------------

  ghost predicate Init(s: State) {
    s.rows == map[] && s.workers == map[] && s.inbox == {} && s.effects == multiset{} && s.grants == []
  }

  ghost predicate Next(c: Config, s: State, t: State) {
    exists step :: Enabled(c, s, step) && t == Do(c, s, step)
  }

  // A finite run, every state it passes through listed.
  ghost predicate Run(c: Config, trace: seq<State>) {
    |trace| > 0 && forall i :: 0 <= i < |trace| - 1 ==> Next(c, trace[i], trace[i + 1])
  }
}
