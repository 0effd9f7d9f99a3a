/** The promises of idem/idem.go, over every run of the idempotency machine. */
module IdemTheorems {
  import opened Options
  import opened IdemMachine
  import opened IdemResponse
  import opened IdemSafety

  // ---- what a step never undoes ----------------------------------------------------------

  // Histories grow at the end; a claim is new, or of a stale row in progress.
  ghost predicate Grows(c: Config, s: State, t: State) {
    && s.now <= t.now && RowsGrow(s.rows, t.rows) && s.claims <= t.claims && s.runs <= t.runs
    && (forall i :: |s.claims| <= i < |t.claims| ==>
          t.claims[i].key in s.rows ==> s.rows[t.claims[i].key].state.InProgress?)
  }

  // A claim takes effect only where the guard of its statement held.
  ghost predicate ClaimGuarded(c: Config, s: State, t: State) {
    |t.claims| <= |s.claims| + 1
    && (|t.claims| > |s.claims| ==>
          var claim := t.claims[|s.claims|];
          claim.key in s.rows ==> claim.at <= s.now && MayTakeOver(c, s.rows[claim.key], claim.at))
  }

  lemma InsertGrows(c: Config, s: State, r: ReqId, at: int, exec: Exec)
    requires Enabled(c, s, DoInsert(r, at, exec))
    ensures Grows(c, s, Do(c, s, DoInsert(r, at, exec))) && ClaimGuarded(c, s, Do(c, s, DoInsert(r, at, exec)))
  {
  }

  lemma TakeOverGrows(c: Config, s: State, r: ReqId, at: int, exec: Exec)
    requires Enabled(c, s, DoTakeOver(r, at, exec))
    ensures Grows(c, s, Do(c, s, DoTakeOver(r, at, exec))) && ClaimGuarded(c, s, Do(c, s, DoTakeOver(r, at, exec)))
  {
  }

  lemma OtherGrows(c: Config, s: State, step: Step)
    requires Enabled(c, s, step) && !step.DoInsert? && !step.DoTakeOver?
    ensures Grows(c, s, Do(c, s, step)) && Do(c, s, step).claims == s.claims
  {
  }

  lemma StepGrows(c: Config, s: State, step: Step)
    requires Enabled(c, s, step)
    ensures Grows(c, s, Do(c, s, step)) && ClaimGuarded(c, s, Do(c, s, step))
  {
    hide Enabled, Do, Grows;
    match step {
      case DoInsert(r, at, exec) => InsertGrows(c, s, r, at, exec);
      case DoTakeOver(r, at, exec) => TakeOverGrows(c, s, r, at, exec);
      case _ => OtherGrows(c, s, step);
    }
  }

  lemma GrowsTransitive(c: Config, s: State, t: State, u: State)
    requires Grows(c, s, t) && Grows(c, t, u)
    ensures Grows(c, s, u)
  {
    forall i | |s.claims| <= i < |u.claims| && u.claims[i].key in s.rows
      ensures s.rows[u.claims[i].key].state.InProgress?
    {
      if i < |t.claims| {
        assert u.claims[i] == t.claims[i];
      }
    }
  }

  lemma {:induction false} GrowsAlong(c: Config, trace: seq<State>, i: nat, j: nat)
    requires Run(c, trace) && i <= j < |trace|
    ensures Grows(c, trace[i], trace[j])
    decreases j
  {
    hide Next, Init, Grows;
    if i == j {
      GrowsReflexive(c, trace[i]);
    } else {
      GrowsAlong(c, trace, i, j - 1);
      NextGrows(c, trace[j - 1], trace[j]);
      GrowsTransitive(c, trace[i], trace[j - 1], trace[j]);
    }
  }

  lemma GrowsReflexive(c: Config, s: State)
    ensures Grows(c, s, s)
  {
  }

  lemma NextGrows(c: Config, s: State, t: State)
    requires Next(c, s, t)
    ensures Grows(c, s, t) && ClaimGuarded(c, s, t)
  {
    hide Enabled, Do, Grows, ClaimGuarded;
    var step :| Enabled(c, s, step) && t == Do(c, s, step);
    StepGrows(c, s, step);
  }

  // ---- claims ----------------------------------------------------------------------------

  /** Two claims of one key lie more than the TTL apart, and carry the same fingerprint. */
  lemma ClaimsApart(c: Config, trace: seq<State>, i: nat, a: nat, b: nat)
    requires Run(c, trace) && i < |trace| && a < b < |trace[i].claims|
    requires trace[i].claims[a].key == trace[i].claims[b].key
    ensures trace[i].claims[a].at + c.ttl < trace[i].claims[b].at
    ensures trace[i].claims[a].hash == trace[i].claims[b].hash
  {
    hide TokensOk, RunsOk, DoneOk, WaitOk, AnswersOk, Run;
    InvAlong(c, trace, i);
  }

  /** A completed or executed record is final: it never changes, and its key is never claimed again. */
  lemma FinishedForever(c: Config, trace: seq<State>, i: nat, j: nat, k: Key)
    requires Run(c, trace) && i <= j < |trace| && k in trace[i].rows && !trace[i].rows[k].state.InProgress?
    ensures k in trace[j].rows && trace[j].rows[k] == trace[i].rows[k]
    ensures forall m :: |trace[i].claims| <= m < |trace[j].claims| ==> trace[j].claims[m].key != k
  {
    hide Run;
    GrowsAlong(c, trace, i, j);
  }

  // ---- handler runs ----------------------------------------------------------------------

  // Every record in progress is younger than the TTL: no holder has failed to settle in time.
  ghost predicate SettledInTime(c: Config, s: State) {
    forall k :: k in s.rows && s.rows[k].state.InProgress? ==> s.now <= s.rows[k].createdAt + c.ttl
  }

  ghost predicate OneClaimEach(s: State) {
    forall a, b :: 0 <= a < b < |s.claims| ==> s.claims[a].key != s.claims[b].key
  }

  lemma OneClaimStep(c: Config, s: State, t: State)
    requires Inv(c, s) && Next(c, s, t) && SettledInTime(c, s) && OneClaimEach(s)
    ensures OneClaimEach(t)
  {
    hide Next, TokensOk, RunsOk, DoneOk, WaitOk, AnswersOk;
    NextGrows(c, s, t);
    if |t.claims| > |s.claims| {
      var k := t.claims[|s.claims|].key;
      assert k !in s.rows;
      forall a | 0 <= a < |s.claims| ensures t.claims[a].key != k {
        assert t.claims[a] == s.claims[a] && s.claims[a].key in s.rows;
      }
    }
    forall a, b | 0 <= a < b < |t.claims| ensures t.claims[a].key != t.claims[b].key {
      if b < |s.claims| {
        assert t.claims[a] == s.claims[a] && t.claims[b] == s.claims[b];
      }
    }
  }

  lemma {:induction false} OneClaimAlong(c: Config, trace: seq<State>, i: nat)
    requires Run(c, trace) && i < |trace| && forall j :: 0 <= j < i ==> SettledInTime(c, trace[j])
    ensures OneClaimEach(trace[i])
  {
    hide Inv, Next, Init, OneClaimEach, SettledInTime;
    if i == 0 {
      OneClaimAtFirst(trace[0]);
    } else {
      OneClaimAlong(c, trace, i - 1);
      InvAlong(c, trace, i - 1);
      OneClaimStep(c, trace[i - 1], trace[i]);
    }
  }

  lemma OneClaimAtFirst(s: State)
    requires Init(s)
    ensures OneClaimEach(s)
  {
  }

  // A request begins to run its handler in this step.
  ghost predicate Starts(s: State, t: State, r: ReqId) {
    r in t.reqs && t.reqs[r].phase.Handling? && !(r in s.reqs && s.reqs[r].phase.Handling?)
  }

  lemma StartIsClaim(c: Config, s: State, step: Step, r: ReqId)
    requires Enabled(c, s, step) && Starts(s, Do(c, s, step), r)
    ensures var t := Do(c, s, step);
      && |t.claims| == |s.claims| + 1 && s.claims <= t.claims && t.claims[|s.claims|].key == t.reqs[r].key
      && forall p :: Starts(s, t, p) ==> p == r
  {
  }

  lemma StartAddsClaim(c: Config, s: State, t: State, r: ReqId)
    requires Next(c, s, t) && Starts(s, t, r)
    ensures |t.claims| == |s.claims| + 1 && s.claims <= t.claims && t.claims[|s.claims|].key == t.reqs[r].key
    ensures forall p :: Starts(s, t, p) ==> p == r
  {
    hide Enabled, Do, Starts;
    var step :| Enabled(c, s, step) && t == Do(c, s, step);
    StartIsClaim(c, s, step, r);
  }

  /** If every holder settles within the TTL, a handler is started at most once for a key, however many
      requests carry it and whatever else fails: also one that panicked or died counts. */
  lemma AtMostOneStart(c: Config, trace: seq<State>, i: nat, j: nat, r: ReqId, p: ReqId)
    requires Run(c, trace) && i <= j < |trace| - 1 && (forall k :: 0 <= k <= j ==> SettledInTime(c, trace[k]))
    requires Starts(trace[i], trace[i + 1], r) && Starts(trace[j], trace[j + 1], p)
    ensures i < j ==> trace[i + 1].reqs[r].key != trace[j + 1].reqs[p].key
    ensures i == j ==> r == p
  {
    hide Inv, Next, Init, SettledInTime, Starts, RowsGrow;
    StartAddsClaim(c, trace[i], trace[i + 1], r);
    StartAddsClaim(c, trace[j], trace[j + 1], p);
    if i < j {
      GrowsAlong(c, trace, i + 1, j);
      OneClaimAlong(c, trace, j + 1);
      var claims := trace[j + 1].claims;
      assert claims[|trace[i].claims|] == trace[i + 1].claims[|trace[i].claims|];
    }
  }

  /** So the handlers that returned are of different keys. */
  lemma AtMostOneRun(c: Config, trace: seq<State>, i: nat, a: nat, b: nat)
    requires Run(c, trace) && i < |trace| && (forall j :: 0 <= j < i ==> SettledInTime(c, trace[j]))
    requires a < b < |trace[i].runs|
    ensures trace[i].runs[a].key != trace[i].runs[b].key
  {
    hide DoneOk, WaitOk, AnswersOk, Run, HasClaim, SettledInTime;
    InvAlong(c, trace, i);
    OneClaimAlong(c, trace, i);
    var s := trace[i];
    SameKeySameToken(s.claims, s.runs[a], s.runs[b]);
  }

  lemma SameKeySameToken(claims: seq<Claim>, x: HandlerRun, y: HandlerRun)
    requires HasClaim(claims, x.key, x.hash, x.token) && HasClaim(claims, y.key, y.hash, y.token)
    requires forall a, b :: 0 <= a < b < |claims| ==> claims[a].key != claims[b].key
    ensures x.key == y.key ==> x.token == y.token
  {
  }

  // The times at which a key was claimed.
  function ClaimTimes(claims: seq<Claim>, k: Key): (times: seq<int>) {
    if claims == [] then []
    else
      var last := claims[|claims| - 1];
      ClaimTimes(claims[..|claims| - 1], k) + (if last.key == k then [last.at] else [])
  }

  ghost predicate ClaimedAt(claims: seq<Claim>, k: Key, at: int) {
    exists a :: 0 <= a < |claims| && claims[a].key == k && claims[a].at == at
  }

  lemma StillClaimedAt(less: seq<Claim>, claims: seq<Claim>, k: Key, at: int)
    requires less <= claims && ClaimedAt(less, k, at)
    ensures ClaimedAt(claims, k, at)
  {
    var a :| 0 <= a < |less| && less[a].key == k && less[a].at == at;
    assert claims[a] == less[a];
  }

  ghost predicate Apart(times: seq<int>, ttl: nat) {
    forall i :: 0 <= i < |times| - 1 ==> times[i] + ttl < times[i + 1]
  }

  lemma {:induction false} TimesApart(ttl: nat, claims: seq<Claim>, k: Key)
    requires forall a, b :: 0 <= a < b < |claims| && claims[a].key == claims[b].key ==> claims[a].at + ttl < claims[b].at
    ensures Apart(ClaimTimes(claims, k), ttl)
    ensures forall i :: 0 <= i < |ClaimTimes(claims, k)| ==> ClaimedAt(claims, k, ClaimTimes(claims, k)[i])
  {
    if claims != [] {
      var less, last := claims[..|claims| - 1], claims[|claims| - 1];
      TimesApart(ttl, less, k);
      var before, times := ClaimTimes(less, k), ClaimTimes(claims, k);
      assert times == before + (if last.key == k then [last.at] else []);
      forall i | 0 <= i < |before| ensures ClaimedAt(claims, k, before[i]) && (last.key == k ==> before[i] + ttl < last.at) {
        assert ClaimedAt(less, k, before[i]);
        StillClaimedAt(less, claims, k, before[i]);
        var a :| 0 <= a < |less| && less[a].key == k && less[a].at == before[i];
        assert claims[a] == less[a];
      }
      assert last.key == k ==> ClaimedAt(claims, k, last.at);
    }
  }

  lemma {:induction false} ApartSpread(times: seq<int>, ttl: nat)
    requires times != [] && Apart(times, ttl)
    ensures times[0] + (|times| - 1) * ttl <= times[|times| - 1]
  {
    var n := |times|;
    if n > 1 {
      ApartSpread(times[..n - 1], ttl);
      assert (n - 2) * ttl + ttl == (n - 1) * ttl;
    }
  }

  /** In general a key can be claimed, and so its handler run, at most once more per TTL that passes. */
  lemma ClaimRate(c: Config, trace: seq<State>, i: nat, k: Key)
    requires Run(c, trace) && i < |trace| && ClaimTimes(trace[i].claims, k) != []
    ensures var times := ClaimTimes(trace[i].claims, k);
      times[0] + (|times| - 1) * c.ttl <= times[|times| - 1]
  {
    hide Run, TokensOk, RunsOk, DoneOk, WaitOk, AnswersOk, ClaimTimes;
    InvAlong(c, trace, i);
    TimesApart(c.ttl, trace[i].claims, k);
    ApartSpread(ClaimTimes(trace[i].claims, k), c.ttl);
  }

  /** Each handler run belongs to a claim of its own: no claim is executed twice. */
  lemma RunsHaveClaims(c: Config, trace: seq<State>, i: nat)
    requires Run(c, trace) && i < |trace|
    ensures var s := trace[i];
      && (forall a :: 0 <= a < |s.runs| ==> HasClaim(s.claims, s.runs[a].key, s.runs[a].hash, s.runs[a].token))
      && (forall a, b :: 0 <= a < b < |s.runs| ==> s.runs[a].token != s.runs[b].token)
      && (forall a, b :: 0 <= a < b < |s.claims| ==> s.claims[a].token != s.claims[b].token)
  {
    hide Run, RowsOk, DoneOk, WaitOk, AnswersOk, HasClaim;
    InvAlong(c, trace, i);
  }

  // ---- answers ---------------------------------------------------------------------------

  /** A replay is what the record of a handler run sends when it is written out, a run with the same key
      and fingerprint whose writes all went out. Its client gets the body that run's client got; it gets
      the same status exactly if that was recorded as it was sent, or an informational one was recorded
      and a 200 sent; and, if the handler left the header map alone after the header had gone out, the
      whole response, less the headers never replayed and marked as a replay, exactly then. */
  lemma ReplayIsFaithful(c: Config, trace: seq<State>, i: nat, r: ReqId)
    requires Run(c, trace) && i < |trace| && r in trace[i].answers && trace[i].answers[r].reply.Replayed?
    ensures var a := trace[i].answers[r];
      exists m :: 0 <= m < |trace[i].runs| &&
        var run := trace[i].runs[m];
        && run.key == a.key && run.hash == a.hash && !run.failed && |BodyOf(run.calls)| <= c.limit
        && a.reply.response == SentResponse(ReplayCalls(Kept(run.Result())))
        && a.reply.response.body == BodyOf(run.calls)
        && (a.reply.response.status == Sent(run.calls) <==> StatusReplayed(run.calls))
        && (NoLateHeaders(run.calls) ==>
              (a.reply.response == AsReplayed(SentResponse(run.calls)) <==> StatusReplayed(run.calls)))
  {
    hide Run, TokensOk, RowsOk, WaitOk, StatusReplayed, NoLateHeaders, Sent, SentHeaders, ReplayCalls, AsReplayed, Kept;
    InvAlong(c, trace, i);
    var s := trace[i];
    var a := s.answers[r];
    var row := s.rows[a.key];
    assert Standing(row, a);
    var m :| 0 <= m < |s.runs| && FinishedBy(c, a.key, row, s.runs[m]);
    ReplayIsSentIff(s.runs[m].calls);
  }

  /** All replays of a key are the same response, whenever they are given. */
  lemma ReplaysAgree(c: Config, trace: seq<State>, i: nat, j: nat, r: ReqId, p: ReqId)
    requires Run(c, trace) && i <= j < |trace|
    requires r in trace[i].answers && trace[i].answers[r].reply.Replayed?
    requires p in trace[j].answers && trace[j].answers[p].reply.Replayed?
    requires trace[i].answers[r].key == trace[j].answers[p].key
    ensures trace[i].answers[r].reply == trace[j].answers[p].reply
    ensures trace[i].answers[r].hash == trace[j].answers[p].hash
  {
    hide Run, TokensOk, RunsOk, RowsOk, DoneOk, WaitOk;
    InvAlong(c, trace, i);
    InvAlong(c, trace, j);
    GrowsAlong(c, trace, i, j);
    assert Standing(trace[i].rows[trace[i].answers[r].key], trace[i].answers[r]);
    assert Standing(trace[j].rows[trace[j].answers[p].key], trace[j].answers[p]);
  }

  /** Neither a mismatch nor "already executed" is ever taken back, and the read after a failed insert
      always finds its row. */
  lemma VerdictsStand(c: Config, trace: seq<State>, i: nat, j: nat, r: ReqId)
    requires Run(c, trace) && i <= j < |trace| && r in trace[i].answers
    requires trace[i].answers[r].reply.Mismatch? || trace[i].answers[r].reply.ResultUnavailable?
    ensures trace[i].answers[r].key in trace[j].rows
    ensures Standing(trace[j].rows[trace[i].answers[r].key], trace[i].answers[r])
  {
    hide Run, TokensOk, RunsOk, RowsOk, DoneOk, WaitOk;
    InvAlong(c, trace, i);
    GrowsAlong(c, trace, i, j);
    assert Standing(trace[i].rows[trace[i].answers[r].key], trace[i].answers[r]);
  }

  lemma ReadFindsItsRow(c: Config, trace: seq<State>, i: nat, r: ReqId)
    requires Run(c, trace) && i < |trace| && r in trace[i].reqs && trace[i].reqs[r].phase.Read?
    ensures trace[i].reqs[r].key in trace[i].rows
  {
    hide Run, TokensOk, RunsOk, RowsOk, DoneOk, AnswersOk;
    InvAlong(c, trace, i);
  }
}
