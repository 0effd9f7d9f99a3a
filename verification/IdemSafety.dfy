/** What every run of the idempotency machine keeps. */
module IdemSafety {
  import opened Options
  import opened IdemMachine
  import opened IdemResponse

  // ---- invariants ------------------------------------------------------------------------

  predicate HasClaim(claims: seq<Claim>, key: Key, hash: Hash, token: Token) {
    exists i :: 0 <= i < |claims| && claims[i].key == key && claims[i].hash == hash && claims[i].token == token
  }

  predicate Drew(q: Req) { !q.phase.Insert? }

  predicate Working(q: Req) { q.phase.Handling? || q.phase.Settling? }

  // Tokens are drawn once; a working request holds the token of its own claim.
  ghost predicate TokensOk(tokens: nat, claims: seq<Claim>, reqs: map<ReqId, Req>) {
    && (forall i :: 0 <= i < |claims| ==> claims[i].token < tokens)
    && (forall i, j :: 0 <= i < j < |claims| ==> claims[i].token != claims[j].token)
    && (forall r :: r in reqs && Drew(reqs[r]) ==> reqs[r].token < tokens)
    && (forall r, p :: r in reqs && p in reqs && r != p && Drew(reqs[r]) && Drew(reqs[p]) ==> reqs[r].token != reqs[p].token)
    && (forall r :: r in reqs && Drew(reqs[r]) && !Working(reqs[r]) ==>
          forall i :: 0 <= i < |claims| ==> claims[i].token != reqs[r].token)
    && (forall r :: r in reqs && Working(reqs[r]) ==> HasClaim(claims, reqs[r].key, reqs[r].hash, reqs[r].token))
  }

  // Every handler run belongs to one claim, and no claim has two.
  ghost predicate RunsOk(claims: seq<Claim>, runs: seq<HandlerRun>, reqs: map<ReqId, Req>) {
    && (forall i :: 0 <= i < |runs| ==> HasClaim(claims, runs[i].key, runs[i].hash, runs[i].token))
    && (forall i :: 0 <= i < |runs| ==> AllLegal(runs[i].calls))
    && (forall i, j :: 0 <= i < j < |runs| ==> runs[i].token != runs[j].token)
    && (forall r :: r in reqs && reqs[r].phase.Handling? ==> forall i :: 0 <= i < |runs| ==> runs[i].token != reqs[r].token)
    && (forall r :: r in reqs && reqs[r].phase.Settling? ==>
          HandlerRun(reqs[r].key, reqs[r].hash, reqs[r].token, reqs[r].phase.calls, reqs[r].phase.failed) in runs)
  }

  // The row of a key is its latest claim; claims of one key share a fingerprint and lie more than the TTL apart.
  ghost predicate RowsOk(c: Config, claims: seq<Claim>, rows: map<Key, Row>) {
    && (forall k :: k in rows ==> Claim(k, rows[k].hash, rows[k].token, rows[k].createdAt) in claims)
    && (forall i :: 0 <= i < |claims| ==>
          && claims[i].key in rows && rows[claims[i].key].hash == claims[i].hash
          && (claims[i].at == rows[claims[i].key].createdAt || claims[i].at + c.ttl < rows[claims[i].key].createdAt))
    && (forall i, j :: 0 <= i < j < |claims| && claims[i].key == claims[j].key ==> claims[i].at + c.ttl < claims[j].at)
  }

  // A finished row carries what the run under its token produced.
  ghost predicate FinishedBy(c: Config, k: Key, row: Row, run: HandlerRun) {
    && run.key == k && run.hash == row.hash && run.token == row.token
    && (row.state.Completed? ==> Replayable(c, run.Result(), run.failed) && row.state.response == Kept(run.Result()))
    && (row.state.Executed? ==> !Replayable(c, run.Result(), run.failed) && row.state.status == run.Result().status)
  }

  ghost predicate DoneOk(c: Config, rows: map<Key, Row>, runs: seq<HandlerRun>) {
    forall k :: k in rows && !rows[k].state.InProgress? ==>
      exists i :: 0 <= i < |runs| && FinishedBy(c, k, rows[k], runs[i])
  }

  ghost predicate WaitOk(rows: map<Key, Row>, reqs: map<ReqId, Req>) {
    forall r :: r in reqs ==>
      && (reqs[r].phase.Read? || reqs[r].phase.TakeOver? ==> reqs[r].key in rows)
      && (reqs[r].phase.TakeOver? ==> rows[reqs[r].key].hash == reqs[r].hash)
  }

  predicate Standing(row: Row, a: Answer) {
    match a.reply
    case Mismatch => row.hash != a.hash
    case Replayed(_) => row.state.Completed? && ReplyTo(row, a.hash) == a.reply
    case ResultUnavailable => row.hash == a.hash && row.state.Executed?
    case _ => true
  }

  // An answer given from the table stays true of it.
  ghost predicate AnswersOk(rows: map<Key, Row>, answers: map<ReqId, Answer>) {
    forall r :: r in answers && (answers[r].reply.Mismatch? || answers[r].reply.Replayed? || answers[r].reply.ResultUnavailable?) ==>
      answers[r].key in rows && Standing(rows[answers[r].key], answers[r])
  }

  ghost predicate Inv(c: Config, s: State) {
    && TokensOk(s.tokens, s.claims, s.reqs) && RunsOk(s.claims, s.runs, s.reqs) && RowsOk(c, s.claims, s.rows)
    && DoneOk(c, s.rows, s.runs) && WaitOk(s.rows, s.reqs) && AnswersOk(s.rows, s.answers)
  }

  // ---- how rows change -------------------------------------------------------------------

  // Rows are never deleted, keep their fingerprint, and a finished one does not change at all.
  ghost predicate RowsGrow(a: map<Key, Row>, b: map<Key, Row>) {
    forall k :: k in a ==> k in b && b[k].hash == a[k].hash && (!a[k].state.InProgress? ==> b[k] == a[k])
  }

  lemma GrowKeepsAnswers(a: map<Key, Row>, b: map<Key, Row>, answers: map<ReqId, Answer>)
    requires RowsGrow(a, b) && AnswersOk(a, answers)
    ensures AnswersOk(b, answers)
  {
    forall r | r in answers && (answers[r].reply.Mismatch? || answers[r].reply.Replayed? || answers[r].reply.ResultUnavailable?)
      ensures answers[r].key in b && Standing(b[answers[r].key], answers[r])
    {
      assert Standing(a[answers[r].key], answers[r]);
    }
  }

  lemma GrowKeepsWaiting(a: map<Key, Row>, b: map<Key, Row>, reqs: map<ReqId, Req>)
    requires RowsGrow(a, b) && WaitOk(a, reqs)
    ensures WaitOk(b, reqs)
  {
  }

  // ---- a request leaves, or goes to another phase ----------------------------------------

  lemma LeaveKeeps(tokens: nat, claims: seq<Claim>, runs: seq<HandlerRun>, rows: map<Key, Row>, reqs: map<ReqId, Req>, r: ReqId)
    ensures TokensOk(tokens, claims, reqs) ==> TokensOk(tokens, claims, reqs - {r})
    ensures RunsOk(claims, runs, reqs) ==> RunsOk(claims, runs, reqs - {r})
    ensures WaitOk(rows, reqs) ==> WaitOk(rows, reqs - {r})
  {
  }

  // ---- a claim takes effect --------------------------------------------------------------

  // Either there is no row yet, or it is in progress, stale, and of the same fingerprint.
  predicate Claimable(c: Config, rows: map<Key, Row>, key: Key, hash: Hash, at: int) {
    key in rows ==> MayTakeOver(c, rows[key], at) && rows[key].hash == hash
  }

  lemma ClaimKeepsRows(c: Config, claims: seq<Claim>, rows: map<Key, Row>, key: Key, hash: Hash, token: Token, at: int)
    requires RowsOk(c, claims, rows) && Claimable(c, rows, key, hash, at)
    ensures RowsOk(c, claims + [Claim(key, hash, token, at)], rows[key := Row(hash, token, at, InProgress)])
    ensures RowsGrow(rows, rows[key := Row(hash, token, at, InProgress)])
  {
    var more := claims + [Claim(key, hash, token, at)];
    var after := rows[key := Row(hash, token, at, InProgress)];
    assert more[|claims|] == Claim(key, hash, token, at);
    forall k | k in after ensures Claim(k, after[k].hash, after[k].token, after[k].createdAt) in more {
      if k != key {
        assert Claim(k, rows[k].hash, rows[k].token, rows[k].createdAt) in claims;
      }
    }
  }

  lemma ClaimKeepsTokens(tokens: nat, claims: seq<Claim>, reqs: map<ReqId, Req>, r: ReqId, q: Req, token: Token, at: int)
    requires TokensOk(tokens, claims, reqs) && token < tokens && q.token == token && q.phase.Handling?
    requires forall i :: 0 <= i < |claims| ==> claims[i].token != token
    requires forall p :: p in reqs && p != r && Drew(reqs[p]) ==> reqs[p].token != token
    ensures TokensOk(tokens, claims + [Claim(q.key, q.hash, token, at)], reqs[r := q])
  {
    var more := claims + [Claim(q.key, q.hash, token, at)];
    assert more[|claims|] == Claim(q.key, q.hash, token, at);
    var after := reqs[r := q];
    forall p | p in after && Working(after[p]) ensures HasClaim(more, after[p].key, after[p].hash, after[p].token) {
      if p != r {
        MoreClaims(claims, more, reqs[p].key, reqs[p].hash, reqs[p].token);
      }
    }
  }

  lemma MoreClaims(claims: seq<Claim>, more: seq<Claim>, key: Key, hash: Hash, token: Token)
    requires claims <= more && HasClaim(claims, key, hash, token)
    ensures HasClaim(more, key, hash, token)
  {
    var i :| 0 <= i < |claims| && claims[i].key == key && claims[i].hash == hash && claims[i].token == token;
    assert more[i] == claims[i];
  }

  lemma ClaimKeepsRuns(claims: seq<Claim>, runs: seq<HandlerRun>, reqs: map<ReqId, Req>, r: ReqId, q: Req, claim: Claim)
    requires RunsOk(claims, runs, reqs) && q.phase.Handling? && q.token == claim.token
    requires forall i :: 0 <= i < |claims| ==> claims[i].token != claim.token
    ensures RunsOk(claims + [claim], runs, reqs[r := q])
  {
    forall i | 0 <= i < |runs| ensures HasClaim(claims + [claim], runs[i].key, runs[i].hash, runs[i].token) && runs[i].token != claim.token {
      MoreClaims(claims, claims + [claim], runs[i].key, runs[i].hash, runs[i].token);
    }
  }

  lemma ClaimKeepsDone(c: Config, rows: map<Key, Row>, runs: seq<HandlerRun>, key: Key, row: Row)
    requires DoneOk(c, rows, runs) && row.state.InProgress?
    ensures DoneOk(c, rows[key := row], runs)
  {
  }

  // The whole effect of a claim, whichever statement made it.
  lemma ClaimKeepsInv(c: Config, s: State, r: ReqId, q: Req, at: int)
    requires Inv(c, s) && Claimable(c, s.rows, q.key, q.hash, at) && q.phase.Handling? && q.token < s.tokens
    requires forall i :: 0 <= i < |s.claims| ==> s.claims[i].token != q.token
    requires forall p :: p in s.reqs && p != r && Drew(s.reqs[p]) ==> s.reqs[p].token != q.token
    ensures Inv(c, s.(rows := s.rows[q.key := Row(q.hash, q.token, at, InProgress)], reqs := s.reqs[r := q],
                      claims := s.claims + [Claim(q.key, q.hash, q.token, at)]))
  {
    hide TokensOk, RunsOk, RowsOk, DoneOk, AnswersOk, Claimable, RowsGrow;
    var rows := s.rows[q.key := Row(q.hash, q.token, at, InProgress)];
    ClaimKeepsRows(c, s.claims, s.rows, q.key, q.hash, q.token, at);
    ClaimKeepsTokens(s.tokens, s.claims, s.reqs, r, q, q.token, at);
    ClaimKeepsRuns(s.claims, s.runs, s.reqs, r, q, Claim(q.key, q.hash, q.token, at));
    ClaimKeepsDone(c, s.rows, s.runs, q.key, Row(q.hash, q.token, at, InProgress));
    GrowKeepsAnswers(s.rows, rows, s.answers);
    GrowKeepsWaiting(s.rows, rows, s.reqs);
  }

  // ---- an answer -------------------------------------------------------------------------

  lemma AnswerKeepsInv(c: Config, s: State, r: ReqId, reply: Reply)
    requires Inv(c, s) && r in s.reqs
    requires reply.Mismatch? || reply.Replayed? || reply.ResultUnavailable? ==>
      s.reqs[r].key in s.rows && Standing(s.rows[s.reqs[r].key], Answer(s.reqs[r].key, s.reqs[r].hash, reply))
    ensures Inv(c, AnswerWith(s, r, reply))
  {
    hide TokensOk, RunsOk, RowsOk, DoneOk, WaitOk, Standing;
    LeaveKeeps(s.tokens, s.claims, s.runs, s.rows, s.reqs, r);
  }

  // ---- each step -------------------------------------------------------------------------

  lemma DrawKeepsTokens(tokens: nat, claims: seq<Claim>, reqs: map<ReqId, Req>)
    requires TokensOk(tokens, claims, reqs)
    ensures TokensOk(tokens + 1, claims, reqs)
  {
  }

  lemma InsertKeepsInv(c: Config, s: State, r: ReqId, at: int, exec: Exec)
    requires Inv(c, s) && Enabled(c, s, DoInsert(r, at, exec))
    ensures Inv(c, Do(c, s, DoInsert(r, at, exec)))
  {
    hide TokensOk, RunsOk, RowsOk, DoneOk, WaitOk, AnswersOk, Claimed;
    var drawn := s.(tokens := s.tokens + 1);
    DrawKeepsTokens(s.tokens, s.claims, s.reqs);
    if exec.LostBefore? {
      AnswerKeepsInv(c, drawn, r, Unavailable);
    } else if s.reqs[r].key !in s.rows {
      InsertClaims(c, s, r, at, exec.LostAfter?);
    } else if exec.LostAfter? {
      AnswerKeepsInv(c, drawn, r, Unavailable);
    } else {
      InsertWaits(c, s, r);
    }
  }

  lemma InsertClaims(c: Config, s: State, r: ReqId, at: int, lost: bool)
    requires Inv(c, s) && r in s.reqs && s.reqs[r].phase.Insert? && s.reqs[r].key !in s.rows
    ensures Inv(c, Claimed(s.(tokens := s.tokens + 1), r, s.tokens, at, lost))
  {
    hide RunsOk, RowsOk, DoneOk, WaitOk, AnswersOk;
    var drawn := s.(tokens := s.tokens + 1);
    var q := s.reqs[r].(token := s.tokens, phase := Handling);
    DrawKeepsTokens(s.tokens, s.claims, s.reqs);
    ClaimKeepsInv(c, drawn, r, q, at);
    if lost {
      AnswerKeepsInv(c, Claimed(drawn, r, s.tokens, at, false), r, Unavailable);
    }
  }

  lemma InsertWaits(c: Config, s: State, r: ReqId)
    requires Inv(c, s) && r in s.reqs && s.reqs[r].phase.Insert? && s.reqs[r].key in s.rows
    ensures Inv(c, s.(tokens := s.tokens + 1,
                      reqs := s.reqs[r := s.reqs[r].(token := s.tokens, phase := Read(s.reqs[r].phase.tries))]))
  {
    hide RunsOk, RowsOk, DoneOk, AnswersOk;
    WaitingAgain(s, r, s.reqs[r].(token := s.tokens, phase := Read(s.reqs[r].phase.tries)));
  }

  lemma WaitingAgain(s: State, r: ReqId, q: Req)
    requires r in s.reqs && RunsOk(s.claims, s.runs, s.reqs) && !Working(q)
    ensures RunsOk(s.claims, s.runs, s.reqs[r := q])
  {
  }

  lemma ReadKeepsInv(c: Config, s: State, r: ReqId, at: int, exec: Exec)
    requires Inv(c, s) && Enabled(c, s, DoRead(r, at, exec))
    ensures Inv(c, Do(c, s, DoRead(r, at, exec)))
  {
    hide RunsOk, RowsOk, DoneOk, AnswersOk;
    var q := s.reqs[r];
    if !exec.Fine? {
      AnswerKeepsInv(c, s, r, Unavailable);
    } else if MayTakeOver(c, s.rows[q.key], at) && s.rows[q.key].hash == q.hash {
      WaitingAgain(s, r, q.(phase := TakeOver(q.phase.tries)));
    } else {
      AnswerKeepsInv(c, s, r, ReplyTo(s.rows[q.key], q.hash));
    }
  }

  lemma TakeOverKeepsInv(c: Config, s: State, r: ReqId, at: int, exec: Exec)
    requires Inv(c, s) && Enabled(c, s, DoTakeOver(r, at, exec))
    ensures Inv(c, Do(c, s, DoTakeOver(r, at, exec)))
  {
    hide RunsOk, RowsOk, DoneOk, AnswersOk;
    var q := s.reqs[r];
    if exec.LostBefore? {
      AnswerKeepsInv(c, s, r, Unavailable);
    } else if MayTakeOver(c, s.rows[q.key], at) {
      var p := q.(phase := Handling);
      ClaimKeepsInv(c, s, r, p, at);
      assert s.rows[q.key].(token := q.token, createdAt := at) == Row(q.hash, q.token, at, InProgress);
      if exec.LostAfter? {
        AnswerKeepsInv(c, Do(c, s, DoTakeOver(r, at, Fine)), r, Unavailable);
      }
    } else if exec.LostAfter? || q.phase.tries + 1 >= TRIES {
      AnswerKeepsInv(c, s, r, Unavailable);
    } else {
      WaitingAgain(s, r, q.(phase := Insert(q.phase.tries + 1)));
    }
  }

  lemma RunKeepsRuns(claims: seq<Claim>, runs: seq<HandlerRun>, reqs: map<ReqId, Req>, tokens: nat, r: ReqId, calls: seq<Call>, failed: bool)
    requires RunsOk(claims, runs, reqs) && TokensOk(tokens, claims, reqs) && r in reqs && reqs[r].phase.Handling?
    requires AllLegal(calls)
    ensures var q := reqs[r];
      RunsOk(claims, runs + [HandlerRun(q.key, q.hash, q.token, calls, failed)], reqs[r := q.(phase := Settling(calls, failed))])
  {
    hide HasClaim;
    var q := reqs[r];
    var more := runs + [HandlerRun(q.key, q.hash, q.token, calls, failed)];
    assert more[|runs|] == HandlerRun(q.key, q.hash, q.token, calls, failed);
    assert forall run :: run in runs ==> run in more;
  }

  lemma RunKeepsDone(c: Config, rows: map<Key, Row>, runs: seq<HandlerRun>, run: HandlerRun)
    requires DoneOk(c, rows, runs)
    ensures DoneOk(c, rows, runs + [run])
  {
    hide FinishedBy;
    var more := runs + [run];
    forall k | k in rows && !rows[k].state.InProgress? ensures exists i :: 0 <= i < |more| && FinishedBy(c, k, rows[k], more[i]) {
      var i :| 0 <= i < |runs| && FinishedBy(c, k, rows[k], runs[i]);
      assert more[i] == runs[i];
    }
  }

  lemma PhaseKeepsTokens(tokens: nat, claims: seq<Claim>, reqs: map<ReqId, Req>, r: ReqId, phase: Phase)
    requires TokensOk(tokens, claims, reqs) && r in reqs && reqs[r].phase.Handling? && phase.Settling?
    ensures TokensOk(tokens, claims, reqs[r := reqs[r].(phase := phase)])
  {
    hide HasClaim;
  }

  lemma ReturnKeepsInv(c: Config, s: State, r: ReqId, calls: seq<Call>, failed: bool)
    requires Inv(c, s) && Enabled(c, s, HandlerReturns(r, calls, failed))
    ensures Inv(c, Do(c, s, HandlerReturns(r, calls, failed)))
  {
    hide TokensOk, RunsOk, DoneOk, RowsOk, AnswersOk;
    var q := s.reqs[r];
    RunKeepsRuns(s.claims, s.runs, s.reqs, s.tokens, r, calls, failed);
    RunKeepsDone(c, s.rows, s.runs, HandlerRun(q.key, q.hash, q.token, calls, failed));
    PhaseKeepsTokens(s.tokens, s.claims, s.reqs, r, Settling(calls, failed));
  }

  lemma SettleKeepsRows(c: Config, claims: seq<Claim>, rows: map<Key, Row>, k: Key, row: Row)
    requires RowsOk(c, claims, rows) && k in rows && row == rows[k].(state := row.state)
    ensures RowsOk(c, claims, rows[k := row])
  {
  }

  lemma SettleKeepsInv(c: Config, s: State, r: ReqId, exec: Exec)
    requires Inv(c, s) && Enabled(c, s, Settle(r, exec))
    ensures Inv(c, Do(c, s, Settle(r, exec)))
  {
    hide RowsOk, AnswersOk, TokensOk, Standing;
    var q := s.reqs[r];
    AnswerKeepsInv(c, s, r, Answered(SentResponse(q.phase.calls)));
    if Holds(s, r) && !exec.LostBefore? {
      var row := Settled(c, s.rows[q.key], RecordedResponse(q.phase.calls), q.phase.failed);
      var rows := s.rows[q.key := row];
      var t := AnswerWith(s, r, Answered(SentResponse(q.phase.calls)));
      SettleKeepsRows(c, s.claims, s.rows, q.key, row);
      GrowKeepsAnswers(s.rows, rows, t.answers);
      GrowKeepsWaiting(s.rows, rows, t.reqs);
      SettleKeepsDone(c, s, r);
    }
  }

  lemma SettleKeepsDone(c: Config, s: State, r: ReqId)
    requires Inv(c, s) && r in s.reqs && s.reqs[r].phase.Settling? && Holds(s, r)
    ensures var q := s.reqs[r];
      DoneOk(c, s.rows[q.key := Settled(c, s.rows[q.key], RecordedResponse(q.phase.calls), q.phase.failed)], s.runs)
  {
    hide AnswersOk, WaitOk, DoneOk, FinishedBy, HasClaim;
    var q := s.reqs[r];
    var run := HandlerRun(q.key, q.hash, q.token, q.phase.calls, q.phase.failed);
    var i :| 0 <= i < |s.runs| && s.runs[i] == run;
    OwnHash(c, s, q);
    SettledByRun(c, s.rows[q.key], run);
    MoreDone(c, s.rows, s.runs, q.key, Settled(c, s.rows[q.key], RecordedResponse(q.phase.calls), q.phase.failed), i);
  }

  lemma SettledByRun(c: Config, row: Row, run: HandlerRun)
    requires row.hash == run.hash && row.token == run.token
    ensures FinishedBy(c, run.key, Settled(c, row, run.Result(), run.failed), run)
  {
  }

  lemma MoreDone(c: Config, rows: map<Key, Row>, runs: seq<HandlerRun>, k: Key, row: Row, i: nat)
    requires DoneOk(c, rows, runs) && i < |runs| && FinishedBy(c, k, row, runs[i])
    ensures DoneOk(c, rows[k := row], runs)
  {
    hide FinishedBy;
  }

  // The fingerprint of a request that works is that of its row.
  lemma OwnHash(c: Config, s: State, q: Req)
    requires RowsOk(c, s.claims, s.rows) && HasClaim(s.claims, q.key, q.hash, q.token)
    ensures q.key in s.rows && s.rows[q.key].hash == q.hash
  {
  }

  // ---- every run -------------------------------------------------------------------------

  lemma ArriveKeeps(s: State, r: ReqId, q: Req)
    requires r !in s.reqs && q.phase.Insert?
    ensures TokensOk(s.tokens, s.claims, s.reqs) ==> TokensOk(s.tokens, s.claims, s.reqs[r := q])
    ensures RunsOk(s.claims, s.runs, s.reqs) ==> RunsOk(s.claims, s.runs, s.reqs[r := q])
    ensures WaitOk(s.rows, s.reqs) ==> WaitOk(s.rows, s.reqs[r := q])
  {
    hide HasClaim;
  }

  lemma ArriveKeepsInv(c: Config, s: State, r: ReqId, key: Key, hash: Hash)
    requires Inv(c, s) && Enabled(c, s, Arrive(r, key, hash))
    ensures Inv(c, Do(c, s, Arrive(r, key, hash)))
  {
    hide TokensOk, RunsOk, WaitOk, RowsOk, DoneOk, AnswersOk;
    ArriveKeeps(s, r, Req(key, hash, 0, Insert(0)));
  }

  lemma DieKeepsInv(c: Config, s: State, r: ReqId)
    requires Inv(c, s) && Enabled(c, s, Die(r))
    ensures Inv(c, Do(c, s, Die(r)))
  {
    hide TokensOk, RunsOk, RowsOk, DoneOk, WaitOk, AnswersOk;
    LeaveKeeps(s.tokens, s.claims, s.runs, s.rows, s.reqs, r);
  }

  lemma StepKeepsInv(c: Config, s: State, step: Step)
    requires Inv(c, s) && Enabled(c, s, step)
    ensures Inv(c, Do(c, s, step))
  {
    match step {
      case DoInsert(r, at, exec) =>
        hide Inv, Enabled, Do;
        InsertKeepsInv(c, s, r, at, exec);
      case DoRead(r, at, exec) =>
        hide Inv, Enabled, Do;
        ReadKeepsInv(c, s, r, at, exec);
      case DoTakeOver(r, at, exec) =>
        hide Inv, Enabled, Do;
        TakeOverKeepsInv(c, s, r, at, exec);
      case HandlerReturns(r, calls, failed) =>
        hide Inv, Enabled, Do;
        ReturnKeepsInv(c, s, r, calls, failed);
      case Settle(r, exec) =>
        hide Inv, Enabled, Do;
        SettleKeepsInv(c, s, r, exec);
      case Die(r) =>
        hide Inv, Enabled, Do;
        DieKeepsInv(c, s, r);
      case Arrive(r, key, hash) =>
        hide Inv, Enabled, Do;
        ArriveKeepsInv(c, s, r, key, hash);
      case Tick(_) =>
    }
  }

  lemma InvStep(c: Config, s: State, t: State)
    requires Inv(c, s) && Next(c, s, t)
    ensures Inv(c, t)
  {
    hide Inv, Enabled, Do;
    var step :| Enabled(c, s, step) && t == Do(c, s, step);
    StepKeepsInv(c, s, step);
  }

  lemma {:induction false} InvAlong(c: Config, trace: seq<State>, i: nat)
    requires Run(c, trace) && i < |trace|
    ensures Inv(c, trace[i])
  {
    hide Inv, Next, Init;
    if i == 0 {
      InvInit(c, trace[0]);
    } else {
      InvAlong(c, trace, i - 1);
      InvStep(c, trace[i - 1], trace[i]);
    }
  }

  lemma InvInit(c: Config, s: State)
    requires Init(s)
    ensures Inv(c, s)
  {
  }
}
