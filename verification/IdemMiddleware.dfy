/** The store and the middleware of idem/idem.go as the code runs them. The table records its history as a
    run of the idempotency machine; other requests and the clock may act between any two statements. */
module IdemMiddleware {
  import opened Options
  import opened IdemMachine
  import opened IdemResponse
  import opened IdemSafety
  import opened IdemTheorems
  import opened IdemCapture

  // The request a step belongs to, if any.
  function Actor(step: Step): Option<ReqId> {
    match step
    case Tick(_) => None
    case Arrive(r, _, _) => Some(r)
    case DoInsert(r, _, _) => Some(r)
    case DoRead(r, _, _) => Some(r)
    case DoTakeOver(r, _, _) => Some(r)
    case HandlerReturns(r, _, _) => Some(r)
    case Settle(r, _) => Some(r)
    case Die(r) => Some(r)
  }

  ghost predicate SameRequest(s: State, t: State, r: ReqId) {
    && (r in s.reqs <==> r in t.reqs) && (r in s.reqs ==> s.reqs[r] == t.reqs[r])
    && (r in s.answers <==> r in t.answers) && (r in s.answers ==> s.answers[r] == t.answers[r])
  }

  lemma OthersKeepRequest(c: Config, s: State, step: Step, r: ReqId)
    requires Enabled(c, s, step) && Actor(step) != Some(r)
    ensures SameRequest(s, Do(c, s, step), r)
  {
  }

  class Table {
    const c: Config
    var st: State
    ghost var trace: seq<State>

    ghost predicate Valid()
      reads this
    {
      Run(c, trace) && trace[|trace| - 1] == st
    }

    constructor (c: Config, start: int)
      ensures Valid() && this.c == c
    {
      this.c := c;
      st := State(start, 0, map[], map[], [], [], map[]);
      trace := [State(start, 0, map[], map[], [], [], map[])];
    }

    lemma Invariant()
      requires Valid()
      ensures Inv(c, st)
    {
      InvAlong(c, trace, |trace| - 1);
    }

    // One statement, or one other step of the machine.
    method Take(step: Step)
      requires Valid() && Enabled(c, st, step)
      modifies this
      ensures Valid() && old(trace) <= trace && st == Do(c, old(st), step)
    {
      hide Enabled, Do, Init;
      ghost var was := st;
      st := Do(c, st, step);
      assert Next(c, was, st);
      trace := trace + [st];
    }

    // What other requests and the clock do in the meantime.
    method Interfere(r: ReqId)
      requires Valid()
      modifies this
      ensures Valid() && old(trace) <= trace && SameRequest(old(st), st, r)
    {
      hide Run, Enabled, Do;
      var steps: int := *;
      for i := 0 to if steps < 0 then 0 else steps
        invariant Valid() && old(trace) <= trace && SameRequest(old(st), st, r)
      {
        var step: Step := *;
        if Enabled(c, st, step) && Actor(step) != Some(r) {
          OthersKeepRequest(c, st, step, r);
          Take(step);
        }
      }
    }

    // The time a statement starts at, and how it ends for its caller.
    method Conditions() returns (at: int, exec: Exec)
      ensures at <= st.now
    {
      at := *;
      exec := *;
      if at > st.now {
        at := st.now;
      }
    }

    // Where a request of this key and fingerprint is.
    ghost predicate At(r: ReqId, key: Key, hash: Hash, phase: Phase)
      reads this
    {
      r in st.reqs && st.reqs[r].key == key && st.reqs[r].hash == hash && st.reqs[r].phase == phase
    }

    ghost predicate Told(r: ReqId, key: Key, hash: Hash)
      reads this
    {
      r !in st.reqs && r in st.answers && st.answers[r].key == key && st.answers[r].hash == hash
    }

    /** Store.Claim: at most three tries. A request that is not given the claim has been answered. */
    method Claim(r: ReqId, key: Key, hash: Hash) returns (claimed: bool)
      requires Valid() && At(r, key, hash, Insert(0))
      modifies this
      ensures Valid() && old(trace) <= trace
      ensures if claimed then At(r, key, hash, Handling) else Told(r, key, hash)
    {
      hide Valid, At, Told;
      var tries := 0;
      while tries < TRIES
        invariant Valid() && old(trace) <= trace && tries <= TRIES
        invariant if tries < TRIES then At(r, key, hash, Insert(tries)) else Told(r, key, hash)
      {
        var over: bool;
        over, claimed := OneTry(r, key, hash, tries);
        if over {
          return;
        }
        tries := tries + 1;
      }
      claimed := false;
    }

    // Insert; otherwise read; otherwise try to take over.
    method OneTry(r: ReqId, key: Key, hash: Hash, tries: nat) returns (over: bool, claimed: bool)
      requires Valid() && At(r, key, hash, Insert(tries)) && tries < TRIES
      modifies this
      ensures Valid() && old(trace) <= trace
      ensures over ==> if claimed then At(r, key, hash, Handling) else Told(r, key, hash)
      ensures !over ==> if tries + 1 < TRIES then At(r, key, hash, Insert(tries + 1)) else Told(r, key, hash)
    {
      hide Valid, At, Told;
      over, claimed := TryInsert(r, key, hash, tries);
      if over {
        return;
      }
      var stale;
      over, stale := TryRead(r, key, hash, tries);
      if over || !stale {
        return over, false;
      }
      over, claimed := TryTakeOver(r, key, hash, tries);
    }

    method TryInsert(r: ReqId, key: Key, hash: Hash, tries: nat) returns (over: bool, claimed: bool)
      requires Valid() && At(r, key, hash, Insert(tries))
      modifies this
      ensures Valid() && old(trace) <= trace
      ensures over ==> if claimed then At(r, key, hash, Handling) else Told(r, key, hash)
      ensures !over ==> At(r, key, hash, Read(tries))
    {
      hide Run, Inv;
      Interfere(r);
      var at, exec := Conditions();
      Take(DoInsert(r, at, exec));
      claimed := r in st.reqs && st.reqs[r].phase.Handling?;
      over := claimed || r !in st.reqs;
    }

    method TryRead(r: ReqId, key: Key, hash: Hash, tries: nat) returns (over: bool, stale: bool)
      requires Valid() && At(r, key, hash, Read(tries)) && tries < TRIES
      modifies this
      ensures Valid() && old(trace) <= trace
      ensures over ==> Told(r, key, hash)
      ensures !over && stale ==> At(r, key, hash, TakeOver(tries))
      ensures !over && !stale ==> if tries + 1 < TRIES then At(r, key, hash, Insert(tries + 1)) else Told(r, key, hash)
    {
      hide Run, Inv, ReplyTo;
      Interfere(r);
      var at, exec := Conditions();
      Take(DoRead(r, at, exec));
      stale := r in st.reqs && st.reqs[r].phase.TakeOver?;
      over := r !in st.reqs;
    }

    method TryTakeOver(r: ReqId, key: Key, hash: Hash, tries: nat) returns (over: bool, claimed: bool)
      requires Valid() && At(r, key, hash, TakeOver(tries)) && tries < TRIES
      modifies this
      ensures Valid() && old(trace) <= trace
      ensures over ==> if claimed then At(r, key, hash, Handling) else Told(r, key, hash)
      ensures !over ==> tries + 1 < TRIES && At(r, key, hash, Insert(tries + 1))
    {
      hide Run, Inv;
      Interfere(r);
      var at, exec := Conditions();
      Take(DoTakeOver(r, at, exec));
      claimed := r in st.reqs && st.reqs[r].phase.Handling?;
      over := claimed || r !in st.reqs;
    }

    /** Middleware for a request that carries a key: claim, run the handler through the capturing writer,
        settle under the claim's token. */
    method Serve(r: ReqId, key: Key, hash: Hash) returns (reply: Reply)
      requires Valid() && r !in st.reqs && r !in st.answers
      modifies this
      ensures Valid() && old(trace) <= trace
      ensures r !in st.reqs && r in st.answers && st.answers[r] == Answer(key, hash, reply)
      ensures reply.Replayed? ==> key in st.rows && st.rows[key].hash == hash && st.rows[key].state.Completed?
      ensures reply.Mismatch? ==> key in st.rows && st.rows[key].hash != hash
    {
      hide Run, Inv;
      Take(Arrive(r, key, hash));
      var claimed := Claim(r, key, hash);
      if claimed {
        Interfere(r);
        var writer := new CaptureWriter(c.limit);
        RunHandler(writer);
        Finish(r, writer);
      }
      reply := st.answers[r].reply;
      AnswerStands(r);
    }

    lemma AnswerStands(r: ReqId)
      requires Valid() && r in st.answers
      ensures var a := st.answers[r];
        && (a.reply.Replayed? ==> a.key in st.rows && st.rows[a.key].hash == a.hash && st.rows[a.key].state.Completed?)
        && (a.reply.Mismatch? ==> a.key in st.rows && st.rows[a.key].hash != a.hash)
    {
      hide Run, TokensOk, RunsOk, RowsOk, DoneOk, WaitOk;
      Invariant();
    }

    // Any handler: any calls of the writer, any fate of each write.
    method RunHandler(writer: CaptureWriter)
      requires writer.Valid()
      modifies writer
      ensures writer.Valid()
    {
      var calls: int := *;
      for i := 0 to if calls < 0 then 0 else calls
        invariant writer.Valid()
      {
        var call: Call := *;
        match call
        case WriteHeader(code) => if 100 <= code <= 999 { writer.WriteHeader(code); }
        case Write(data) =>
          var n: nat, failed: bool := *, *;
          if n <= |data| { writer.Write(data, n, failed); }
        case Flush => writer.Flush();
        case SetHeaders(headers) => writer.SetHeaders(headers);
      }
    }

    /** What follows the handler: the statement chosen by the writer's flags is the machine's settling step
        for just these calls, and its client has what they sent. */
    method Finish(r: ReqId, writer: CaptureWriter)
      requires Valid() && r in st.reqs && st.reqs[r].phase.Handling? && writer.Valid() && writer.limit == c.limit
      modifies this
      ensures Valid() && old(trace) <= trace && r !in st.reqs && r in st.answers
      ensures st.answers[r] == Answer(old(st).reqs[r].key, old(st).reqs[r].hash, Answered(SentResponse(writer.calls)))
    {
      hide Run, Inv;
      var status := if writer.status == 0 then 200 else writer.status;
      if writer.overflow || writer.writeFailed {
        MarkExecuted(r, status, writer.calls, writer.writeFailed);
      } else {
        Complete(r, Response(status, writer.header, writer.buf), writer.calls);
      }
    }

    method Complete(r: ReqId, response: Response, calls: seq<Call>)
      requires Valid() && r in st.reqs && st.reqs[r].phase.Handling? && |response.body| <= c.limit
      requires AllLegal(calls) && response == RecordedResponse(calls)
      modifies this
      ensures Valid() && old(trace) <= trace && r !in st.reqs && r in st.answers
      ensures st.answers[r] == Answer(old(st).reqs[r].key, old(st).reqs[r].hash, Answered(SentResponse(calls)))
    {
      hide Run, Inv;
      Take(HandlerReturns(r, calls, false));
      Interfere(r);
      var exec: Exec := *;
      Take(Settle(r, exec));
    }

    method MarkExecuted(r: ReqId, status: int, calls: seq<Call>, failed: bool)
      requires Valid() && r in st.reqs && st.reqs[r].phase.Handling?
      requires AllLegal(calls) && status == Recorded(calls) && !Replayable(c, RecordedResponse(calls), failed)
      modifies this
      ensures Valid() && old(trace) <= trace && r !in st.reqs && r in st.answers
      ensures st.answers[r] == Answer(old(st).reqs[r].key, old(st).reqs[r].hash, Answered(SentResponse(calls)))
    {
      hide Run, Inv;
      Take(HandlerReturns(r, calls, failed));
      Interfere(r);
      var exec: Exec := *;
      Take(Settle(r, exec));
    }
  }
}
