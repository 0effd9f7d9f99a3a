/** The relay's round, the in-process bus and the inbox wrapper as the code runs them. The database
    object records its whole history as a run of the outbox machine; other relays, consumers and the
    clock may act between any two statements. */
module OutboxRelay {
  import opened Options
  import opened OutboxMachine
  import opened OutboxSafety

  /** In-process subscriptions, appended in place. */
  class DirectBus {
    var subs: map<Topic, seq<Consumer>>

    constructor ()
      ensures subs == map[]
    {
      subs := map[];
    }

    method Subscribe(topic: Topic, consumer: Consumer)
      modifies this
      ensures topic in subs && subs[topic] == (if topic in old(subs) then old(subs)[topic] else []) + [consumer]
      ensures forall other :: other != topic ==> (other in subs <==> other in old(subs))
      ensures forall other :: other != topic && other in subs ==> subs[other] == old(subs)[other]
    {
      subs := subs[topic := (if topic in subs then subs[topic] else []) + [consumer]];
    }
  }

  // The subscriptions that a list of calls, in order, leaves.
  function SubsOf(calls: seq<(Topic, Consumer)>): (subs: map<Topic, seq<Consumer>>) {
    if calls == [] then map[]
    else
      var before, last := SubsOf(calls[..|calls| - 1]), calls[|calls| - 1];
      before[last.0 := (if last.0 in before then before[last.0] else []) + [last.1]]
  }

  /** The wiring at the start of the program: what the relays deliver to is what was subscribed, in order. */
  method Wire(calls: seq<(Topic, Consumer)>) returns (bus: DirectBus)
    ensures fresh(bus) && bus.subs == SubsOf(calls)
  {
    bus := new DirectBus();
    for i := 0 to |calls|
      invariant fresh(bus) && bus.subs == SubsOf(calls[..i])
    {
      assert calls[..i + 1][..i] == calls[..i];
      bus.Subscribe(calls[i].0, calls[i].1);
      assert bus.subs == SubsOf(calls[..i + 1]);
    }
    assert calls[..|calls|] == calls;
  }

  class Database {
    const c: Config
    var now: int
    var rows: Rows
    var inbox: set<(Consumer, EventId)>
    var effects: multiset<(Consumer, EventId)>
    var workers: map<WorkerId, Worker>
    var grants: seq<Grant>
    ghost var trace: seq<State>
    ghost var crashed: set<WorkerId>  // the relays that died inside a round

    function S(): State
      reads this
    {
      State(now, rows, workers, inbox, effects, grants)
    }

    ghost predicate Valid()
      reads this
    {
      c.Valid() && Run(c, trace) && Init(trace[0]) && trace[|trace| - 1] == S()
    }

    constructor (c: Config, start: int)
      requires c.Valid()
      ensures Valid() && this.c == c && workers == map[] && crashed == {}
    {
      this.c := c;
      now, rows, inbox, effects := start, map[], {}, multiset{};
      workers, grants, crashed := map[], [], {};
      trace := [State(start, map[], map[], {}, multiset{}, [])];
    }

    lemma Invariant()
      requires Valid()
      ensures Inv(c, S())
    {
      InvAlong(c, trace, |trace| - 1);
    }

    // Writes the state just reached into the history.
    ghost method Log(step: Step)
      requires c.Valid() && Run(c, trace) && Init(trace[0])
      requires Enabled(c, trace[|trace| - 1], step) && S() == Do(c, trace[|trace| - 1], step)
      modifies this`trace
      ensures Valid() && trace == old(trace) + [S()]
    {
      assert Next(c, trace[|trace| - 1], S());
      trace := trace + [S()];
    }

    /** Everything that is not relay `me`: any number of steps of other relays, publishers,
        operators and the clock. */
    method Interfere(me: WorkerId)
      requires Valid()
      modifies this
      ensures Valid() && old(trace) <= trace
      ensures me in workers <==> me in old(workers)
      ensures me in workers ==> workers[me] == old(workers)[me]
      ensures me in crashed <==> me in old(crashed)
    {
      var steps: int := *;
      for i := 0 to if steps < 0 then 0 else steps
        invariant Valid() && old(trace) <= trace
        invariant me in workers <==> me in old(workers)
        invariant me in workers ==> workers[me] == old(workers)[me]
        invariant me in crashed <==> me in old(crashed)
      {
        var step: Step := *;
        if Enabled(c, S(), step) && !ActsFor(step, me) {
          OthersKept(c, S(), step, me);
          Take(step);
        }
      }
    }

    // The machine's Crash also stands for a claim whose answer did not come back: its rows stay leased, and
    // the relay, which goes on living, knows nothing of them.
    method Forget(w: WorkerId)
      requires Valid() && w in workers
      modifies this
      ensures Valid() && S() == Do(c, old(S()), Crash(w)) && trace == old(trace) + [S()] && crashed == old(crashed)
    {
      ghost var dead := crashed;
      Take(Crash(w));
      crashed := dead;
    }

    // The time a statement that takes effect now works with.
    method StartedAt() returns (at: int)
      ensures at <= now
    {
      at := *;
      if at > now {
        at := now;
      }
    }

    // One step of the machine, whoever takes it.
    method Take(step: Step)
      requires Valid() && Enabled(c, S(), step)
      modifies this
      ensures Valid() && S() == Do(c, old(S()), step) && trace == old(trace) + [S()]
      ensures crashed == if step.Crash? then old(crashed) + {step.w} else old(crashed)
    {
      if step.Crash? {
        crashed := crashed + {step.w};
      }
      var t := Do(c, S(), step);
      now, rows, workers, inbox, effects, grants := t.now, t.rows, t.workers, t.inbox, t.effects, t.grants;
      Log(step);
    }
  }

  // How many of the named rows the statement's WHERE clause matches.
  function Matched(rows: Rows, ids: seq<EventId>, token: Token): set<EventId> {
    set id | id in ids && id in rows && rows[id].OwnedBy(token)
  }

  function ToSet(ids: seq<EventId>): set<EventId> { set id | id in ids }

  lemma {:induction false} DistinctCount(ids: seq<EventId>)
    requires Distinct(ids)
    ensures |ToSet(ids)| == |ids|
  {
    if ids != [] {
      var last := |ids| - 1;
      DistinctCount(ids[..last]);
      assert ids == ids[..last] + [ids[last]];
      assert ToSet(ids) == ToSet(ids[..last]) + {ids[last]};
    }
  }

  lemma SubsetOfSameSize(m: set<EventId>, all: set<EventId>)
    requires m <= all && |m| == |all|
    ensures m == all
  {
    assert all == m + (all - m);
    assert |all| == |m| + |all - m|;
  }

  lemma FullMatch(rows: Rows, ids: seq<EventId>, token: Token)
    requires Distinct(ids) && |Matched(rows, ids, token)| == |ids|
    ensures forall id :: id in ids ==> id in rows && rows[id].OwnedBy(token)
  {
    DistinctCount(ids);
    SubsetOfSameSize(Matched(rows, ids, token), ToSet(ids));
    forall id | id in ids ensures id in rows && rows[id].OwnedBy(token) {
      assert id in ToSet(ids);
    }
  }

  // After its statement the relay goes on to the next one, and after the last it is done.
  lemma SettleMovesOn(c: Config, s: State, w: WorkerId, applied: bool, at: int)
    requires at <= s.now && w in s.workers && !s.workers[w].phase.Delivering?
    ensures Enabled(c, s, Settle(w, applied, at))
    ensures var k := s.workers[w]; var after := Do(c, s, Settle(w, applied, at)).workers;
            match k.phase
            case Publishing(d, f) => w in after && after[w] == k.(phase := Recording(d, f))
            case Recording(d, f) => w in after && after[w] == k.(phase := Releasing(d, f))
            case _ => w !in after
  {
  }

  class Relay {
    const db: Database
    const bus: DirectBus
    const me: WorkerId

    constructor (db: Database, bus: DirectBus, me: WorkerId)
      ensures this.db == db && this.bus == bus && this.me == me
    {
      this.db, this.bus, this.me := db, bus, me;
    }

    ghost predicate Ready()
      reads db, bus
    {
      db.Valid() && bus.subs == db.c.subs
    }

    // The history was only extended, and this relay did not die on the way.
    ghost predicate Continues(before: seq<State>, dead: set<WorkerId>)
      reads db, bus
    {
      Ready() && before <= db.trace && (me in db.crashed <==> me in dead)
    }

    // The relay's memory as the machine sees it.
    ghost predicate Holds(token: Token, events: seq<Claimed>, phase: Phase)
      reads db
    {
      me in db.workers && db.workers[me] == Worker(token, events, phase)
    }

    /** One round: claim a batch, deliver it event by event without holding a lock, settle every row
        under the claim's token. The round is a run of the outbox machine whatever others do between
        its statements, and it reports success only if every event it claimed is published. */
    method RelayOnce() returns (claimed: seq<Claimed>, ok: bool)
      requires Ready() && me !in db.workers
      modifies db
      ensures Continues(old(db.trace), old(db.crashed)) && me !in db.workers
      ensures ok ==> forall e :: e in claimed ==> e.id in db.rows && db.rows[e.id].publishedAt.Some?
    {
      hide Run, Init, Next, Enabled, Do, Database.Valid;
      db.Interfere(me);
      var token;
      claimed, token, ok := ClaimBatch();
      if |claimed| == 0 {
        return;
      }
      var delivered: seq<EventId> := [];
      var rest: seq<EventId> := [];
      var failedIdx := -1;
      var i := 0;
      while i < |claimed| && failedIdx < 0
        invariant 0 <= i <= |claimed| && Continues(old(db.trace), old(db.crashed))
        invariant failedIdx < 0 ==> delivered == Ids(claimed[..i]) && rest == []
        invariant failedIdx < 0 ==>
                    Holds(token, claimed, if i < |claimed| then Delivering(i, 0, false) else Publishing(i, false))
        invariant failedIdx >= 0 ==> failedIdx < |claimed| && delivered == Ids(claimed[..failedIdx])
        invariant failedIdx >= 0 ==> rest == Ids(claimed[failedIdx + 1..])
        invariant failedIdx >= 0 ==> Holds(token, claimed, Publishing(failedIdx, true))
        decreases |claimed| - i
      {
        var fine := Deliver(claimed[i], token, claimed, i);
        if !fine {
          failedIdx := i;
          rest := Ids(claimed[i + 1..]);
        } else {
          assert Ids(claimed[..i + 1]) == Ids(claimed[..i]) + [claimed[i].id];
          delivered := delivered + [claimed[i].id];
        }
        i := i + 1;
      }
      ok := SettleBatch(token, claimed, delivered, failedIdx, rest);
      if ok {
        forall e | e in claimed ensures e.id in db.rows && db.rows[e.id].publishedAt.Some? {
          assert claimed[..|claimed|] == claimed;
          var j :| 0 <= j < |claimed| && claimed[j] == e;
          assert delivered[j] == e.id;
        }
      }
    }

    // The short claim transaction; it may find nothing or fail, also after its commit took effect.
    method ClaimBatch() returns (claimed: seq<Claimed>, token: Token, ok: bool)
      requires Ready() && me !in db.workers
      modifies db
      ensures Continues(old(db.trace), old(db.crashed))
      ensures claimed == [] ==> me !in db.workers
      ensures claimed != [] ==> Holds(token, claimed, Delivering(0, 0, false))
    {
      token := |db.grants|;
      var ids: seq<EventId> := *;
      var at := db.StartedAt();
      if !Enabled(db.c, db.S(), Claim(me, ids, at)) {
        ok := *;
        return [], token, ok;
      }
      claimed, ok := Snapshot(db.rows, ids), true;
      db.Take(Claim(me, ids, at));
      var answered: bool := *;
      if !answered {
        db.Forget(me);
        claimed, ok := [], false;
      }
    }

    /** Publishes one event: every handler is called, a failing one does not starve the others, a
        panic abandons the rest. */
    method Deliver(e: Claimed, token: Token, claimed: seq<Claimed>, index: nat) returns (fine: bool)
      requires Ready() && index < |claimed| && e == claimed[index]
      requires Holds(token, claimed, Delivering(index, 0, false))
      modifies db
      ensures Continues(old(db.trace), old(db.crashed))
      ensures !fine ==> Holds(token, claimed, Publishing(index, true))
      ensures fine ==> Holds(token, claimed, if index + 1 < |claimed| then Delivering(index + 1, 0, false)
                                             else Publishing(index + 1, false))
    {
      hide Run, Init, Next, Database.Valid;
      var handlers := if e.topic in bus.subs then bus.subs[e.topic] else [];
      if !e.metaOk || |handlers| == 0 {
        db.Take(Reject(me));
        return false;
      }
      var bad := false;
      for h := 0 to |handlers|
        invariant Continues(old(db.trace), old(db.crashed))
        invariant Holds(token, claimed, Delivering(index, h, bad))
      {
        db.Interfere(me);
        var outcome: Outcome := *;
        db.Take(Handle(me, outcome));
        if outcome.Panics? {
          return false;
        }
        bad := bad || !outcome.Succeeds?;
      }
      db.Take(Finish(me));
      fine := !bad;
    }

    /** The three settling statements; each may be lost, and each is skipped when it has nothing to do. */
    method SettleBatch(token: Token, claimed: seq<Claimed>, delivered: seq<EventId>, failedIdx: int, rest: seq<EventId>)
      returns (ok: bool)
      requires Ready() && -1 <= failedIdx < |claimed|
      requires var d := if failedIdx < 0 then |claimed| else failedIdx;
               && delivered == Ids(claimed[..d])
               && Holds(token, claimed, Publishing(d, failedIdx >= 0))
               && rest == if failedIdx < 0 then [] else Ids(claimed[d + 1..])
      modifies db
      ensures Continues(old(db.trace), old(db.crashed)) && me !in db.workers
      ensures ok ==> failedIdx < 0 && forall id :: id in delivered ==> id in db.rows && db.rows[id].publishedAt.Some?
    {
      db.Interfere(me);
      ghost var mid: nat;
      ok, mid := ExecPublished(token, claimed, delivered, failedIdx);
      RecordAndRelease(token, claimed, failedIdx, rest);
      ok := ok && failedIdx < 0;
      if ok {
        StillPublished(delivered, mid);
      }
    }

    // A full affected-row count means every delivered event was still held and is now published.
    lemma FullyPublished(s: State, at: int, token: Token, claimed: seq<Claimed>, delivered: seq<EventId>)
      requires Inv(db.c, s) && me in s.workers && s.workers[me].events == claimed && s.workers[me].token == token
      requires |delivered| <= |claimed| && delivered == Ids(claimed[..|delivered|])
      requires s.workers[me].phase.Publishing? && s.workers[me].phase.delivered == |delivered|
      requires |Matched(s.rows, delivered, token)| == |delivered|
      ensures forall id :: id in delivered ==>
                id in SettleRows(db.c, s, s.workers[me], at) && SettleRows(db.c, s, s.workers[me], at)[id].publishedAt.Some?
    {
      assert WorkerOk(db.c, s, s.workers[me]);
      assert delivered == Ids(claimed)[..|delivered|];
      FullMatch(s.rows, delivered, token);
    }

    lemma StillPublished(ids: seq<EventId>, at: nat)
      requires db.Valid() && at < |db.trace|
      requires forall id :: id in ids ==> id in db.trace[at].rows && db.trace[at].rows[id].publishedAt.Some?
      ensures forall id :: id in ids ==> id in db.rows && db.rows[id].publishedAt.Some?
    {
      forall id | id in ids ensures id in db.rows && db.rows[id].publishedAt.Some? {
        PublishedForever(db.c, db.trace, at, |db.trace| - 1, id);
      }
    }

    // Records the failed event, if any, and gives the events after it back.
    method RecordAndRelease(token: Token, claimed: seq<Claimed>, failedIdx: int, rest: seq<EventId>)
      requires Ready() && -1 <= failedIdx < |claimed|
      requires Holds(token, claimed, Recording(if failedIdx < 0 then |claimed| else failedIdx, failedIdx >= 0))
      requires rest == if failedIdx < 0 then [] else Ids(claimed[failedIdx + 1..])
      modifies db
      ensures Continues(old(db.trace), old(db.crashed)) && me !in db.workers
    {
      hide Run, Init, Next, SettleRows, SettleState, Do, Database.Valid;
      db.Interfere(me);
      var applied: bool := *;
      var at := db.StartedAt();
      SettleMovesOn(db.c, db.S(), me, failedIdx >= 0 && applied, at);
      db.Take(Settle(me, failedIdx >= 0 && applied, at));
      db.Interfere(me);
      var released: bool := *;
      at := db.StartedAt();
      SettleMovesOn(db.c, db.S(), me, |rest| > 0 && released, at);
      db.Take(Settle(me, |rest| > 0 && released, at));
    }

    // `ok` says no error came back and the affected-row count equals the number of delivered events.
    method ExecPublished(token: Token, claimed: seq<Claimed>, delivered: seq<EventId>, failedIdx: int)
      returns (ok: bool, ghost at: nat)
      requires Ready() && -1 <= failedIdx < |claimed|
      requires var d := if failedIdx < 0 then |claimed| else failedIdx;
               delivered == Ids(claimed[..d]) && Holds(token, claimed, Publishing(d, failedIdx >= 0))
      modifies db
      ensures Continues(old(db.trace), old(db.crashed)) && at == |db.trace| - 1
      ensures Holds(token, claimed, Recording(if failedIdx < 0 then |claimed| else failedIdx, failedIdx >= 0))
      ensures ok ==> forall id :: id in delivered ==> id in db.trace[at].rows && db.trace[at].rows[id].publishedAt.Some?
    {
      hide Run, Init, Next, Inv, Database.Valid;
      var applied: bool, noError: bool := *, *;
      applied := applied && |delivered| > 0;
      noError := if |delivered| > 0 then noError && applied else true;
      db.Invariant();
      var matched := Matched(db.rows, delivered, token);
      ok := noError && |matched| == |delivered|;
      ghost var before := db.S();
      var start := db.StartedAt();
      db.Take(Settle(me, applied, start));
      if ok && applied {
        FullyPublished(before, start, token, claimed, delivered);
      }
      at := |db.trace| - 1;
    }
  }
}
