/** The WebSocket hub as the code runs it: every critical section is a step of the hub machine, and other
    goroutines may act between any two of them. */
module HubService {
  import opened Options
  import opened HubMachine

  /** What has been forced shut: reservations, whose connection is cut as soon as there is one, and connections. */
  class Forced {
    var reservations: set<Id>
    var connections: set<Id>

    constructor ()
      ensures reservations == {} && connections == {}
    {
      reservations, connections := {}, {};
    }
  }

  class WebSocketHub {
    const max: Option<nat>
    const forced: Forced
    var started: bool
    var accepting: bool
    var closed: bool
    var pending: set<Id>
    var connections: set<Id>
    var generation: nat
    // Reservations and connections outside the hub's own fields, and the goroutines that wait.
    var made: nat
    var settled: set<Id>
    var joined: set<Id>
    var told: set<Id>
    var owed: set<Id>
    var draining: bool
    var waiters: map<Id, Waiter>
    ghost var trace: seq<World>

    function S(): World
      reads this
    {
      World(Hub(max, started, accepting, closed, pending, connections, generation), made, settled, joined, told, owed,
            draining, waiters)
    }

    ghost predicate Valid()
      reads this
    {
      Run(trace) && trace[|trace| - 1] == S()
    }

    constructor (max: Option<nat>)
      ensures Valid() && S() == Fresh(max) && fresh(forced)
    {
      this.max := max;
      forced := new Forced();
      started, accepting, closed, pending, connections, generation := false, false, false, {}, {}, 0;
      made, settled, joined, told, owed, draining, waiters := 0, {}, {}, {}, {}, false, map[];
      trace := [Fresh(max)];
    }

    lemma Invariant()
      requires Valid()
      ensures Inv(S())
    {
      InvAlong(trace, |trace| - 1);
    }

    // Writes the state just reached into the history.
    ghost method Log(step: Step)
      requires Run(trace) && trace[0].hub.max == max
      requires Enabled(trace[|trace| - 1], step) && S() == Do(trace[|trace| - 1], step)
      modifies this`trace
      ensures Valid() && trace == old(trace) + [S()]
    {
      hide Enabled, Do, Fresh;
      assert Next(trace[|trace| - 1], S());
      trace := trace + [S()];
    }

    // One step of another goroutine.
    method Other(step: Step)
      requires Valid() && Enabled(S(), step)
      modifies this
      ensures Valid() && old(trace) <= trace && S() == Do(old(S()), step)
    {
      hide Run, Enabled, Do;
      MaxKept();
      MaxSame(S(), step);
      Become(Do(S(), step));
      Log(step);
    }

    method Become(t: World)
      requires t.hub.max == max
      modifies this
      ensures S() == t && trace == old(trace)
    {
      SetHub(t.hub);
      made, settled, joined, told := t.made, t.settled, t.joined, t.told;
      owed, draining, waiters := t.owed, t.draining, t.waiters;
    }

    method SetHub(h: Hub)
      requires h.max == max
      modifies this`started, this`accepting, this`closed, this`pending, this`connections, this`generation
      ensures Current() == h
    {
      started, accepting, closed := h.started, h.accepting, h.closed;
      pending, connections, generation := h.pending, h.connections, h.generation;
    }

    lemma MaxKept()
      requires Valid()
      ensures trace[0].hub.max == max
    {
      SameMax(trace, |trace| - 1);
    }

    // Any number of steps of others; `mine` is the goroutine that waits here, if it does.
    method Interfere(mine: Option<Id>)
      requires Valid()
      modifies this
      ensures Valid() && old(trace) <= trace
      ensures mine.Some? ==> (mine.value in waiters <==> mine.value in old(waiters))
      ensures mine.Some? && mine.value in waiters ==> waiters[mine.value] == old(waiters)[mine.value]
      ensures old(told) <= told && old(told) + old(owed) <= told + owed
    {
      hide Run, Enabled, Do;
      var steps: int := *;
      for i := 0 to if steps < 0 then 0 else steps
        invariant Valid() && old(trace) <= trace
        invariant mine.Some? ==> (mine.value in waiters <==> mine.value in old(waiters))
        invariant mine.Some? && mine.value in waiters ==> waiters[mine.value] == old(waiters)[mine.value]
        invariant old(told) <= told && old(told) + old(owed) <= told + owed
      {
        var step: Step := *;
        var own := (step.Look? || step.Wake? || step.GiveUp?) && mine == Some(step.w);
        if Enabled(S(), step) && !own {
          NoticesKept(S(), step);
          if mine.Some? {
            WaitersKept(S(), step, mine.value);
          }
          Other(step);
        }
      }
    }

    /** Opens the hub, once. */
    method Start() returns (ok: bool)
      requires Valid()
      modifies this
      ensures Valid() && old(trace) <= trace && (ok ==> started && accepting && !closed)
      ensures !ok ==> S() == old(S()) && (max.None? || closed || started)
    {
      hide Run;
      MaxKept();
      if max.None? || closed || started {
        return false;
      }
      started, accepting, generation := true, true, generation + 1;
      draining := false;
      Log(Step.Start);
      return true;
    }

    /** A place for a connection still to be upgraded; the limit counts both kinds. */
    method Reserve() returns (r: Option<Id>)
      requires Valid()
      modifies this
      ensures Valid() && old(trace) <= trace
      ensures r.Some? <==> CanReserve(old(S()).hub)
      ensures r.Some? ==> r.value in pending && max.Some? && |pending| + |connections| <= max.value
      ensures r.None? ==> S() == old(S())
    {
      hide Run, Inv;
      MaxKept();
      if max.None? || !started || !accepting || closed {
        return None;
      }
      if |pending| >= max.value || |connections| >= max.value - |pending| {
        return None;
      }
      var id := made;
      pending, made, generation := pending + {id}, made + 1, generation + 1;
      Log(Step.Reserve);
      return Some(id);
    }

    /** The reservation becomes a connection, unless it was settled or the hub closed; a connection that
        joins a hub no longer accepting is told to drain at once. */
    method Attach(r: Id, conn: Id) returns (ok: bool)
      requires Valid() && r < made && conn !in joined
      modifies this
      ensures Valid() && old(trace) <= trace
      ensures r in settled && (ok <==> r in old(pending) && !old(closed))
      ensures ok && !old(accepting) ==> conn in told
    {
      hide Run, Inv, Enabled, Do;
      Pending(r);
      if r in settled {
        return false;
      }
      var drain;
      ok, drain := Admit(r, conn);
      if drain {
        Notify(conn);
      }
    }

    // The critical section of it.
    method Admit(r: Id, conn: Id) returns (ok: bool, drain: bool)
      requires Valid() && r in pending && r < made && r !in settled && conn !in joined
      modifies this
      ensures Valid() && old(trace) <= trace && r in settled
      ensures ok == !old(closed) && drain == (ok && !old(accepting))
      ensures drain ==> conn in owed
    {
      hide Run, Inv, Enabled, Do;
      MaxKept();
      AttachIs(S(), r, conn);
      settled := settled + {r};
      pending, generation := pending - {r}, generation + 1;
      ok, drain := !closed, !closed && !accepting;
      if ok {
        connections, joined, owed := connections + {conn}, joined + {conn}, if drain then owed + {conn} else owed;
      }
      Log(Step.Attach(r, conn));
    }

    lemma Pending(r: Id)
      requires Valid() && r < made
      ensures r in pending <==> r !in settled
    {
      Invariant();
    }

    // conn.beginDrain, at most once effective.
    method Notify(conn: Id)
      requires Valid()
      modifies this
      ensures Valid() && old(trace) <= trace && Current() == old(Current()) && settled == old(settled) && waiters == old(waiters)
      ensures conn in old(owed) ==> told == old(told) + {conn}
      ensures old(told) <= told && old(told) + old(owed) <= told + owed
      ensures conn in old(owed) + old(told) ==> conn in told
      ensures owed == old(owed) - {conn}
    {
      hide Run;
      MaxKept();
      if conn in owed {
        told, owed := told + {conn}, owed - {conn};
        Log(Tell(conn));
      }
    }

    function Current(): Hub
      reads this
    {
      S().hub
    }

    /** Gives a reservation back, if it is still there. */
    method Release(r: Id)
      requires Valid() && r < made
      modifies this
      ensures Valid() && old(trace) <= trace && r in settled && r !in pending
      ensures pending == old(pending) - {r} && connections == old(connections)
    {
      hide Run, Inv;
      MaxKept();
      Pending(r);
      if r in settled {
        return;
      }
      settled := settled + {r};
      if r in pending {
        pending, generation := pending - {r}, generation + 1;
      }
      Log(Step.Release(r));
    }

    method Remove(conn: Id)
      requires Valid() && conn in joined
      modifies this
      ensures Valid() && old(trace) <= trace && connections == old(connections) - {conn} && pending == old(pending)
    {
      hide Run;
      MaxKept();
      if conn in connections {
        connections, generation := connections - {conn}, generation + 1;
      }
      Log(Step.Remove(conn));
    }

    // Everything that is pending or connected in this state has been forced.
    ghost predicate AllForced(h: Hub)
      reads forced
    {
      h.pending <= forced.reservations && h.connections <= forced.connections
    }

    /** Stops admission, tells every connection there is, and waits for the hub to empty; if it gives up,
        no reservation is left that it has not forced. */
    method Drain(w: Id) returns (empty: bool)
      requires Valid() && w !in waiters
      modifies this, forced
      ensures Valid() && old(trace) <= trace && w !in waiters
      ensures old(connections) <= told
      ensures empty ==> pending == {} && connections == {}
      ensures old(started) ==> Shut(Current()) && Size(Current()) <= Size(old(Current()))
      ensures old(started) ==> pending <= forced.reservations
    {
      hide Run, Shut, Enabled, Do;
      ghost var was := Current();
      var todo := StopAccepting();
      ghost var at := |trace| - 1;
      TellAll(w, todo);
      ghost var gaveUp;
      empty, gaveUp := WaitEmpty(w);
      if was.started {
        ShutOnlyShrinks(trace, at, |trace| - 1);
        if !empty {
          ShutOnlyShrinks(trace, at, gaveUp);
          ShutOnlyShrinks(trace, gaveUp, |trace| - 1);
        }
      }
    }

    method StopAccepting() returns (all: set<Id>)
      requires Valid()
      modifies this
      ensures Valid() && old(trace) <= trace && all == old(connections) <= told + owed && waiters == old(waiters)
      ensures old(started) ==> Shut(Current())
      ensures Size(Current()) == Size(old(Current())) && trace != []
    {
      hide Run;
      MaxKept();
      all := connections;
      accepting, generation := false, generation + 1;
      owed, draining := owed + connections, true;
      Log(BeginDrain);
    }

    method TellAll(w: Id, all: set<Id>)
      requires Valid() && w !in waiters && all <= told + owed
      modifies this
      ensures Valid() && old(trace) <= trace && w !in waiters && all <= told
    {
      hide Run, Enabled, Do;
      var todo := all;
      while todo != {}
        invariant Valid() && w !in waiters && old(trace) <= trace
        invariant todo <= all && all - todo <= told && all <= told + owed
        decreases |todo|
      {
        var conn :| conn in todo;
        Interfere(Some(w));
        Notify(conn);
        todo := todo - {conn};
      }
    }

    /** Shuts the hub for good, forces everything there is and waits for it to empty. Nothing is added
        any more, so whatever is still there has been forced. */
    method Close(w: Id) returns (empty: bool)
      requires Valid() && w !in waiters
      modifies this, forced
      ensures Valid() && old(trace) <= trace && w !in waiters
      ensures empty ==> pending == {} && connections == {}
      ensures closed && connections <= old(connections) && pending <= old(pending)
      ensures AllForced(old(Current())) && AllForced(Current())
    {
      hide Run;
      MaxKept();
      var reservations, conns := pending, connections;
      accepting, closed, generation := false, true, generation + 1;
      Log(BeginClose);
      ghost var at := |trace| - 1;
      Force(w, reservations, conns);
      ghost var gaveUp;
      empty, gaveUp := WaitEmpty(w);
      ShutOnlyShrinks(trace, at, |trace| - 1);
    }

    // One after the other, while others act.
    method Force(w: Id, reservations: set<Id>, conns: set<Id>)
      requires Valid() && w !in waiters
      modifies this, forced
      ensures Valid() && old(trace) <= trace && w !in waiters && old(told) <= told
      ensures forced.reservations == old(forced.reservations) + reservations
      ensures forced.connections == old(forced.connections) + conns
    {
      hide Run, Enabled, Do;
      var rest := reservations;
      while rest != {}
        invariant Valid() && old(trace) <= trace && w !in waiters && old(told) <= told && rest <= reservations
        invariant forced.reservations == old(forced.reservations) + (reservations - rest)
        invariant forced.connections == old(forced.connections)
        decreases |rest|
      {
        var r :| r in rest;
        Interfere(Some(w));
        forced.reservations := forced.reservations + {r};
        rest := rest - {r};
      }
      rest := conns;
      while rest != {}
        invariant Valid() && old(trace) <= trace && w !in waiters && old(told) <= told && rest <= conns
        invariant forced.reservations == old(forced.reservations) + reservations
        invariant forced.connections == old(forced.connections) + (conns - rest)
        decreases |rest|
      {
        var conn :| conn in rest;
        Interfere(Some(w));
        forced.connections := forced.connections + {conn};
        rest := rest - {conn};
      }
    }

    /** Looks, takes the signal, and looks again when it has fired. When the caller's context ends it forces
        everything there was in the moment `gaveUp`. */
    method WaitEmpty(w: Id) returns (empty: bool, ghost gaveUp: nat)
      requires Valid() && w !in waiters
      modifies this, forced
      ensures Valid() && old(trace) <= trace && w !in waiters && old(told) <= told
      ensures empty ==> pending == {} && connections == {}
      ensures !empty ==> |old(trace)| <= gaveUp < |trace| && AllForced(trace[gaveUp].hub)
      ensures old(forced.reservations) <= forced.reservations && old(forced.connections) <= forced.connections
    {
      hide Run, Enabled, Do;
      gaveUp := 0;
      var patience: nat := *;
      while true
        invariant Valid() && old(trace) <= trace && w !in waiters && old(told) <= told
        invariant unchanged(forced)
        decreases patience
      {
        Interfere(Some(w));
        if pending == {} && connections == {} {
          return true, gaveUp;
        }
        TakeSignal(w);
        Interfere(Some(w));
        var fired := Stop(w);
        if !fired || patience == 0 {
          gaveUp := ForceAll(w);
          return false, gaveUp;
        }
        patience := patience - 1;
      }
    }

    method ForceAll(w: Id) returns (ghost at: nat)
      requires Valid() && w !in waiters
      modifies this, forced
      ensures Valid() && old(trace) <= trace && w !in waiters && old(told) <= told
      ensures |old(trace)| - 1 <= at < |trace| && AllForced(trace[at].hub)
      ensures old(forced.reservations) <= forced.reservations && old(forced.connections) <= forced.connections
    {
      hide Enabled, Do, Next;
      Interfere(Some(w));
      at := |trace| - 1;
      Force(w, pending, connections);
    }

    method TakeSignal(w: Id)
      requires Valid() && w !in waiters && !(pending == {} && connections == {})
      modifies this
      ensures Valid() && old(trace) <= trace && w in waiters && told == old(told)
    {
      hide Run;
      MaxKept();
      NotEmpty(pending, connections);
      waiters := waiters[w := Waiter(generation, pending, connections)];
      Log(Look(w));
    }

    // The signal has fired, or the context is over.
    method Stop(w: Id) returns (fired: bool)
      requires Valid() && w in waiters
      modifies this
      ensures Valid() && old(trace) <= trace && w !in waiters && told == old(told)
    {
      hide Run;
      MaxKept();
      fired := waiters[w].generation != generation;
      waiters := waiters - {w};
      if fired {
        Log(Wake(w));
      } else {
        Log(GiveUp(w));
      }
    }
  }

  lemma NotEmpty(a: set<Id>, b: set<Id>)
    requires a != {} || b != {}
    ensures |a| + |b| > 0
  {
  }

  lemma AttachIs(s: World, r: Id, conn: Id)
    requires r < s.made && r !in s.settled && r in s.hub.pending && conn !in s.joined
    ensures Enabled(s, Step.Attach(r, conn))
    ensures var h := s.hub;
      Do(s, Step.Attach(r, conn)) == s.(
        hub := h.(pending := h.pending - {r}, connections := if h.closed then h.connections else h.connections + {conn},
                  generation := h.generation + 1),
        settled := s.settled + {r}, joined := if h.closed then s.joined else s.joined + {conn},
        owed := if h.closed || h.accepting then s.owed else s.owed + {conn})
  {
  }

  lemma MaxSame(s: World, step: Step)
    requires Enabled(s, step)
    ensures Do(s, step).hub.max == s.hub.max
  {
  }

  lemma WaitersKept(s: World, step: Step, w: Id)
    requires Enabled(s, step) && !((step.Look? || step.Wake? || step.GiveUp?) && step.w == w)
    ensures w in Do(s, step).waiters <==> w in s.waiters
    ensures w in s.waiters ==> Do(s, step).waiters[w] == s.waiters[w]
  {
  }

  // Notices are neither lost nor taken back.
  lemma NoticesKept(s: World, step: Step)
    requires Enabled(s, step)
    ensures s.told <= Do(s, step).told && s.told + s.owed <= Do(s, step).told + Do(s, step).owed
  {
  }

  lemma {:induction false} SameMax(trace: seq<World>, i: nat)
    requires Run(trace) && i < |trace|
    ensures trace[i].hub.max == trace[0].hub.max
  {
    hide Enabled, Do;
    if i > 0 {
      SameMax(trace, i - 1);
      assert Next(trace[i - 1], trace[i]);
      var step :| Enabled(trace[i - 1], step) && trace[i] == Do(trace[i - 1], step);
      MaxSame(trace[i - 1], step);
    }
  }
}
