/**
 * The WebSocket hub of httpserver/websocket.go as a state machine: admission, draining and closing by any
 * number of goroutines. A step is one critical section, or one notice to a connection.
 */
module HubMachine {
  import opened Options

  type Id = nat

  // max is the connection limit of a configured hub; generation counts the signals.
  datatype Hub = Hub(
    max: Option<nat>, started: bool, accepting: bool, closed: bool,
    pending: set<Id>, connections: set<Id>, generation: nat)

  // What a goroutine in waitEmpty saw when it took the signal.
  datatype Waiter = Waiter(generation: nat, pending: set<Id>, connections: set<Id>)

  // Besides the hub: reservations made and settled, connections that ever joined, the notices to drain
  // that have been given and those that some goroutine is about to give, and whether a drain is on.
  datatype World = World(
    hub: Hub, made: nat, settled: set<Id>, joined: set<Id>, told: set<Id>, owed: set<Id>, draining: bool,
    waiters: map<Id, Waiter>)

  datatype Step =
    | Start
    | Reserve
    | Attach(r: Id, conn: Id)
    | Release(r: Id)
    | Remove(conn: Id)
    | BeginDrain
    | Tell(conn: Id)
    | BeginClose
    | Look(w: Id)
    | Wake(w: Id)
    | GiveUp(w: Id)

  function Size(h: Hub): nat { |h.pending| + |h.connections| }

  predicate CanReserve(h: Hub) {
    h.max.Some? && h.started && h.accepting && !h.closed
    && |h.pending| < h.max.value && |h.connections| < h.max.value - |h.pending|
  }

  function Signal(h: Hub): Hub { h.(generation := h.generation + 1) }

  predicate Enabled(s: World, step: Step) {
    match step
    case Start => s.hub.max.Some? && !s.hub.closed && !s.hub.started
    case Reserve => CanReserve(s.hub)
    // `once` lets a reservation be settled a single time; the connection is a new one.
    case Attach(r, conn) => r < s.made && r !in s.settled && conn !in s.joined
    case Release(r) => r < s.made && r !in s.settled
    case Remove(conn) => conn in s.joined
    case BeginDrain => true
    case Tell(conn) => conn in s.owed
    case BeginClose => true
    case Look(w) => w !in s.waiters && Size(s.hub) > 0
    case Wake(w) => w in s.waiters && s.waiters[w].generation != s.hub.generation
    case GiveUp(w) => w in s.waiters
  }

  // hub.attach, for a reservation that is settled now.
  function AttachState(s: World, r: Id, conn: Id): World {
    var h := s.hub;
    var t := s.(settled := s.settled + {r});
    if r !in h.pending then t
    else if h.closed then t.(hub := Signal(h.(pending := h.pending - {r})))
    else t.(hub := Signal(h.(pending := h.pending - {r}, connections := h.connections + {conn})),
            joined := s.joined + {conn},
            owed := if h.accepting then s.owed else s.owed + {conn})
  }

  function Do(s: World, step: Step): World
    requires Enabled(s, step)
  {
    var h := s.hub;
    match step
    case Start => s.(hub := Signal(h.(started := true, accepting := true)), draining := false)
    case Reserve => s.(hub := Signal(h.(pending := h.pending + {s.made})), made := s.made + 1)
    case Attach(r, conn) => AttachState(s, r, conn)
    case Release(r) =>
      s.(hub := if r in h.pending then Signal(h.(pending := h.pending - {r})) else h, settled := s.settled + {r})
    case Remove(conn) =>
      s.(hub := if conn in h.connections then Signal(h.(connections := h.connections - {conn})) else h)
    case BeginDrain => s.(hub := Signal(h.(accepting := false)), owed := s.owed + h.connections, draining := true)
    case Tell(conn) => s.(told := s.told + {conn}, owed := s.owed - {conn})
    case BeginClose => s.(hub := Signal(h.(accepting := false, closed := true)))
    case Look(w) => s.(waiters := s.waiters[w := Waiter(h.generation, h.pending, h.connections)])
    case Wake(w) => s.(waiters := s.waiters - {w})
    case GiveUp(w) => s.(waiters := s.waiters - {w})
  }

  function Fresh(max: Option<nat>): World {
    World(Hub(max, false, false, false, {}, {}, 0), 0, {}, {}, {}, {}, false, map[])
  }

  ghost predicate Next(s: World, t: World) { exists step :: Enabled(s, step) && t == Do(s, step) }

  ghost predicate Steps(trace: seq<World>) {
    |trace| > 0 && forall i :: 0 <= i < |trace| - 1 ==> Next(trace[i], trace[i + 1])
  }

  ghost predicate Run(trace: seq<World>) { Steps(trace) && trace[0] == Fresh(trace[0].hub.max) }

  // ---- the invariant ---------------------------------------------------------------------

  ghost predicate AdmissionOk(h: Hub) {
    && (h.max.Some? ==> Size(h) <= h.max.value)
    && (h.accepting ==> h.started && !h.closed)
    && (h.started ==> h.max.Some?)
    && (!h.started ==> Size(h) == 0)
  }

  // A reservation is pending from when it is made until it is settled, and never again.
  ghost predicate ReservationsOk(s: World) {
    && (forall r: Id :: r in s.hub.pending <==> r < s.made && r !in s.settled)
    && (forall r :: r in s.settled ==> r < s.made) && s.hub.connections <= s.joined
  }

  // While a drain is on, every connection has been told, or is about to be.
  ghost predicate NoticesOk(s: World) {
    s.draining ==> !s.hub.accepting && s.hub.connections <= s.told + s.owed
  }

  // A waiter whose signal has not fired has missed nothing.
  ghost predicate WaitersOk(s: World) {
    forall w :: w in s.waiters ==>
      && s.waiters[w].generation <= s.hub.generation
      && (s.waiters[w].generation == s.hub.generation ==>
            s.waiters[w].pending == s.hub.pending && s.waiters[w].connections == s.hub.connections && Size(s.hub) > 0)
  }

  ghost predicate Inv(s: World) { AdmissionOk(s.hub) && ReservationsOk(s) && NoticesOk(s) && WaitersOk(s) }

  lemma Removed(a: set<Id>, x: Id)
    ensures |a - {x}| == if x in a then |a| - 1 else |a|
  {
    if x in a {
      assert a == (a - {x}) + {x};
    } else {
      assert a - {x} == a;
    }
  }

  // What each step does to the number of reservations and connections.
  lemma SizeOf(s: World, step: Step)
    requires Enabled(s, step)
    ensures Size(Do(s, step).hub) <= Size(s.hub) + (if step.Reserve? then 1 else 0)
    ensures s.hub.closed ==> Do(s, step).hub.connections <= s.hub.connections
  {
    match step {
      case Attach(r, conn) => Removed(s.hub.pending, r);
      case Release(r) => Removed(s.hub.pending, r);
      case Remove(conn) => Removed(s.hub.connections, conn);
      case _ =>
    }
  }

  lemma StepKeepsAdmission(s: World, step: Step)
    requires AdmissionOk(s.hub) && Enabled(s, step)
    ensures AdmissionOk(Do(s, step).hub)
  {
    SizeOf(s, step);
  }

  lemma StepKeepsReservations(s: World, step: Step)
    requires ReservationsOk(s) && Enabled(s, step)
    ensures ReservationsOk(Do(s, step))
  {
  }

  lemma StepKeepsNotices(s: World, step: Step)
    requires NoticesOk(s) && Enabled(s, step)
    ensures NoticesOk(Do(s, step))
  {
  }

  lemma StepKeepsWaiters(s: World, step: Step)
    requires WaitersOk(s) && Enabled(s, step)
    ensures WaitersOk(Do(s, step))
  {
  }

  lemma InvStep(s: World, t: World)
    requires Inv(s) && Next(s, t)
    ensures Inv(t)
  {
    hide Enabled, Do, AdmissionOk, ReservationsOk, NoticesOk, WaitersOk;
    var step :| Enabled(s, step) && t == Do(s, step);
    StepKeepsAdmission(s, step);
    StepKeepsReservations(s, step);
    StepKeepsNotices(s, step);
    StepKeepsWaiters(s, step);
  }

  lemma InvFresh(max: Option<nat>)
    ensures Inv(Fresh(max))
  {
  }

  lemma {:induction false} InvAlong(trace: seq<World>, i: nat)
    requires Run(trace) && i < |trace|
    ensures Inv(trace[i])
  {
    hide Inv, Next;
    if i == 0 {
      InvFresh(trace[0].hub.max);
    } else {
      InvAlong(trace, i - 1);
      InvStep(trace[i - 1], trace[i]);
    }
  }

  // ---- the promises ----------------------------------------------------------------------

  /** The limit covers reservations and connections together, and only a started, open hub accepts. */
  lemma WithinLimit(trace: seq<World>, i: nat)
    requires Run(trace) && i < |trace|
    ensures var h := trace[i].hub;
      && (h.max.Some? ==> |h.pending| + |h.connections| <= h.max.value)
      && (h.max.None? ==> h.pending == {} && h.connections == {})
      && (h.accepting ==> h.started && !h.closed)
  {
    hide Run, ReservationsOk, NoticesOk, WaitersOk;
    InvAlong(trace, i);
  }

  // No more admissions: the hub is closed, or was started and has stopped accepting.
  predicate Shut(h: Hub) { h.closed || (h.started && !h.accepting) }

  lemma ShutStep(s: World, t: World)
    requires AdmissionOk(s.hub) && Shut(s.hub) && Next(s, t)
    ensures Shut(t.hub) && Size(t.hub) <= Size(s.hub)
    ensures t.hub.pending <= s.hub.pending
    ensures s.hub.closed ==> t.hub.closed && t.hub.connections <= s.hub.connections
  {
    hide Size;
    var step :| Enabled(s, step) && t == Do(s, step);
    SizeOf(s, step);
  }

  /** Once the hub is shut the number of reservations and connections only falls and no reservation is
      added, and once it is closed no connection is. In particular an empty hub stays empty. */
  lemma {:induction false} ShutOnlyShrinks(trace: seq<World>, i: nat, j: nat)
    requires Run(trace) && i <= j < |trace| && Shut(trace[i].hub)
    ensures Shut(trace[j].hub) && Size(trace[j].hub) <= Size(trace[i].hub) && trace[j].hub.pending <= trace[i].hub.pending
    ensures trace[i].hub.closed ==> trace[j].hub.closed && trace[j].hub.connections <= trace[i].hub.connections
    decreases j
  {
    hide Inv, Next, Shut, Size;
    if i < j {
      ShutOnlyShrinks(trace, i, j - 1);
      AdmissionAlong(trace, j - 1);
      ShutStep(trace[j - 1], trace[j]);
    }
  }

  lemma AdmissionAlong(trace: seq<World>, i: nat)
    requires Run(trace) && i < |trace|
    ensures AdmissionOk(trace[i].hub)
  {
    hide Run, AdmissionOk, ReservationsOk, NoticesOk, WaitersOk;
    InvAlong(trace, i);
  }

  /** Draining shuts a hub for good exactly if it had been started or closed before, or can never be
      started: a Drain that comes before Start is forgotten. */
  lemma DrainIsFinalIff(s: World)
    requires Inv(s) && (s.hub.max.Some? ==> s.hub.max.value > 0)
    ensures (forall trace: seq<World> {:trigger Steps(trace)} ::
               (Steps(trace) && trace[0] == Do(s, BeginDrain)) ==> Size(trace[|trace| - 1].hub) <= Size(s.hub))
            <==> s.hub.started || s.hub.closed || s.hub.max.None?
  {
    var d := Do(s, BeginDrain);
    if s.hub.started || s.hub.closed || s.hub.max.None? {
      StepKeepsAdmission(s, BeginDrain);
      forall trace: seq<World> {:trigger Steps(trace)} | Steps(trace) && trace[0] == d
        ensures Size(trace[|trace| - 1].hub) <= Size(s.hub)
      {
        NoGrowth(trace, |trace| - 1);
      }
    } else {
      var t := Do(d, Start);
      var u := Do(t, Reserve);
      var trace := [d, t, u];
      assert Next(d, t) && Next(t, u);
      assert Steps(trace);
      assert Size(u.hub) == Size(s.hub) + 1;
    }
  }

  /** A hub that was told to drain before it was started: started afterwards, it takes on a reservation. */
  lemma ForgottenDrain()
    ensures var trace := [Fresh(Some(1)), Do(Fresh(Some(1)), BeginDrain), Do(Do(Fresh(Some(1)), BeginDrain), Start),
                          Do(Do(Do(Fresh(Some(1)), BeginDrain), Start), Reserve)];
            Run(trace) && trace[1].draining && Size(trace[1].hub) == 0 && Size(trace[3].hub) == 1
  {
    var s := Fresh(Some(1));
    var d := Do(s, BeginDrain);
    var t := Do(d, Start);
    var u := Do(t, Reserve);
    assert Next(s, d) && Next(d, t) && Next(t, u);
  }

  // Shut, or without limits.
  ghost predicate Idle(s: World) { AdmissionOk(s.hub) && (Shut(s.hub) || s.hub.max.None?) }

  lemma IdleStep(s: World, t: World)
    requires Idle(s) && Next(s, t)
    ensures Idle(t) && Size(t.hub) <= Size(s.hub)
  {
    hide Size;
    var step :| Enabled(s, step) && t == Do(s, step);
    SizeOf(s, step);
    StepKeepsAdmission(s, step);
  }

  lemma {:induction false} NoGrowth(trace: seq<World>, i: nat)
    requires Steps(trace) && i < |trace| && Idle(trace[0])
    ensures Idle(trace[i]) && Size(trace[i].hub) <= Size(trace[0].hub)
  {
    hide Next, Idle, Size;
    if i > 0 {
      NoGrowth(trace, i - 1);
      IdleStep(trace[i - 1], trace[i]);
    }
  }

  /** Every reservation is pending until it is settled, is settled once, and never comes back. */
  lemma {:induction false} SettledForGood(trace: seq<World>, i: nat, j: nat, r: Id)
    requires Run(trace) && i <= j < |trace| && r in trace[i].settled
    ensures r in trace[j].settled && r !in trace[j].hub.pending
    decreases j
  {
    hide Inv, Next;
    if i < j {
      SettledForGood(trace, i, j - 1, r);
      SettledStep(trace[j - 1], trace[j], r);
    }
    ReservationsAlong(trace, j);
  }

  lemma SettledStep(s: World, t: World, r: Id)
    requires Next(s, t) && r in s.settled
    ensures r in t.settled
  {
  }

  lemma ReservationsAlong(trace: seq<World>, i: nat)
    requires Run(trace) && i < |trace|
    ensures ReservationsOk(trace[i])
  {
    hide Run, AdmissionOk, ReservationsOk, NoticesOk, WaitersOk;
    InvAlong(trace, i);
  }

  /** While a drain is on every connection, also one that joins late, has been told to drain or some
      goroutine is bound to tell it. */
  lemma EveryConnectionIsTold(trace: seq<World>, i: nat, conn: Id)
    requires Run(trace) && i < |trace| && trace[i].draining && conn in trace[i].hub.connections
    ensures conn in trace[i].told || Enabled(trace[i], Tell(conn))
  {
    hide Run, AdmissionOk, ReservationsOk, WaitersOk;
    InvAlong(trace, i);
  }

  /** waitEmpty misses no change: when the hub has become empty its signal has fired. */
  lemma WaiterWakes(trace: seq<World>, i: nat, w: Id)
    requires Run(trace) && i < |trace| && w in trace[i].waiters
    ensures Enabled(trace[i], Wake(w)) || (Size(trace[i].hub) > 0
      && trace[i].waiters[w].pending == trace[i].hub.pending && trace[i].waiters[w].connections == trace[i].hub.connections)
  {
    hide Run, AdmissionOk, ReservationsOk, NoticesOk, Size;
    InvAlong(trace, i);
  }
}
