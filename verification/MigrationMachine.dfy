/**
 * Schema migrations (pgmigrate/pgmigrate.go) run by any number of replicas over one list of files, as a
 * state machine. A step is one statement of a transaction, a commit, or a failure; the rows a transaction
 * has written become visible with its commit, and a failure anywhere rolls it back and frees the lock.
 */
module MigrationMachine {
  import opened Options

  type Id = nat
  type Version = string
  type Sum = nat       // a content checksum

  // The sorted file names, and how many of them were recorded before, with or without a checksum.
  datatype Config = Config(names: seq<Version>, before: seq<Option<Sum>>) {
    predicate Valid() {
      |before| <= |names| && forall i, j :: 0 <= i < j < |names| ==> names[i] != names[j]
    }
  }

  // What a transaction will make visible.
  datatype Write = RecordVersion | Backfill | Nothing

  // Between files; holding the lock; having read the row; having run the body; having written.
  datatype Phase = Outside | Locked | Read(row: Option<Option<Sum>>) | Ran | Ready(write: Write)

  // `next` files are behind this replica; the contents it ships may differ from another's.
  datatype Replica = Replica(next: nat, sums: seq<Sum>, phase: Phase)

  datatype State = State(
    history: map<Version, Option<Sum>>,
    lock: Option<Id>,
    replicas: map<Id, Replica>,
    finished: map<Id, seq<Sum>>,
    recorded: seq<Version>,    // history: the versions in the order they were recorded
    executed: seq<Version>)    // history: the bodies whose transaction committed

  datatype Step =
    | Join(r: Id, sums: seq<Sum>)
    | Acquire(r: Id)
    | Query(r: Id)
    | RunBody(r: Id)
    | Insert(r: Id)
    | Verify(r: Id)
    | Commit(r: Id, heard: bool)
    | Fail(r: Id)
    | Finish(r: Id)

  function Name(c: Config, q: Replica): Version
    requires q.next < |c.names|
  {
    c.names[q.next]
  }

  predicate Enabled(c: Config, s: State, step: Step) {
    match step
    case Join(r, sums) => r !in s.replicas && r !in s.finished && |sums| == |c.names|
    case Acquire(r) =>
      r in s.replicas && s.replicas[r].phase.Outside? && s.replicas[r].next < |c.names| && s.lock.None?
    case Query(r) => r in s.replicas && s.replicas[r].phase.Locked? && s.replicas[r].next < |c.names|
    case RunBody(r) => r in s.replicas && s.replicas[r].phase == Read(None)
    case Insert(r) => r in s.replicas && s.replicas[r].phase.Ran?
    // An applied file whose content has changed stops the replica: that is Fail.
    case Verify(r) =>
      && r in s.replicas && s.replicas[r].phase.Read? && s.replicas[r].phase.row.Some?
      && s.replicas[r].next < |s.replicas[r].sums|
      && (s.replicas[r].phase.row.value.Some? ==> s.replicas[r].phase.row.value.value == s.replicas[r].sums[s.replicas[r].next])
    case Commit(r, _) =>
      r in s.replicas && s.replicas[r].phase.Ready? && s.replicas[r].next < |c.names| == |s.replicas[r].sums|
    case Fail(r) => r in s.replicas
    case Finish(r) => r in s.replicas && s.replicas[r].phase.Outside? && s.replicas[r].next == |c.names|
  }

  function To(s: State, r: Id, phase: Phase): State
    requires r in s.replicas
  {
    s.(replicas := s.replicas[r := s.replicas[r].(phase := phase)])
  }

  // The commit of a replica's transaction; a replica that does not hear of it gives up.
  function CommitState(c: Config, s: State, r: Id, heard: bool): State
    requires Enabled(c, s, Commit(r, heard))
  {
    var q := s.replicas[r];
    var name := c.names[q.next];
    var write := q.phase.write;
    s.(history := if write.Nothing? then s.history else s.history[name := Some(q.sums[q.next])],
       recorded := if write.RecordVersion? then s.recorded + [name] else s.recorded,
       executed := if write.RecordVersion? then s.executed + [name] else s.executed,
       lock := None,
       replicas := if heard then s.replicas[r := q.(next := q.next + 1, phase := Outside)] else s.replicas - {r})
  }

  function Do(c: Config, s: State, step: Step): State
    requires Enabled(c, s, step)
  {
    match step
    case Join(r, sums) => s.(replicas := s.replicas[r := Replica(0, sums, Outside)])
    case Acquire(r) => To(s, r, Locked).(lock := Some(r))
    case Query(r) =>
      var name := Name(c, s.replicas[r]);
      To(s, r, Read(if name in s.history then Some(s.history[name]) else None))
    case RunBody(r) => To(s, r, Ran)
    case Insert(r) => To(s, r, Ready(RecordVersion))
    case Verify(r) => To(s, r, Ready(if s.replicas[r].phase.row.value.None? then Backfill else Nothing))
    case Commit(r, heard) => CommitState(c, s, r, heard)
    case Fail(r) => s.(replicas := s.replicas - {r}, lock := if s.lock == Some(r) then None else s.lock)
    case Finish(r) => s.(replicas := s.replicas - {r}, finished := s.finished[r := s.replicas[r].sums])
  }

  function Initial(c: Config): State
    requires c.Valid()
  {
    State(map i | 0 <= i < |c.before| :: c.names[i] := c.before[i], None, map[], map[], c.names[..|c.before|], [])
  }

  ghost predicate Next(c: Config, s: State, t: State) {
    exists step :: Enabled(c, s, step) && t == Do(c, s, step)
  }

  ghost predicate Run(c: Config, trace: seq<State>) {
    c.Valid() && |trace| > 0 && trace[0] == Initial(c) && forall i :: 0 <= i < |trace| - 1 ==> Next(c, trace[i], trace[i + 1])
  }

  // ---- the invariant ---------------------------------------------------------------------

  // What is recorded is the beginning of the list; what was executed is what was recorded since the start.
  ghost predicate HistoryOk(c: Config, s: State) {
    && |c.before| <= |s.recorded| <= |c.names| && s.recorded == c.names[..|s.recorded|]
    && (forall v :: v in s.history <==> v in s.recorded)
    && s.executed == c.names[|c.before|..|s.recorded|]
  }

  // A replica's files so far are recorded, with its own contents.
  ghost predicate PassedOk(c: Config, s: State, next: nat, sums: seq<Sum>) {
    && |sums| == |c.names| && next <= |s.recorded| && next <= |c.names|
    && forall i :: 0 <= i < next ==> c.names[i] in s.history && s.history[c.names[i]] == Some(sums[i])
  }

  ghost predicate ReplicasOk(c: Config, s: State) {
    && (forall r :: r in s.replicas ==> PassedOk(c, s, s.replicas[r].next, s.replicas[r].sums))
    && (forall r :: r in s.finished ==> PassedOk(c, s, |c.names|, s.finished[r]))
  }

  // What a transaction has read still holds when it writes.
  ghost predicate TransactionOk(c: Config, s: State, q: Replica) {
    match q.phase
    case Outside => true
    case Locked => q.next < |c.names|
    case Read(row) =>
      q.next < |c.names| && row == (if c.names[q.next] in s.history then Some(s.history[c.names[q.next]]) else None)
    case Ran => q.next < |c.names| && c.names[q.next] !in s.history
    case Ready(RecordVersion) => q.next < |c.names| && c.names[q.next] !in s.history
    case Ready(Backfill) => q.next < |c.names| && c.names[q.next] in s.history && s.history[c.names[q.next]].None?
    case Ready(Nothing) =>
      && q.next < |c.names| == |q.sums| && c.names[q.next] in s.history
      && s.history[c.names[q.next]] == Some(q.sums[q.next])
  }

  // Only the holder of the lock is inside a transaction.
  ghost predicate LockOk(c: Config, s: State) {
    && (forall r :: r in s.replicas && !s.replicas[r].phase.Outside? ==> s.lock == Some(r))
    && (s.lock.Some? && s.lock.value in s.replicas ==> TransactionOk(c, s, s.replicas[s.lock.value]))
  }

  ghost predicate Inv(c: Config, s: State) { HistoryOk(c, s) && ReplicasOk(c, s) && LockOk(c, s) }

  // What no step takes back: a version, and a checksum once there is one.
  ghost predicate Keeps(s: State, t: State) {
    && (forall v :: v in s.history ==> v in t.history && (s.history[v].Some? ==> t.history[v] == s.history[v]))
    && s.recorded <= t.recorded && s.executed <= t.executed
  }

  // The version a replica is about to record is the first one missing.
  lemma NextMissing(c: Config, s: State, q: Replica)
    requires c.Valid() && HistoryOk(c, s) && PassedOk(c, s, q.next, q.sums) && q.next < |c.names|
    requires c.names[q.next] !in s.history
    ensures q.next == |s.recorded|
  {
    if q.next < |s.recorded| {
      RecordedThen(c, s, q.next);
    }
  }

  lemma RecordedThen(c: Config, s: State, i: nat)
    requires HistoryOk(c, s) && i < |s.recorded|
    ensures c.names[i] in s.history
  {
    assert s.recorded[i] == c.names[i];
  }

  lemma RecordKeepsHistory(c: Config, s: State, t: State, i: nat)
    requires c.Valid() && HistoryOk(c, s) && i == |s.recorded| < |c.names|
    requires t.recorded == s.recorded + [c.names[i]] && t.executed == s.executed + [c.names[i]]
    requires forall v :: v in t.history <==> v in s.history || v == c.names[i]
    ensures HistoryOk(c, t)
  {
    assert c.names[..i + 1] == c.names[..i] + [c.names[i]];
    assert c.names[|c.before|..i + 1] == c.names[|c.before|..i] + [c.names[i]];
  }

  lemma CommitKeeps(c: Config, s: State, r: Id, heard: bool)
    requires c.Valid() && Inv(c, s) && Enabled(c, s, Commit(r, heard))
    ensures HistoryOk(c, CommitState(c, s, r, heard)) && Keeps(s, CommitState(c, s, r, heard))
    ensures s.lock == Some(r)
  {
    var q := s.replicas[r];
    var t := CommitState(c, s, r, heard);
    assert s.lock == Some(r) && TransactionOk(c, s, q);
    if q.phase.write.RecordVersion? {
      NextMissing(c, s, q);
      RecordKeepsHistory(c, s, t, q.next);
    }
  }

  lemma KeptPasses(c: Config, s: State, t: State, next: nat, sums: seq<Sum>)
    requires Keeps(s, t) && PassedOk(c, s, next, sums)
    ensures PassedOk(c, t, next, sums)
  {
  }

  lemma CommitRecords(c: Config, s: State, r: Id, heard: bool)
    requires Inv(c, s) && Enabled(c, s, Commit(r, heard))
    ensures var q, t := s.replicas[r], CommitState(c, s, r, heard);
      c.names[q.next] in t.history && t.history[c.names[q.next]] == Some(q.sums[q.next])
  {
    hide HistoryOk, ReplicasOk;
    assert TransactionOk(c, s, s.replicas[r]);
  }

  lemma CommitPasses(c: Config, s: State, r: Id, heard: bool)
    requires c.Valid() && Inv(c, s) && Enabled(c, s, Commit(r, heard))
    ensures PassedOk(c, CommitState(c, s, r, heard), s.replicas[r].next + 1, s.replicas[r].sums)
  {
    hide Config.Valid, HistoryOk, LockOk, Keeps, CommitState;
    var q := s.replicas[r];
    var t := CommitState(c, s, r, heard);
    CommitKeeps(c, s, r, heard);
    KeptPasses(c, s, t, q.next, q.sums);
    CommitRecords(c, s, r, heard);
    Recorded(c, t, q.next);
  }

  lemma CommitKeepsReplicas(c: Config, s: State, r: Id, heard: bool)
    requires c.Valid() && Inv(c, s) && Enabled(c, s, Commit(r, heard))
    ensures ReplicasOk(c, CommitState(c, s, r, heard)) && LockOk(c, CommitState(c, s, r, heard))
  {
    hide Config.Valid, PassedOk, Keeps, HistoryOk, TransactionOk;
    var t := CommitState(c, s, r, heard);
    CommitKeeps(c, s, r, heard);
    CommitPasses(c, s, r, heard);
    forall p | p in s.replicas ensures PassedOk(c, t, s.replicas[p].next, s.replicas[p].sums) {
      KeptPasses(c, s, t, s.replicas[p].next, s.replicas[p].sums);
    }
    forall p | p in s.finished ensures PassedOk(c, t, |c.names|, s.finished[p]) {
      KeptPasses(c, s, t, |c.names|, s.finished[p]);
    }
  }

  lemma Recorded(c: Config, s: State, i: nat)
    requires c.Valid() && HistoryOk(c, s) && i < |c.names| && c.names[i] in s.history
    ensures i < |s.recorded|
  {
    var j :| 0 <= j < |s.recorded| && s.recorded[j] == c.names[i];
    assert c.names[j] == c.names[i];
  }

  lemma StepKeepsInv(c: Config, s: State, step: Step)
    requires c.Valid() && Inv(c, s) && Enabled(c, s, step)
    ensures Inv(c, Do(c, s, step)) && Keeps(s, Do(c, s, step))
  {
    if step.Commit? {
      CommitKeeps(c, s, step.r, step.heard);
      CommitKeepsReplicas(c, s, step.r, step.heard);
    } else {
      QuietStep(c, s, step);
    }
  }

  // Everything but a commit leaves the tables alone.
  lemma QuietStep(c: Config, s: State, step: Step)
    requires c.Valid() && Inv(c, s) && Enabled(c, s, step) && !step.Commit?
    ensures Inv(c, Do(c, s, step)) && Keeps(s, Do(c, s, step))
  {
    hide Config.Valid, TransactionOk, PassedOk;
    QuietTables(c, s, step);
    QuietReplicas(c, s, step);
    QuietLock(c, s, step);
  }

  lemma QuietTables(c: Config, s: State, step: Step)
    requires Enabled(c, s, step) && !step.Commit?
    ensures var t := Do(c, s, step); t.history == s.history && t.recorded == s.recorded && t.executed == s.executed
  {
  }

  lemma QuietReplicas(c: Config, s: State, step: Step)
    requires ReplicasOk(c, s) && Enabled(c, s, step) && !step.Commit?
    ensures ReplicasOk(c, Do(c, s, step))
  {
    hide Config.Valid;
    QuietTables(c, s, step);
  }

  lemma QuietLock(c: Config, s: State, step: Step)
    requires ReplicasOk(c, s) && LockOk(c, s) && Enabled(c, s, step) && !step.Commit?
    ensures LockOk(c, Do(c, s, step))
  {
    hide Config.Valid;
    QuietTables(c, s, step);
  }

  lemma InitialInv(c: Config)
    requires c.Valid()
    ensures Inv(c, Initial(c))
  {
    var s := Initial(c);
    forall v ensures v in s.history <==> v in s.recorded {
      if v in s.recorded {
        var i :| 0 <= i < |s.recorded| && s.recorded[i] == v;
        assert c.names[i] == v;
      }
    }
  }

  lemma NextKeepsInv(c: Config, s: State, t: State)
    requires c.Valid() && Inv(c, s) && Next(c, s, t)
    ensures Inv(c, t) && Keeps(s, t)
  {
    hide Inv, Enabled, Do, Keeps;
    var step :| Enabled(c, s, step) && t == Do(c, s, step);
    StepKeepsInv(c, s, step);
  }

  lemma {:induction false} InvAlong(c: Config, trace: seq<State>, i: nat)
    requires Run(c, trace) && i < |trace|
    ensures Inv(c, trace[i])
  {
    hide Inv, Next, Initial, Config.Valid;
    if i == 0 {
      InitialInv(c);
    } else {
      InvAlong(c, trace, i - 1);
      NextKeepsInv(c, trace[i - 1], trace[i]);
    }
  }

  lemma {:induction false} KeepsAlong(c: Config, trace: seq<State>, i: nat, j: nat)
    requires Run(c, trace) && i <= j < |trace|
    ensures Keeps(trace[i], trace[j])
    decreases j
  {
    hide Inv, Next, Initial, Config.Valid, Keeps;
    if i == j {
      KeepsItself(trace[i]);
    } else {
      KeepsAlong(c, trace, i, j - 1);
      InvAlong(c, trace, j - 1);
      NextKeepsInv(c, trace[j - 1], trace[j]);
      KeepsOn(trace[i], trace[j - 1], trace[j]);
    }
  }

  lemma KeepsItself(s: State)
    ensures Keeps(s, s)
  {
  }

  lemma KeepsOn(s: State, t: State, u: State)
    requires Keeps(s, t) && Keeps(t, u)
    ensures Keeps(s, u)
  {
  }

  // ---- the promises ----------------------------------------------------------------------

  /** Whatever crashes where, the recorded versions are the beginning of the sorted list, and the bodies
      that took effect are exactly those recorded since the start, in order, each once. */
  lemma PrefixInOrder(c: Config, trace: seq<State>, i: nat)
    requires Run(c, trace) && i < |trace|
    ensures var s := trace[i];
      && |c.before| <= |s.recorded| <= |c.names| && s.recorded == c.names[..|s.recorded|]
      && (forall v :: v in s.history <==> v in s.recorded)
      && s.executed == c.names[|c.before|..|s.recorded|]
      && (forall a, b :: 0 <= a < b < |s.executed| ==> s.executed[a] != s.executed[b])
  {
    hide Run, ReplicasOk, LockOk;
    InvAlong(c, trace, i);
    Names(c, trace);
  }

  lemma Names(c: Config, trace: seq<State>)
    requires Run(c, trace)
    ensures c.Valid()
  {
  }

  /** A checksum, once recorded, never changes, and no version is ever forgotten. */
  lemma ChecksumForever(c: Config, trace: seq<State>, i: nat, j: nat, v: Version)
    requires Run(c, trace) && i <= j < |trace| && v in trace[i].history
    ensures v in trace[j].history && (trace[i].history[v].Some? ==> trace[j].history[v] == trace[i].history[v])
  {
    hide Run;
    KeepsAlong(c, trace, i, j);
  }

  /** A replica that finishes has every file recorded with its own contents, so two that finish shipped
      the same contents. */
  lemma FinishedAgree(c: Config, trace: seq<State>, i: nat, a: Id, b: Id)
    requires Run(c, trace) && i < |trace| && a in trace[i].finished && b in trace[i].finished
    ensures trace[i].finished[a] == trace[i].finished[b]
    ensures trace[i].recorded == c.names
  {
    hide Run, LockOk;
    InvAlong(c, trace, i);
    var s := trace[i];
    assert PassedOk(c, s, |c.names|, s.finished[a]) && PassedOk(c, s, |c.names|, s.finished[b]);
    forall k | 0 <= k < |c.names| ensures s.finished[a][k] == s.finished[b][k] {
      assert s.history[c.names[k]] == Some(s.finished[a][k]);
    }
  }

  /** Two replicas are never inside a transaction at once. */
  lemma OneTransaction(c: Config, trace: seq<State>, i: nat, a: Id, b: Id)
    requires Run(c, trace) && i < |trace| && a in trace[i].replicas && b in trace[i].replicas
    requires !trace[i].replicas[a].phase.Outside? && !trace[i].replicas[b].phase.Outside?
    ensures a == b
  {
    hide Run, ReplicasOk, HistoryOk, TransactionOk;
    InvAlong(c, trace, i);
  }
}
