/** applySet and applyFile of pgmigrate/pgmigrate.go as the code runs them, one transaction a file. The
    database records its history as a run of the migration machine; other replicas may act between any two
    statements. */
module MigrationRunner {
  import opened Options
  import opened MigrationMachine

  ghost predicate SameReplica(s: State, t: State, r: Id) {
    && (r in s.replicas <==> r in t.replicas) && (r in s.replicas ==> s.replicas[r] == t.replicas[r])
    && (r in s.finished <==> r in t.finished)
    && (s.lock == Some(r) <==> t.lock == Some(r))
  }

  lemma OthersKeepReplica(c: Config, s: State, step: Step, r: Id)
    requires Enabled(c, s, step) && step.r != r && LockOk(c, s)
    ensures SameReplica(s, Do(c, s, step), r)
  {
    hide TransactionOk;
  }

  class Database {
    const c: Config
    var st: State
    ghost var trace: seq<State>

    ghost predicate Valid()
      reads this
    {
      Run(c, trace) && trace[|trace| - 1] == st
    }

    constructor (c: Config)
      requires c.Valid()
      ensures Valid() && this.c == c && st == Initial(c)
    {
      this.c := c;
      st := Initial(c);
      trace := [Initial(c)];
    }

    lemma Invariant()
      requires Valid()
      ensures Inv(c, st)
    {
      InvAlong(c, trace, |trace| - 1);
    }

    method Take(step: Step)
      requires Valid() && Enabled(c, st, step)
      modifies this
      ensures Valid() && old(trace) <= trace && st == Do(c, old(st), step)
    {
      hide Enabled, Do, Initial, Config.Valid;
      ghost var was := st;
      st := Do(c, st, step);
      assert Next(c, was, st);
      trace := trace + [st];
    }

    // Any number of steps of other replicas.
    method Interfere(r: Id)
      requires Valid()
      modifies this
      ensures Valid() && old(trace) <= trace && SameReplica(old(st), st, r)
    {
      hide Run, Enabled, Do, Inv;
      var steps: int := *;
      for i := 0 to if steps < 0 then 0 else steps
        invariant Valid() && old(trace) <= trace && SameReplica(old(st), st, r)
      {
        var step: Step := *;
        if Enabled(c, st, step) && step.r != r {
          Invariant();
          LockFact(c, st);
          OthersKeepReplica(c, st, step, r);
          Take(step);
        }
      }
    }

    lemma LockFact(c: Config, s: State)
      requires Inv(c, s)
      ensures LockOk(c, s)
    {
    }

    // This replica between two files.
    ghost predicate Between(r: Id, next: nat, sums: seq<Sum>)
      reads this
    {
      r in st.replicas && st.replicas[r] == Replica(next, sums, Outside) && |sums| == |c.names| && r !in st.finished
    }

    ghost predicate Gone(r: Id)
      reads this
    {
      r !in st.replicas && r !in st.finished
    }

    /** Applies the files in order, up to the first that fails. */
    method ApplySet(r: Id, sums: seq<Sum>) returns (ok: bool)
      requires Valid() && r !in st.replicas && r !in st.finished && |sums| == |c.names|
      modifies this
      ensures Valid() && old(trace) <= trace && r !in st.replicas
      ensures ok ==> st.recorded == c.names && forall i :: 0 <= i < |sums| ==>
        c.names[i] in st.history && st.history[c.names[i]] == Some(sums[i])
    {
      hide Run, Inv, Gone, TransactionOk, HistoryOk, LockOk;
      Take(Join(r, sums));
      for i := 0 to |c.names|
        invariant Valid() && old(trace) <= trace && Between(r, i, sums)
      {
        ok := ApplyFile(r, i, sums);
        if !ok {
          GoneMeans(r);
          return;
        }
      }
      Take(Finish(r));
      AllRecorded(r, sums);
      return true;
    }

    lemma GoneMeans(r: Id)
      requires Gone(r)
      ensures r !in st.replicas
    {
    }

    lemma AllRecorded(r: Id, sums: seq<Sum>)
      requires Valid() && r in st.finished && st.finished[r] == sums
      ensures |sums| == |c.names| && st.recorded == c.names
      ensures forall i :: 0 <= i < |sums| ==> c.names[i] in st.history && st.history[c.names[i]] == Some(sums[i])
    {
      hide Run, LockOk;
      Invariant();
    }

    /** One file in one transaction: under the lock, verify what is recorded, or run the body and record it. */
    method ApplyFile(r: Id, i: nat, sums: seq<Sum>) returns (ok: bool)
      requires Valid() && Between(r, i, sums) && i < |c.names|
      modifies this
      ensures Valid() && old(trace) <= trace
      ensures if ok then Between(r, i + 1, sums) else Gone(r)
    {
      hide Run, Inv, Between, Gone;
      ok := Begin(r, i, sums);
      if ok {
        ok := CheckOrRun(r, i, sums);
        if ok {
          ok := End(r, i, sums);
        }
      }
    }

    // Inside the transaction of file i.
    ghost predicate Inside(r: Id, i: nat, sums: seq<Sum>, phase: Phase)
      reads this
    {
      r in st.replicas && st.replicas[r] == Replica(i, sums, phase) && |sums| == |c.names| && r !in st.finished && i < |c.names|
    }

    // Starting a transaction, or waiting for the lock, can fail.
    method Begin(r: Id, i: nat, sums: seq<Sum>) returns (ok: bool)
      requires Valid() && Between(r, i, sums) && i < |c.names|
      modifies this
      ensures Valid() && old(trace) <= trace
      ensures if ok then Inside(r, i, sums, Locked) else Gone(r)
    {
      hide Run, Inv;
      Interfere(r);
      ok := *;
      if ok && st.lock.None? {
        Take(Acquire(r));
        return true;
      }
      Take(Fail(r));
      return false;
    }

    method CheckOrRun(r: Id, i: nat, sums: seq<Sum>) returns (ok: bool)
      requires Valid() && Inside(r, i, sums, Locked)
      modifies this
      ensures Valid() && old(trace) <= trace
      ensures if ok then r in st.replicas && st.replicas[r].phase.Ready? && Inside(r, i, sums, st.replicas[r].phase) else Gone(r)
    {
      hide Run, Inv;
      Interfere(r);
      Take(Query(r));
      var row := st.replicas[r].phase.row;
      Interfere(r);
      ok := *;
      if !ok {
        Take(Fail(r));
      } else if row.Some? {
        ok := row.value.None? || row.value.value == sums[i];
        Take(if ok then Verify(r) else Fail(r));
      } else {
        Take(RunBody(r));
        Interfere(r);
        ok := *;
        Take(if ok then Insert(r) else Fail(r));
      }
    }

    // The commit may take effect without the replica hearing of it.
    method End(r: Id, i: nat, sums: seq<Sum>) returns (ok: bool)
      requires Valid() && r in st.replicas && st.replicas[r].phase.Ready? && Inside(r, i, sums, st.replicas[r].phase)
      modifies this
      ensures Valid() && old(trace) <= trace
      ensures if ok then Between(r, i + 1, sums) else Gone(r)
    {
      hide Run, Inv;
      Interfere(r);
      var sent: bool := *;
      ok := *;
      if sent {
        Take(Commit(r, ok));
      } else {
        ok := false;
        Take(Fail(r));
      }
    }
  }
}
