/** Applying a plan: classify, stage, seal, commit, verify, finalize; any failure after the seal is
    rolled back. */
module WorkspaceApply {
  import opened Options
  import opened WorkspaceModel
  import opened WorkspaceDisk
  import opened WorkspaceRollback
  import opened WorkspaceCommit

  datatype Disposition = Nothing | Committed | Replayed

  datatype PlanState = StateUnknown | StateBefore | StateFinal

  // ---- one change ------------------------------------------------------------------------

  lemma BeginChange(plan: Plan, g: Progress, t: Tree, journal: seq<JournalEntry>, created: seq<Path>, i: nat)
    requires i < |plan| && AtChange(plan, g, t, journal, created, i) && !plan[i].op.Assert? && IsDir(t, Parent(Target(plan[i])))
    ensures InChange(plan, g, t, journal + [JournalEntry(i, false, false)], created, i) && g.stages[i] == Before
  {
    hide Shape, GoodStart;
    NotBlocked(plan, g, t, journal, created, i);
    JournalGrows(plan, journal, g.stages, i);
  }

  lemma EndChange(plan: Plan, g: Progress, t: Tree, journal: seq<JournalEntry>, created: seq<Path>, i: nat)
    requires InChange(plan, g, t, journal, created, i) && g.stages[i] == DoneStage(plan[i])
    ensures AtChange(plan, g, t, journal, created, i + 1)
  {
    hide Undoable;
  }

  lemma SkipChange(plan: Plan, g: Progress, t: Tree, journal: seq<JournalEntry>, created: seq<Path>, i: nat)
    requires i < |plan| && AtChange(plan, g, t, journal, created, i) && plan[i].op.Assert?
    ensures AtChange(plan, g, t, journal, created, i + 1)
  {
    hide Shape, GoodStart, JournalOk;
    NotBlocked(plan, g, t, journal, created, i);
  }

  /** One round of the commit loop. It fails only at an operation that was made to fail, and then a
      directory is unrecorded exactly when that operation was the sync that follows its creation. */
  method CommitChange(disk: Disk, plan: Plan, i: nat, journal0: seq<JournalEntry>, created0: seq<Path>, ghost g0: Progress)
    returns (ok: bool, journal: seq<JournalEntry>, created: seq<Path>, ghost g: Progress)
    requires i < |plan| && AtChange(plan, g0, disk.tree, journal0, created0, i)
    modifies disk
    ensures old(disk.Whole()) ==> disk.Whole()
    ensures old(disk.log) <= disk.log && disk.Kept(plan, old(disk.moments))
    ensures g.t0 == g0.t0 && Undoable(plan, g, disk.tree, journal, created)
    ensures ok ==> AtChange(plan, g, disk.tree, journal, created, i + 1)
    ensures g.leaked == UnsyncedDir(disk.log)
    ensures !ok ==> disk.MadeToFail(old(disk.log))
    ensures forall d: nat | FirstMissing(old(disk.tree), plan[i].path, d) && FailsAfter(disk.faults, |old(disk.log)|, d + 2) ::
              plan[i].op.Create? ==> g.leaked == Some(Public(plan[i].path[..d]))
  {
    hide Disk.Whole, Undoable, Recoverable, SlotIs, StagedFrom, UntouchedFrom, DoneBelow, JournalBelow, Blocked;
    journal, created, g := journal0, created0, g0;
    ok := disk.Check();
    if !ok { return; }
    ok := disk.Check();
    if !ok { return; }
    if plan[i].op.Assert? {
      TargetBefore(plan, g, disk.tree, journal, created, i);
      var seen := disk.CaptureFile(plan[i].path);
      ok := seen == Read(plan[i].before);
      SkipChange(plan, g, disk.tree, journal, created, i);
      return;
    }
    ParentsThere(plan, g, disk.tree, journal, created, i);
    ok, created, g := EnsureTargetParents(disk, plan, i, journal, created, g);
    if !ok { return; }
    ok, journal, g := ReplaceTarget(disk, plan, i, journal, created, g);
  }

  lemma TargetBefore(plan: Plan, g: Progress, t: Tree, journal: seq<JournalEntry>, created: seq<Path>, i: nat)
    requires i < |plan| && AtChange(plan, g, t, journal, created, i)
    ensures Capture(t, plan[i].path) == Read(plan[i].before) && plan[i].Valid()
  {
    hide Undoable;
    NotBlocked(plan, g, t, journal, created, i);
    BeforeStage(plan, g, t, journal, created, i);
    TargetReads(plan[i], i, t);
  }

  lemma ParentsThere(plan: Plan, g: Progress, t: Tree, journal: seq<JournalEntry>, created: seq<Path>, i: nat)
    requires i < |plan| && AtChange(plan, g, t, journal, created, i)
    ensures plan[i].op.Create? || plan[i].op.Assert? || AncestorsIn(t, plan[i].path)
  {
    hide Undoable, Blocked, SlotIs;
    NotBlocked(plan, g, t, journal, created, i);
    if plan[i].before.Some? { OldAncestors(plan, g, t, journal, created, i); }
  }

  // The target is checked once more, journaled and changed.
  method ReplaceTarget(disk: Disk, plan: Plan, i: nat, journal0: seq<JournalEntry>, created: seq<Path>, ghost g0: Progress)
    returns (ok: bool, journal: seq<JournalEntry>, ghost g: Progress)
    requires i < |plan| && AtChange(plan, g0, disk.tree, journal0, created, i)
    requires !plan[i].op.Assert? && IsDir(disk.tree, Parent(Target(plan[i])))
    modifies disk
    ensures old(disk.Whole()) ==> disk.Whole()
    ensures old(disk.log) <= disk.log && disk.Kept(plan, old(disk.moments))
    ensures g.t0 == g0.t0 && Undoable(plan, g, disk.tree, journal, created)
    ensures ok ==> AtChange(plan, g, disk.tree, journal, created, i + 1)
    ensures g.leaked.None? && UnsyncedDir(disk.log).None?
    ensures !ok ==> disk.MadeToFail(old(disk.log))
  {
    hide Disk.Whole, Undoable, Recoverable, SlotIs, StagedFrom, UntouchedFrom, DoneBelow, JournalBelow, Blocked;
    journal, g := journal0, g0;
    TargetBefore(plan, g, disk.tree, journal, created, i);
    var now := disk.CaptureFile(plan[i].path);
    if now != Read(plan[i].before) { return false, journal, g; }
    ok := disk.Check();
    if !ok { return; }
    BeginChange(plan, g, disk.tree, journal, created, i);
    journal := journal + [JournalEntry(i, false, false)];
    ok, journal, g := PerformChange(disk, plan, i, journal, created, g);
  }

  lemma BeforeStage(plan: Plan, g: Progress, t: Tree, journal: seq<JournalEntry>, created: seq<Path>, i: nat)
    requires i < |plan| && AtChange(plan, g, t, journal, created, i)
    ensures |g.stages| == |plan| && g.stages[i] == Before
  {
    hide GoodStart, JournalOk;
  }

  method PerformChange(disk: Disk, plan: Plan, i: nat, journal0: seq<JournalEntry>, created: seq<Path>, ghost g0: Progress)
    returns (ok: bool, journal: seq<JournalEntry>, ghost g: Progress)
    requires InChange(plan, g0, disk.tree, journal0, created, i) && journal0[|journal0| - 1] == JournalEntry(i, false, false)
    requires plan[i].Valid() && g0.stages[i] == Before
    modifies disk
    ensures old(disk.Whole()) ==> disk.Whole()
    ensures old(disk.log) <= disk.log && disk.Kept(plan, old(disk.moments))
    ensures g.t0 == g0.t0 && Undoable(plan, g, disk.tree, journal, created)
    ensures ok ==> AtChange(plan, g, disk.tree, journal, created, i + 1)
    ensures g.leaked.None? && UnsyncedDir(disk.log).None?
    ensures !ok ==> disk.MadeToFail(old(disk.log))
  {
    hide Disk.Whole, Undoable, Recoverable, StagedFrom, UntouchedFrom, DoneBelow, JournalBelow;
    journal, g := journal0, g0;
    if plan[i].before.Some? {
      ok, journal, g := MoveAside(disk, plan, i, journal, created, g);
      if !ok { return; }
    }
    if !plan[i].op.Delete? {
      ok, journal, g := Install(disk, plan, i, journal, created, g);
      if !ok { return; }
    }
    ok := disk.Check();
    if !ok { return; }
    EndChange(plan, g, disk.tree, journal, created, i);
  }

  lemma AllDone(plan: Plan, g: Progress, t: Tree, journal: seq<JournalEntry>, created: seq<Path>)
    requires AtChange(plan, g, t, journal, created, |plan|)
    ensures AllFinal(plan, t)
  {
    hide Undoable;
    forall i | 0 <= i < |plan| ensures Capture(t, plan[i].path) == Read(plan[i].final) {
      NotBlocked(plan, g, t, journal, created, i);
      assert g.stages[i] == DoneStage(plan[i]);
      TargetReads(plan[i], i, t);
    }
  }

  lemma Readable(plan: Plan, t: Tree)
    ensures AllBefore(plan, t) || AllFinal(plan, t) ==> forall i :: 0 <= i < |plan| ==> !Capture(t, plan[i].path).Unreadable?
  {
  }

  /** The whole loop followed by the final capture, the guards and the root check. It fails only at an
      operation that was made to fail, and then a directory is unrecorded exactly when that operation
      was the sync that follows its creation. */
  method CommitAll(disk: Disk, plan: Plan, ghost g0: Progress)
    returns (ok: bool, journal: seq<JournalEntry>, created: seq<Path>, ghost g: Progress)
    requires AtChange(plan, g0, disk.tree, [], [], 0)
    modifies disk
    ensures old(disk.Whole()) ==> disk.Whole()
    ensures old(disk.log) <= disk.log && disk.Kept(plan, old(disk.moments))
    ensures g.t0 == g0.t0 && Undoable(plan, g, disk.tree, journal, created)
    ensures ok ==> AllFinal(plan, disk.tree) && g.leaked.None?
    ensures g.leaked == UnsyncedDir(disk.log)
    ensures !ok ==> disk.MadeToFail(old(disk.log))
    ensures |plan| > 0 ==>
              forall d: nat | FirstMissing(old(disk.tree), plan[0].path, d) && FailsAfter(disk.faults, |old(disk.log)|, d + 2) ::
                plan[0].op.Create? ==> g.leaked == Some(Public(plan[0].path[..d]))
  {
    hide Disk.Whole, Undoable, Recoverable, StagedFrom, UntouchedFrom, DoneBelow, JournalBelow, AllFinal, AllBefore;
    ok, journal, created, g := true, [], [], g0;
    for i := 0 to |plan|
      invariant old(disk.log) <= disk.log && disk.Kept(plan, old(disk.moments))
      invariant old(disk.Whole()) ==> disk.Whole()
      invariant g.t0 == g0.t0 && AtChange(plan, g, disk.tree, journal, created, i)
      invariant i == 0 ==> disk.tree == old(disk.tree) && disk.log == old(disk.log)
      invariant i > 0 ==>
                  UnsyncedDir(disk.log).None?
                  && forall d: nat | FirstMissing(old(disk.tree), plan[0].path, d) && FailsAfter(disk.faults, |old(disk.log)|, d + 2) ::
                       !plan[0].op.Create?
    {
      ok, journal, created, g := CommitChange(disk, plan, i, journal, created, g);
      if !ok { return; }
    }
    AllDone(plan, g, disk.tree, journal, created);
    ok := ConfirmFinal(disk, plan);
  }

  // The final capture, the guards and the root check; nothing but a fault makes this fail.
  method ConfirmFinal(disk: Disk, plan: Plan) returns (ok: bool)
    requires AllFinal(plan, disk.tree)
    modifies disk`log
    ensures old(disk.log) <= disk.log && UnsyncedDir(disk.log).None?
    ensures !ok ==> disk.MadeToFail(old(disk.log))
  {
    hide AllFinal, AllBefore;
    Readable(plan, disk.tree);
    var current := CapturePlan(disk, plan);
    if current.None? { return false; }
    ListMatches(plan, disk.tree, current.value);
    if current.value != Finals(plan) { return false; }
    ok := disk.Check();
    if !ok { return; }
    ok := disk.Check();
  }

  // ---- before the commit -----------------------------------------------------------------

  /** The digest comparison of the target set, final state first. */
  method Classify(disk: Disk, plan: Plan) returns (state: PlanState)
    modifies disk`log
    ensures old(disk.log) <= disk.log
    ensures state == StateFinal ==> AllFinal(plan, disk.tree)
    ensures state == StateBefore ==> AllBefore(plan, disk.tree)
    ensures AllFinal(plan, disk.tree) && !AllBefore(plan, disk.tree) ==> state != StateBefore
    ensures old(disk.FaultFree()) && AllFinal(plan, disk.tree) ==> state == StateFinal
    ensures old(disk.FaultFree()) && AllBefore(plan, disk.tree) && !AllFinal(plan, disk.tree) ==> state == StateBefore
  {
    hide AllFinal, AllBefore;
    Readable(plan, disk.tree);
    var current := CapturePlan(disk, plan);
    if current.None? { return StateUnknown; }
    ListMatches(plan, disk.tree, current.value);
    if current.value == Finals(plan) {
      var guards := disk.Check();
      if guards { return StateFinal; }
      if current.value != Befores(plan) { return StateUnknown; }
    }
    if current.value == Befores(plan) {
      var guards := disk.Check();
      return if guards then StateBefore else StateUnknown;
    }
    return StateUnknown;
  }

  // A transaction directory in the making: nothing public has moved, no backup exists.
  ghost predicate Preparing(plan: Plan, t0: Tree, t: Tree) {
    && PublicPart(t) == PublicPart(t0)
    && (forall i: nat :: Backup(i) !in t)
    && (Active(t) ==> IsDir(t, Private(false, Directory)))
  }

  lemma PreparingRecoverable(plan: Plan, t0: Tree, t: Tree)
    requires GoodStart(plan, t0) && Preparing(plan, t0, t)
    ensures Recoverable(plan, t) && AllBefore(plan, t) && IsDir(t, Public([]))
    ensures AllFinal(plan, t) <==> AllFinal(plan, t0)
  {
    hide ValidPlan, AllBefore, AllFinal, Recoverable;
    PublicKeepsStates(plan, t0, t);
    PublicSame(t0, t);
    assert SameAt(t0, t, Public([]));
    StartParents(plan, t0);
    UntouchedRecoverable(plan, t);
  }

  lemma StartParents(plan: Plan, t0: Tree)
    requires GoodStart(plan, t0)
    ensures ParentsPresent(plan, t0)
  {
    hide ValidPlan;
    forall i | 0 <= i < |plan| && plan[i].before.Some? ensures IsDir(t0, Parent(Target(plan[i]))) {
      assert Capture(t0, plan[i].path) == Read(plan[i].before);
      ParentIn(t0, Target(plan[i]));
    }
  }

  lemma PrivateWritten(plan: Plan, t0: Tree, t: Tree, u: Tree, e: Entry)
    requires Preparing(plan, t0, t) && (e.StagedOf? || e.Record?)
    requires forall p :: p != Private(false, e) ==> (p in u <==> p in t)
    requires forall p :: p != Private(false, e) && p in u ==> u[p] == t[p]
    ensures Preparing(plan, t0, u)
  {
    PublicEqual(u, t);
  }

  lemma PreparingDirectory(plan: Plan, t0: Tree, t: Tree)
    requires Preparing(plan, t0, t) && Active(t)
    ensures IsDir(t, Private(false, Directory))
  {
  }

  lemma StartShape(plan: Plan, t0: Tree, t: Tree)
    requires GoodStart(plan, t0) && Preparing(plan, t0, t) && Active(t) && Sealed(t)
    ensures Shape(plan, t0, t, seq(|plan|, _ => Before), {})
  {
    hide ValidPlan, Blocked, IsTarget, Closed;
    PublicSame(t, t0);
    forall i | 0 <= i < |plan| ensures SlotIs(plan[i], t, i, Before) {
      assert Capture(t0, plan[i].path) == Read(plan[i].before) && SameAt(t, t0, Target(plan[i]));
    }
    hide SlotIs, Capture;
    forall p: Path | p.Public? ensures p in t <==> p in t0
      ensures p in t0 ==> p in t && t[p] == t0[p]
    {
      assert SameAt(t, t0, p);
    }
  }

  lemma EmptyJournal(plan: Plan)
    ensures JournalOk(plan, [], seq(|plan|, _ => Before))
  {
  }

  // The state right after the seal is the start of the commit loop.
  lemma StartCommit(plan: Plan, t0: Tree, t: Tree)
    requires GoodStart(plan, t0) && Preparing(plan, t0, t) && Active(t) && Sealed(t) && StagedFrom(plan, t, 0)
    ensures AtChange(plan, Progress(t0, seq(|plan|, _ => Before), None), t, [], [], 0)
  {
    hide GoodStart, Shape, Preparing, StagedFrom, Sealed, Active, JournalOk;
    StartShape(plan, t0, t);
    EmptyJournal(plan);
    assert Dirs([], None) == {};
  }

  // Writes one content to its private file and checks what was written.
  method StageOne(disk: Disk, plan: Plan, i: nat, ghost t0: Tree) returns (ok: bool)
    requires GoodStart(plan, t0) && Preparing(plan, t0, disk.tree) && Active(disk.tree) && i < |plan| && plan[i].Writes()
    modifies disk
    ensures old(disk.Whole()) ==> disk.Whole()
    ensures old(disk.log) <= disk.log && disk.Kept(plan, old(disk.moments))
    ensures Preparing(plan, t0, disk.tree) && Active(disk.tree)
    ensures forall j: nat :: j != i ==> SameAt(old(disk.tree), disk.tree, Staged(j))
    ensures ok ==> Holds(disk.tree, Staged(i), plan[i].final)
    ensures old(disk.FaultFree()) ==> ok
  {
    hide Disk.Whole, GoodStart, Recoverable, Preparing;
    WritesFinal(plan, t0, i);
    ok := disk.Check();
    if !ok { return; }
    ghost var t := disk.tree;
    PreparingDirectory(plan, t0, t);
    ok := disk.WritePrivate(StagedOf(i), File(plan[i].final.value));
    PrivateWritten(plan, t0, t, disk.tree, StagedOf(i));
    PreparingRecoverable(plan, t0, disk.tree);
    if !ok { return; }
    var seen := disk.ReadPrivate(Staged(i));
    ok := seen == Read(plan[i].final);
  }

  /** Writes every content to its private file and checks what was written. */
  method StageWrites(disk: Disk, plan: Plan, ghost t0: Tree) returns (ok: bool)
    requires GoodStart(plan, t0) && Preparing(plan, t0, disk.tree) && Active(disk.tree)
    modifies disk
    ensures old(disk.Whole()) ==> disk.Whole()
    ensures old(disk.log) <= disk.log && disk.Kept(plan, old(disk.moments))
    ensures Preparing(plan, t0, disk.tree) && Active(disk.tree)
    ensures ok ==> StagedFrom(plan, disk.tree, 0)
    ensures old(disk.FaultFree()) ==> ok
  {
    hide Disk.Whole, GoodStart, Recoverable, Preparing;
    ok := true;
    for i := 0 to |plan|
      invariant old(disk.log) <= disk.log && disk.Kept(plan, old(disk.moments))
      invariant old(disk.Whole()) ==> disk.Whole()
      invariant Preparing(plan, t0, disk.tree) && Active(disk.tree)
      invariant forall j :: 0 <= j < i && plan[j].Writes() ==> Holds(disk.tree, Staged(j), plan[j].final)
    {
      if plan[i].Writes() {
        ghost var t := disk.tree;
        ok := StageOne(disk, plan, i, t0);
        if !ok { return; }
        forall j | 0 <= j < i && plan[j].Writes() ensures Holds(disk.tree, Staged(j), plan[j].final) {
          assert SameAt(t, disk.tree, Staged(j));
        }
      }
    }
  }

  lemma WritesFinal(plan: Plan, t0: Tree, i: nat)
    requires GoodStart(plan, t0) && i < |plan| && plan[i].Writes()
    ensures plan[i].final.Some?
  {
    hide Closed, AllBefore;
    ChangeValid(plan, i);
  }

  /** Gives up a transaction that has not touched any target. */
  method Discard(disk: Disk, plan: Plan, ghost t0: Tree) returns (ok: bool)
    requires GoodStart(plan, t0) && Preparing(plan, t0, disk.tree)
    modifies disk
    ensures old(disk.Whole()) ==> disk.Whole()
    ensures old(disk.log) <= disk.log && disk.Kept(plan, old(disk.moments))
    ensures Preparing(plan, t0, disk.tree)
    ensures ok ==> !Active(disk.tree)
    ensures old(disk.FaultFree()) ==> ok
  {
    hide GoodStart, Recoverable;
    ok := disk.RemoveAll(false);
    PreparingRecoverable(plan, t0, disk.tree);
    if ok {
      ok := disk.Sync(Public([]));
    }
  }

  /** Seals the transaction: the recovery record is written and synced before anything public moves. */
  method Prepare(disk: Disk, plan: Plan, ghost t0: Tree) returns (ok: bool)
    requires GoodStart(plan, t0) && Preparing(plan, t0, disk.tree) && Active(disk.tree) && StagedFrom(plan, disk.tree, 0)
    modifies disk
    ensures old(disk.Whole()) ==> disk.Whole()
    ensures old(disk.log) <= disk.log && disk.Kept(plan, old(disk.moments))
    ensures Preparing(plan, t0, disk.tree) && Active(disk.tree) && StagedFrom(plan, disk.tree, 0)
    ensures ok ==> Sealed(disk.tree)
    ensures old(disk.FaultFree()) ==> ok
  {
    hide GoodStart, Recoverable;
    ghost var t := disk.tree;
    ok := disk.WritePrivate(Record, RecoveryRecord(true));
    PrivateWritten(plan, t0, t, disk.tree, Record);
    PreparingRecoverable(plan, t0, disk.tree);
    if !ok { return; }
    ok := disk.Sync(Private(false, Directory));
    if !ok { return; }
    ok := disk.Sync(Public([]));
  }

  // ---- after the commit ------------------------------------------------------------------

  lemma FinalizedPublic(t: Tree)
    ensures PublicPart(Finalized(t)) == PublicPart(t) && !Active(Finalized(t))
  {
    forall p: Path | p.Public? && p in t ensures p in Finalized(t) && Finalized(t)[p] == t[p] {
      assert Finish(p) == p;
    }
  }

  /** Closes a committed transaction. The targets are final throughout; only private debris may stay. */
  method Finalize(disk: Disk, plan: Plan) returns (ok: bool)
    requires AllFinal(plan, disk.tree) && Recoverable(plan, disk.tree) && IsDir(disk.tree, Private(false, Directory))
    modifies disk
    ensures old(disk.Whole()) ==> disk.Whole()
    ensures old(disk.log) <= disk.log && disk.Kept(plan, old(disk.moments))
    ensures AllFinal(plan, disk.tree) && Recoverable(plan, disk.tree)
    ensures PublicPart(disk.tree) == PublicPart(old(disk.tree))
    ensures ok ==> !Active(disk.tree)
    ensures old(disk.FaultFree()) ==> ok
  {
    hide AllFinal, AllBefore, Safe, ParentsPresent, Finalized;
    ghost var t := disk.tree;
    FinalizedPublic(t);
    PublicSame(t, Finalized(t));
    assert SameAt(t, Finalized(t), Public([]));
    PublicKeepsStates(plan, t, Finalized(t));
    ok := disk.FinalizeRename();
    if !ok { return; }
    ghost var u := disk.tree;
    ok := disk.Sync(Public([]));
    if !ok { return; }
    ok := disk.RemoveAll(true);
    PublicSame(u, disk.tree);
    assert SameAt(u, disk.tree, Public([]));
    PublicKeepsStates(plan, u, disk.tree);
    if !ok { return; }
    ok := disk.Sync(Public([]));
  }

  // ---- apply -----------------------------------------------------------------------------

  lemma StartIsGood(plan: Plan, t0: Tree)
    requires ValidPlan(plan) && Closed(t0) && AllBefore(plan, t0) && !Active(t0)
    ensures GoodStart(plan, t0) && Preparing(plan, t0, t0) && IsDir(t0, Public([]))
  {
    hide ValidPlan, AllBefore;
    forall i: nat ensures Backup(i) !in t0 {
      assert Parent(Backup(i)) == Private(false, Directory);
    }
  }

  // Creates the transaction directory.
  method OpenTransaction(disk: Disk, plan: Plan, ghost t0: Tree) returns (ok: bool)
    requires GoodStart(plan, t0) && Preparing(plan, t0, disk.tree) && !Active(disk.tree) && IsDir(disk.tree, Public([]))
    modifies disk
    ensures old(disk.Whole()) ==> disk.Whole()
    ensures old(disk.log) <= disk.log && disk.Kept(plan, old(disk.moments))
    ensures Preparing(plan, t0, disk.tree) && (ok ==> Active(disk.tree))
    ensures old(disk.FaultFree()) ==> ok
  {
    hide GoodStart, Recoverable;
    ghost var t := disk.tree;
    ok := disk.Mkdir(Private(false, Directory));
    if ok {
      PublicEqual(disk.tree, t);
      PreparingRecoverable(plan, t0, disk.tree);
    }
  }

  // The second classification and the seal.
  method Seal(disk: Disk, plan: Plan, ghost t0: Tree) returns (ok: bool, replayed: bool)
    requires GoodStart(plan, t0) && Preparing(plan, t0, disk.tree) && Active(disk.tree) && StagedFrom(plan, disk.tree, 0)
    modifies disk
    ensures old(disk.Whole()) ==> disk.Whole()
    ensures old(disk.log) <= disk.log && disk.Kept(plan, old(disk.moments))
    ensures Preparing(plan, t0, disk.tree)
    ensures ok ==> Active(disk.tree) && Sealed(disk.tree) && StagedFrom(plan, disk.tree, 0)
    ensures replayed ==> !ok && AllFinal(plan, t0)
    ensures old(disk.FaultFree()) && !AllFinal(plan, t0) ==> ok
  {
    hide Disk.Whole, GoodStart, Recoverable, AllBefore, AllFinal, StagedFrom, Preparing, Sealed, Active;
    PreparingRecoverable(plan, t0, disk.tree);
    var state := Classify(disk, plan);
    ok, replayed := state == StateBefore, state == StateFinal;
    if !ok { return; }
    ok := disk.Check();
    if !ok { return; }
    ok := Prepare(disk, plan, t0);
    if !ok { return; }
    ok := disk.Check();
  }

  /** Everything up to the seal. The public tree does not change here. */
  method Stage(disk: Disk, plan: Plan, ghost t0: Tree) returns (ok: bool, replayed: bool, clean: bool)
    requires GoodStart(plan, t0) && Preparing(plan, t0, disk.tree) && !Active(disk.tree)
    modifies disk
    ensures old(disk.Whole()) ==> disk.Whole()
    ensures old(disk.log) <= disk.log && disk.Kept(plan, old(disk.moments))
    ensures Preparing(plan, t0, disk.tree)
    ensures ok ==> Active(disk.tree) && Sealed(disk.tree) && StagedFrom(plan, disk.tree, 0)
    ensures replayed ==> !ok && AllFinal(plan, t0)
    ensures replayed && clean ==> !Active(disk.tree)
    ensures old(disk.FaultFree()) && !AllFinal(plan, t0) ==> ok
  {
    hide Disk.Whole, GoodStart, Recoverable, AllBefore, AllFinal, StagedFrom, Preparing, Sealed, Active;
    replayed, clean := false, false;
    PreparingRecoverable(plan, t0, disk.tree);
    ok := OpenTransaction(disk, plan, t0);
    if !ok { return; }
    ok := StageWrites(disk, plan, t0);
    if ok { ok, replayed := Seal(disk, plan, t0); }
    if !ok { clean := Discard(disk, plan, t0); }
  }

  lemma UndoableRecoverable(plan: Plan, g: Progress, t: Tree, journal: seq<JournalEntry>, created: seq<Path>)
    requires Undoable(plan, g, t, journal, created)
    ensures Recoverable(plan, t) && IsDir(t, Public([])) && Active(t) && IsDir(t, Private(false, Directory))
  {
    hide Shape, GoodStart, JournalOk, OutsideIn, LeakOk, DirsClosed, Recoverable;
    ShapeRecoverable(plan, g.t0, t, g.stages, Dirs(created, g.leaked));
    ShapeSealed(plan, g.t0, t, g.stages, Dirs(created, g.leaked));
  }

  /** Applies a plan to a workspace without an active transaction.
      A disposition means every target is final. Every moment on the way can be recovered from. A
      failed commit keeps the sealed transaction unless every target is back; when its rollback meets
      no further fault every target is back, and the whole public tree is back exactly when the commit
      did not fail on the sync right after it made a directory. That is read off the log of
      operations: `failedAt` counts those up to and with the one that failed the commit, so it is one
      past the last fault when the rollback has none. Without any fault the plan commits; applied to
      its own final state it changes nothing. */
  method Apply(disk: Disk, plan: Plan)
    returns (disposition: Disposition, err: bool, ghost failedAt: Option<nat>)
    requires ValidPlan(plan) && Closed(disk.tree) && !Active(disk.tree)
    modifies disk
    ensures old(disk.Whole()) ==> disk.Whole()
    ensures old(disk.log) <= disk.log && disk.Kept(plan, old(disk.moments))
    ensures disposition != Nothing ==> AllFinal(plan, disk.tree)
    ensures disposition == Nothing ==> err
    ensures disposition == Nothing && failedAt.None? ==> PublicPart(disk.tree) == PublicPart(old(disk.tree))
    ensures failedAt.Some? ==> disposition == Nothing && AllBefore(plan, old(disk.tree))
    ensures failedAt.Some? ==> Recoverable(plan, disk.tree)
    ensures failedAt.Some? && !AllBefore(plan, disk.tree) ==> Active(disk.tree) && Sealed(disk.tree)
    ensures failedAt.Some? ==> |old(disk.log)| < failedAt.value <= |disk.log| && disk.faults(failedAt.value - 1)
    ensures failedAt.Some? && (forall k :: k >= failedAt.value ==> !disk.faults(k)) ==>
              && AllBefore(plan, disk.tree)
              && (PublicPart(disk.tree) == PublicPart(old(disk.tree)) <==> UnsyncedDir(disk.log[..failedAt.value]).None?)
    ensures disposition == Replayed ==> PublicPart(disk.tree) == PublicPart(old(disk.tree))
    ensures AllFinal(plan, old(disk.tree)) && !AllBefore(plan, old(disk.tree)) ==>
              disk.tree == old(disk.tree) && disk.moments == old(disk.moments) && disposition != Committed
    ensures old(disk.FaultFree()) && AllFinal(plan, old(disk.tree)) ==>
              disposition == Replayed && !err && disk.tree == old(disk.tree)
    ensures old(disk.FaultFree()) && AllBefore(plan, old(disk.tree)) && !AllFinal(plan, old(disk.tree)) ==>
              disposition == Committed && !err && !Active(disk.tree)
  {
    hide Disk.Whole, Recoverable, AllBefore, AllFinal, ValidPlan, Closed, Undoable, StagedFrom, AtChange, Preparing, GoodStart;
    disposition, err, failedAt := Nothing, true, None;
    ghost var t0 := disk.tree;
    var state := Classify(disk, plan);
    if state == StateFinal { return Replayed, false, None; }
    if state != StateBefore { return; }
    StartIsGood(plan, t0);
    var ok, replayed, clean := Stage(disk, plan, t0);
    PreparingRecoverable(plan, t0, disk.tree);
    assert PublicPart(disk.tree) == PublicPart(t0) by { SamePublic(plan, t0, disk.tree); }
    if replayed { return Replayed, !clean, None; }
    if !ok { return; }
    StartCommit(plan, t0, disk.tree);
    ghost var g := Progress(t0, seq(|plan|, _ => Before), None);
    var journal, created;
    ok, journal, created, g := CommitAll(disk, plan, g);
    UndoableRecoverable(plan, g, disk.tree, journal, created);
    if ok {
      var closed := Finalize(disk, plan);
      return Committed, !closed, None;
    }
    failedAt := Some(|disk.log|);
    var _ := FailCommit(disk, plan, journal, created, g);
  }

  lemma SamePublic(plan: Plan, t0: Tree, t: Tree)
    requires Preparing(plan, t0, t)
    ensures PublicPart(t) == PublicPart(t0)
  {
  }

  /** A failed commit is rolled back. */
  method FailCommit(disk: Disk, plan: Plan, journal: seq<JournalEntry>, created: seq<Path>, ghost g: Progress)
    returns (restored: bool)
    requires Undoable(plan, g, disk.tree, journal, created)
    modifies disk
    ensures old(disk.Whole()) ==> disk.Whole()
    ensures old(disk.log) <= disk.log && disk.Kept(plan, old(disk.moments)) && Recoverable(plan, disk.tree)
    ensures !AllBefore(plan, disk.tree) ==> Active(disk.tree) && Sealed(disk.tree)
    ensures restored ==> AllBefore(plan, disk.tree) && !Active(disk.tree)
    ensures old(disk.FaultFree()) ==>
              AllBefore(plan, disk.tree) && (PublicPart(disk.tree) == PublicPart(g.t0) <==> g.leaked.None?)
    ensures old(disk.FaultFree()) ==> (restored <==> (g.leaked.None? || Parent(g.leaked.value) !in created))
  {
    hide Recoverable, AllBefore, GoodStart, Shape, JournalOk, OutsideIn, LeakOk, DirsClosed;
    restored := Rollback(disk, plan, journal, created, g.leaked, g.t0, g.stages, Dirs(created, g.leaked));
  }

  // ---- a directory that is left behind ---------------------------------------------------

  const LEAKY: Plan := [Change(["d", "f"], Create, None, Some(Content([], 0)))]
  const EMPTY_ROOT: Tree := map[Public([]) := Dir]
  // The sealed transaction of that plan.
  const LEAKY_SEALED: Tree := map[Public([]) := Dir, Private(false, Directory) := Dir,
                                  Private(false, Record) := RecoveryRecord(true),
                                  Staged(0) := File(Content([], 0))]

  lemma LeakyStart()
    ensures GoodStart(LEAKY, EMPTY_ROOT) && Preparing(LEAKY, EMPTY_ROOT, LEAKY_SEALED)
    ensures Active(LEAKY_SEALED) && Sealed(LEAKY_SEALED) && StagedFrom(LEAKY, LEAKY_SEALED, 0)
    ensures FirstMissing(LEAKY_SEALED, LEAKY[0].path, 1) && LEAKY[0].path[..1] == ["d"]
  {
    PublicEqual(LEAKY_SEALED, EMPTY_ROOT);
    assert LEAKY[0].path[..0] == [];
    assert !Blocked(EMPTY_ROOT, LEAKY[0].path);
  }

  lemma RootNotCreated(plan: Plan, g: Progress, t: Tree, journal: seq<JournalEntry>, created: seq<Path>)
    requires Undoable(plan, g, t, journal, created)
    ensures Public([]) !in created
  {
    hide SlotIs, IsTarget, ValidPlan, AllBefore, JournalOk;
    assert Public([]) !in Dirs(created, g.leaked);
  }

  /** One failing sync is enough: the commit of one new file below a missing directory, with the fifth
      operation made to fail and no other, leaves the directory behind, and its rollback reports success. */
  method LeakedDirectory() returns (disk: Disk, committed: bool, restored: bool)
    ensures forall k :: disk.faults(k) <==> k == 4
    ensures !committed && restored && AllBefore(LEAKY, disk.tree) && !Active(disk.tree)
    ensures PublicPart(disk.tree) != EMPTY_ROOT
  {
    hide Undoable, AtChange, StagedFrom, Preparing, GoodStart, AllBefore, Recoverable;
    disk := new Disk(LEAKY_SEALED, k => k == 4);
    LeakyStart();
    StartCommit(LEAKY, EMPTY_ROOT, LEAKY_SEALED);
    ghost var g := Progress(EMPTY_ROOT, seq(|LEAKY|, _ => Before), None);
    var journal, created;
    committed, journal, created, g := CommitAll(disk, LEAKY, g);
    assert FailsAfter(disk.faults, 0, 3);
    RootNotCreated(LEAKY, g, disk.tree, journal, created);
    restored := FailCommit(disk, LEAKY, journal, created, g);
    assert PublicPart(EMPTY_ROOT) == EMPTY_ROOT;
  }
}
