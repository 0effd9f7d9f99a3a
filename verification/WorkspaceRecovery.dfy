/** Crash recovery: the process may stop in any moment of an apply; a later call with the same plan
    finishes or undoes the interrupted transaction. */
module WorkspaceRecovery {
  import opened Options
  import opened WorkspaceModel
  import opened WorkspaceDisk
  import opened WorkspaceRollback
  import opened WorkspaceCommit
  import opened WorkspaceApply

  // A sealed transaction as an interrupted apply leaves it.
  ghost predicate Interrupted(plan: Plan, t: Tree) {
    ValidPlan(plan) && Active(t) && Sealed(t) && Recoverable(plan, t)
  }

  lemma InterruptedAt(plan: Plan, t: Tree, i: nat)
    requires Interrupted(plan, t) && i < |plan|
    ensures plan[i].Valid() && SlotSafe(plan[i], t, i) && !Blocked(t, plan[i].path) && IsDir(t, Private(false, Directory))
    ensures plan[i].before.Some? ==> IsDir(t, Parent(Target(plan[i])))
    ensures Parent(Target(plan[i])) != Target(plan[i])
  {
    ChangeValid(plan, i);
  }

  lemma OthersSafe(plan: Plan, t: Tree, u: Tree, i: nat, j: nat)
    requires ValidPlan(plan) && i < |plan| && j < |plan| && i != j && DiffersAt(plan[i], i, t, u)
    ensures SlotSafe(plan[j], t, j) ==> SlotSafe(plan[j], u, j)
    ensures Capture(t, plan[j].path) == Capture(u, plan[j].path)
    ensures Blocked(t, plan[j].path) <==> Blocked(u, plan[j].path)
    ensures IsDir(t, Parent(Target(plan[j]))) <==> IsDir(u, Parent(Target(plan[j])))
  {
    ChangeValid(plan, j);
    AncestorIsNoTarget(plan, j, |plan[j].path| - 1);
    assert IsTarget(plan, Target(plan[i]));
    forall k | 0 < k < |plan[j].path| ensures SameAt(t, u, Public(plan[j].path[..k])) {
      AncestorIsNoTarget(plan, j, k);
    }
    hide ValidPlan;
    assert SameAt(t, u, Target(plan[j])) by { TargetsDiffer(plan, i, j); }
    if SlotIs(plan[j], t, j, Before) { assert SlotIs(plan[j], u, j, Before); }
    if SlotIs(plan[j], t, j, Moved) { assert SlotIs(plan[j], u, j, Moved); }
    if SlotIs(plan[j], t, j, Installed) { assert SlotIs(plan[j], u, j, Installed); }
  }

  lemma TargetsDiffer(plan: Plan, i: nat, j: nat)
    requires ValidPlan(plan) && i < |plan| && j < |plan| && i != j
    ensures Target(plan[i]) != Target(plan[j])
  {
    assert !(plan[i].path <= plan[j].path);
  }

  lemma OwnAncestors(plan: Plan, t: Tree, u: Tree, i: nat)
    requires ValidPlan(plan) && i < |plan| && DiffersAt(plan[i], i, t, u)
    ensures Blocked(t, plan[i].path) <==> Blocked(u, plan[i].path)
    ensures IsDir(t, Parent(Target(plan[i]))) <==> IsDir(u, Parent(Target(plan[i])))
  {
    ChangeValid(plan, i);
    AncestorIsNoTarget(plan, i, |plan[i].path| - 1);
    assert IsTarget(plan, Target(plan[i]));
    forall k | 0 < k < |plan[i].path| ensures SameAt(t, u, Public(plan[i].path[..k])) {
      AncestorIsNoTarget(plan, i, k);
    }
  }

  // One target moved to another known state: still an interrupted transaction of this plan.
  lemma InterruptedMove(plan: Plan, t: Tree, u: Tree, i: nat, stage: Stage)
    requires Interrupted(plan, t) && i < |plan| && DiffersAt(plan[i], i, t, u) && SlotIs(plan[i], u, i, stage)
    ensures Interrupted(plan, u)
    ensures forall j :: 0 <= j < |plan| && j != i ==> Capture(t, plan[j].path) == Capture(u, plan[j].path)
  {
    hide SlotIs, SlotSafe, ValidPlan, DiffersAt, Blocked, Capture, AllBefore, AllFinal;
    assert SlotSafe(plan[i], u, i) by { StageSafe(plan[i], u, i, stage); }
    OwnAncestors(plan, t, u, i);
    forall j | 0 <= j < |plan| && j != i ensures SlotSafe(plan[j], u, j) && !Blocked(u, plan[j].path)
      ensures Capture(t, plan[j].path) == Capture(u, plan[j].path)
      ensures plan[j].before.Some? ==> IsDir(u, Parent(Target(plan[j])))
    {
      InterruptedAt(plan, t, j);
      OthersSafe(plan, t, u, i, j);
    }
    InterruptedAt(plan, t, i);
    PrivateSame(plan[i], i, t, u);
    assert SameAt(t, u, Public([])) by { ChangeValid(plan, i); RootSame(plan[i], i, t, u); }
  }

  lemma RootSame(c: Change, i: nat, t: Tree, u: Tree)
    requires c.Valid() && DiffersAt(c, i, t, u)
    ensures SameAt(t, u, Public([]))
  {
  }

  lemma PrivateSame(c: Change, i: nat, t: Tree, u: Tree)
    requires DiffersAt(c, i, t, u)
    ensures Active(t) <==> Active(u)
    ensures Sealed(t) <==> Sealed(u)
    ensures IsDir(t, Private(false, Directory)) <==> IsDir(u, Private(false, Directory))
  {
  }

  lemma DropInstalled(plan: Plan, t: Tree, i: nat)
    requires Interrupted(plan, t) && i < |plan| && SlotIs(plan[i], t, i, Installed)
    ensures RemovePossible(t, Target(plan[i])) && Target(plan[i]) in t
    ensures var u := t - {Target(plan[i])};
            && Interrupted(plan, u) && Recoverable(plan, u) && IsDir(u, Parent(Target(plan[i])))
            && SlotIs(plan[i], u, i, if plan[i].op.Update? then Moved else Before)
            && forall j :: 0 <= j < |plan| && j != i ==> Capture(t, plan[j].path) == Capture(u, plan[j].path)
  {
    hide Interrupted, Recoverable, Capture;
    InterruptedAt(plan, t, i);
    InterruptedMove(plan, t, t - {Target(plan[i])}, i, if plan[i].op.Update? then Moved else Before);
    InterruptedRecoverable(plan, t - {Target(plan[i])});
  }

  lemma InterruptedRecoverable(plan: Plan, t: Tree)
    requires Interrupted(plan, t)
    ensures Recoverable(plan, t) && Active(t) && Sealed(t) && ValidPlan(plan)
  {
  }

  lemma PutBack(plan: Plan, t: Tree, i: nat)
    requires Interrupted(plan, t) && i < |plan| && SlotIs(plan[i], t, i, Moved)
    ensures RenamePossible(t, Backup(i), Target(plan[i]))
    ensures var u := Renamed(t, Backup(i), Target(plan[i]));
            && Interrupted(plan, u) && Recoverable(plan, u) && IsDir(u, Parent(Target(plan[i]))) && IsDir(u, Parent(Backup(i)))
            && SlotIs(plan[i], u, i, Before)
            && forall j :: 0 <= j < |plan| && j != i ==> Capture(t, plan[j].path) == Capture(u, plan[j].path)
  {
    hide Interrupted, Recoverable, Capture;
    InterruptedAt(plan, t, i);
    InterruptedMove(plan, t, Renamed(t, Backup(i), Target(plan[i])), i, Before);
    InterruptedRecoverable(plan, Renamed(t, Backup(i), Target(plan[i])));
  }

  /** Brings one target back to its state before the plan. */
  method RecoverTarget(disk: Disk, plan: Plan, i: nat) returns (ok: bool)
    requires Interrupted(plan, disk.tree) && i < |plan|
    modifies disk
    ensures old(disk.Whole()) ==> disk.Whole()
    ensures old(disk.log) <= disk.log && disk.Kept(plan, old(disk.moments))
    ensures Interrupted(plan, disk.tree)
    ensures forall j :: 0 <= j < |plan| && j != i ==> Capture(disk.tree, plan[j].path) == Capture(old(disk.tree), plan[j].path)
    ensures ok ==> Capture(disk.tree, plan[i].path) == Read(plan[i].before)
    ensures old(disk.FaultFree()) ==> ok
  {
    hide Disk.Whole, Interrupted, Recoverable, SlotIs, Capture, Blocked, RemovePossible, RenamePossible;
    InterruptedAt(plan, disk.tree, i);
    TargetReads(plan[i], i, disk.tree);
    SafeSlot(plan[i], i, disk.tree);
    ok := disk.Check();
    if !ok { return; }
    var file := disk.CaptureFile(plan[i].path);
    if file.Unreadable? { return false; }
    if file == Read(plan[i].before) { return true; }
    if plan[i].before.Some? {
      BackupHeld(plan[i], i, disk.tree);
      var backup := disk.ReadPrivate(Backup(i));
      if backup != Read(plan[i].before) { return false; }
      if file.file.Some? {
        ok := DropTarget(disk, plan, i);
        if !ok { return; }
      }
      ok := RestoreTarget(disk, plan, i);
      if !ok { return; }
    } else if file.file.Some? {
      ok := DropTarget(disk, plan, i);
      if !ok { return; }
    }
    InterruptedAt(plan, disk.tree, i);
    TargetReads(plan[i], i, disk.tree);
    file := disk.CaptureFile(plan[i].path);
    ok := file == Read(plan[i].before);
  }

  method RestoreTarget(disk: Disk, plan: Plan, i: nat) returns (ok: bool)
    requires Interrupted(plan, disk.tree) && i < |plan| && SlotIs(plan[i], disk.tree, i, Moved)
    modifies disk
    ensures old(disk.Whole()) ==> disk.Whole()
    ensures old(disk.log) <= disk.log && disk.Kept(plan, old(disk.moments))
    ensures Interrupted(plan, disk.tree)
    ensures forall j :: 0 <= j < |plan| && j != i ==> Capture(disk.tree, plan[j].path) == Capture(old(disk.tree), plan[j].path)
    ensures ok ==> SlotIs(plan[i], disk.tree, i, Before)
    ensures old(disk.FaultFree()) ==> ok
  {
    hide Disk.Whole, Interrupted, Recoverable, SlotIs, Capture, Blocked, RenamePossible, Renamed;
    PutBack(plan, disk.tree, i);
    ok := disk.Rename(Backup(i), Target(plan[i]));
    if !ok { return; }
    ok := disk.SyncRename(Backup(i), Target(plan[i]));
  }

  method DropTarget(disk: Disk, plan: Plan, i: nat) returns (ok: bool)
    requires Interrupted(plan, disk.tree) && i < |plan| && SlotIs(plan[i], disk.tree, i, Installed)
    modifies disk
    ensures old(disk.Whole()) ==> disk.Whole()
    ensures old(disk.log) <= disk.log && disk.Kept(plan, old(disk.moments))
    ensures Interrupted(plan, disk.tree)
    ensures forall j :: 0 <= j < |plan| && j != i ==> Capture(disk.tree, plan[j].path) == Capture(old(disk.tree), plan[j].path)
    ensures ok ==> SlotIs(plan[i], disk.tree, i, if plan[i].op.Update? then Moved else Before)
    ensures old(disk.FaultFree()) ==> ok
  {
    hide Interrupted, Recoverable, SlotIs, Capture, Blocked, RemovePossible;
    DropInstalled(plan, disk.tree, i);
    var r := disk.Remove(Target(plan[i]));
    if !r.Gone? { return false; }
    ok := disk.Sync(Parent(Target(plan[i])));
  }

  // What a readable target says about its slot.
  lemma SafeSlot(c: Change, i: nat, t: Tree)
    requires c.Valid() && SlotSafe(c, t, i) && !Blocked(t, c.path)
    ensures !Capture(t, c.path).Unreadable?
    ensures Capture(t, c.path) != Read(c.before) ==>
              if Capture(t, c.path).file.Some? then SlotIs(c, t, i, Installed) && (c.before.Some? ==> c.op.Update?) && (c.before.None? ==> c.op.Create?)
              else SlotIs(c, t, i, Moved) && c.before.Some?
  {
  }

  lemma BackupHeld(c: Change, i: nat, t: Tree)
    requires c.Valid() && c.before.Some? && (SlotIs(c, t, i, Installed) || SlotIs(c, t, i, Moved))
    ensures Backup(i) in t && t[Backup(i)] == File(c.before.value)
  {
  }

  /** First proves every target recognizable; nothing is changed here. */
  method InspectTargets(disk: Disk, plan: Plan) returns (ok: bool)
    requires Interrupted(plan, disk.tree)
    modifies disk`log
    ensures old(disk.log) <= disk.log
    ensures old(disk.FaultFree()) ==> ok
  {
    hide Interrupted, Recoverable, SlotIs, Capture, Blocked;
    ok := true;
    for i := 0 to |plan|
      invariant old(disk.log) <= disk.log && disk.tree == old(disk.tree)
    {
      InterruptedAt(plan, disk.tree, i);
      SafeSlot(plan[i], i, disk.tree);
      TargetReads(plan[i], i, disk.tree);
      ok := disk.Check();
      if !ok { return; }
      var file := disk.CaptureFile(plan[i].path);
      if file.Unreadable? { return false; }
      if plan[i].before.Some? {
        if file != Read(plan[i].before) {
          if file != Read(plan[i].final) && file.file.Some? { return false; }
          BackupHeld(plan[i], i, disk.tree);
          var backup := disk.ReadPrivate(Backup(i));
          if backup != Read(plan[i].before) { return false; }
        }
      } else {
        if file != Read(plan[i].before) && file != Read(plan[i].final) { return false; }
        NoBackup(plan[i], i, disk.tree);
        var backup := disk.ReadPrivate(Backup(i));
        if backup != Read(None) { return false; }
      }
    }
    ok := disk.Check();
  }

  lemma NoBackup(c: Change, i: nat, t: Tree)
    requires c.Valid() && c.before.None? && SlotSafe(c, t, i)
    ensures Backup(i) !in t
  {
  }

  lemma ShrunkSlot(c: Change, i: nat, t: Tree, u: Tree)
    requires c.Valid() && SlotSafe(c, t, i) && Capture(t, c.path) == Read(c.before)
    requires SameAt(t, u, Target(c)) && SameAt(t, u, Parent(Target(c))) && (Backup(i) in u ==> Backup(i) in t && u[Backup(i)] == t[Backup(i)])
    ensures SlotSafe(c, u, i)
  {
    if SlotIs(c, t, i, Before) {
      assert SlotIs(c, u, i, Before);
    } else if Backup(i) in u {
      assert SlotIs(c, u, i, Installed);
    } else {
      assert SlotIs(c, u, i, Before);
    }
  }

  // Deleting any part of a transaction whose targets are all back loses nothing.
  lemma ShrunkRecoverable(plan: Plan, t: Tree, u: Tree)
    requires ValidPlan(plan) && Recoverable(plan, t) && AllBefore(plan, t) && PublicPart(u) == PublicPart(t)
    requires forall p :: p in u ==> p in t && u[p] == t[p]
    ensures Recoverable(plan, u) && AllBefore(plan, u)
  {
    hide ValidPlan, SlotIs, SlotSafe;
    PublicKeepsStates(plan, t, u);
    PublicSame(t, u);
    assert SameAt(t, u, Public([]));
    if Active(u) && Sealed(u) {
      forall i | 0 <= i < |plan| ensures SlotSafe(plan[i], u, i) && !Blocked(u, plan[i].path) {
        ChangeValid(plan, i);
        assert SameAt(t, u, Target(plan[i])) && SameAt(t, u, Parent(Target(plan[i])));
        ShrunkSlot(plan[i], i, t, u);
        assert Capture(u, plan[i].path) == Read(plan[i].before);
      }
    }
  }

  /** Undoes an interrupted commit, last change first. */
  method RollbackPrepared(disk: Disk, plan: Plan) returns (ok: bool)
    requires Interrupted(plan, disk.tree)
    modifies disk
    ensures old(disk.Whole()) ==> disk.Whole()
    ensures old(disk.log) <= disk.log && disk.Kept(plan, old(disk.moments))
    ensures Recoverable(plan, disk.tree)
    ensures ok ==> AllBefore(plan, disk.tree) && !Active(disk.tree)
    ensures old(disk.FaultFree()) ==> ok
  {
    hide Disk.Whole, Interrupted, Recoverable, AllFinal, Capture;
    InterruptedRecoverable(plan, disk.tree);
    ok := InspectTargets(disk, plan);
    if !ok { return; }
    var k := |plan|;
    while k > 0
      invariant 0 <= k <= |plan| && Interrupted(plan, disk.tree)
      invariant old(disk.log) <= disk.log && disk.Kept(plan, old(disk.moments))
      invariant old(disk.Whole()) ==> disk.Whole()
      invariant forall j :: k <= j < |plan| ==> Capture(disk.tree, plan[j].path) == Read(plan[j].before)
    {
      k := k - 1;
      ok := RecoverTarget(disk, plan, k);
      InterruptedRecoverable(plan, disk.tree);
      if !ok { return; }
    }
    InterruptedRecoverable(plan, disk.tree);
    assert AllBefore(plan, disk.tree);
    ok := VerifyBefore(disk, plan, true);
    if !ok { return; }
    ok := CleanUp(disk, plan);
  }

  lemma RecoverableRoot(plan: Plan, t: Tree)
    requires Recoverable(plan, t)
    ensures IsDir(t, Public([]))
  {
  }

  method CleanUp(disk: Disk, plan: Plan) returns (ok: bool)
    requires ValidPlan(plan) && Recoverable(plan, disk.tree) && AllBefore(plan, disk.tree)
    modifies disk
    ensures old(disk.Whole()) ==> disk.Whole()
    ensures old(disk.log) <= disk.log && disk.Kept(plan, old(disk.moments))
    ensures Recoverable(plan, disk.tree) && AllBefore(plan, disk.tree)
    ensures ok ==> !Active(disk.tree)
    ensures old(disk.FaultFree()) ==> ok
  {
    hide ValidPlan, Recoverable, AllBefore;
    ghost var t := disk.tree;
    ok := disk.RemoveAll(false);
    ShrunkRecoverable(plan, t, disk.tree);
    if ok {
      assert IsDir(disk.tree, Public([])) by { RecoverableRoot(plan, disk.tree); }
      ok := disk.Sync(Public([]));
    }
  }

  // Whether recovery can finish what an interrupted apply of the plan left.
  ghost predicate Recovers(plan: Plan, t: Tree) {
    Active(t) && !Sealed(t) ==> !Torn(t) && !AllFinal(plan, t)
  }

  /** Recovery at the start of the next apply of the same plan. From any recoverable moment it keeps
      every original, and success leaves a complete target set, all as before or all final, and no
      transaction. Without further faults it fails exactly for a torn record, and for a transaction
      without one when the plan changes nothing; a torn record is left as it is. */
  method Recover(disk: Disk, plan: Plan) returns (ok: bool)
    requires ValidPlan(plan) && Recoverable(plan, disk.tree)
    modifies disk
    ensures old(disk.Whole()) ==> disk.Whole()
    ensures old(disk.log) <= disk.log && disk.Kept(plan, old(disk.moments)) && Recoverable(plan, disk.tree)
    ensures ok ==> !Active(disk.tree) && (AllBefore(plan, disk.tree) || AllFinal(plan, disk.tree))
    ensures old(disk.FaultFree()) ==> (ok <==> Recovers(plan, old(disk.tree)))
    ensures Active(old(disk.tree)) && Torn(old(disk.tree)) ==> disk.tree == old(disk.tree) && AllBefore(plan, disk.tree)
  {
    if !Active(disk.tree) {
      return true;
    }
    if Torn(disk.tree) {
      return false;
    }
    hide ValidPlan, AllBefore, AllFinal, Safe, ParentsPresent;
    var sealed := Sealed(disk.tree);
    var state := Classify(disk, plan);
    if !sealed {
      UnsealedBefore(plan, disk.tree);
      if state == StateBefore {
        ok := CleanUp(disk, plan);
      } else {
        ok := false;
      }
      return;
    }
    match state {
      case StateBefore => ok := CleanUp(disk, plan);
      case StateFinal => ok := Finalize(disk, plan);
      case StateUnknown =>
        ok := RollbackPrepared(disk, plan);
    }
  }

  lemma UnsealedBefore(plan: Plan, t: Tree)
    requires Recoverable(plan, t) && Active(t) && !Sealed(t)
    ensures AllBefore(plan, t)
  {
  }

  // ---- the next apply --------------------------------------------------------------------

  lemma SweptSlot(c: Change, i: nat, t: Tree, u: Tree)
    requires SlotSafe(c, t, i) && SameAt(t, u, Target(c)) && SameAt(t, u, Backup(i)) && SameAt(t, u, Parent(Target(c)))
    ensures SlotSafe(c, u, i)
  {
  }

  // What is left of committed transactions plays no part in a recovery.
  lemma SweptRecoverable(plan: Plan, t: Tree, u: Tree)
    requires PublicPart(u) == PublicPart(t) && forall e :: SameAt(t, u, Private(false, e))
    ensures Active(t) == Active(u) && Sealed(t) == Sealed(u) && Torn(t) == Torn(u)
    ensures AllBefore(plan, t) == AllBefore(plan, u) && AllFinal(plan, t) == AllFinal(plan, u)
    ensures Recoverable(plan, t) ==> Recoverable(plan, u)
  {
    hide SlotSafe, SlotIs, AllBefore, AllFinal, ParentsPresent, Unblocked;
    PublicKeepsStates(plan, t, u);
    PublicSame(t, u);
    assert SameAt(t, u, Public([]));
    assert SameAt(t, u, Private(false, Record)) && SameAt(t, u, Private(false, Directory));
    if Active(t) && Sealed(t) && Safe(plan, t) {
      forall i | 0 <= i < |plan| ensures SlotSafe(plan[i], u, i) {
        assert SameAt(t, u, Private(false, BackupOf(i)));
        assert SameAt(t, u, Target(plan[i])) && SameAt(t, u, Parent(Target(plan[i])));
        SweptSlot(plan[i], i, t, u);
      }
    }
  }

  // What an interrupted deletion of a committed transaction left behind is deleted first.
  method SweepCompleted(disk: Disk, plan: Plan) returns (ok: bool)
    requires IsDir(disk.tree, Public([]))
    modifies disk
    ensures old(disk.Whole()) ==> disk.Whole()
    ensures old(disk.log) <= disk.log
    ensures old(Recoverable(plan, disk.tree)) ==> disk.Kept(plan, old(disk.moments)) && Recoverable(plan, disk.tree)
    ensures IsDir(disk.tree, Public([])) && PublicPart(disk.tree) == PublicPart(old(disk.tree))
    ensures Active(disk.tree) == Active(old(disk.tree)) && Sealed(disk.tree) == Sealed(old(disk.tree))
    ensures Torn(disk.tree) == Torn(old(disk.tree))
    ensures old(disk.FaultFree()) ==> ok
  {
    hide Disk.Whole, Recoverable, Sealed, Torn, Active;
    if Private(true, Directory) !in disk.tree {
      return true;
    }
    ghost var t := disk.tree;
    ok := disk.RemoveAll(true);
    SweptRecoverable(plan, t, disk.tree);
    PublicSame(t, disk.tree);
    assert SameAt(t, disk.tree, Public([]));
    if ok {
      ok := disk.Sync(Public([]));
    }
  }

  /** The whole operation: sweep, recover, apply. From any recoverable moment, and so from wherever an
      interrupted apply of the same plan stopped, a call without faults ends with every target final
      and no transaction, exactly when recovery can finish; and every moment of the call, with or
      without faults, is again one to start from. */
  method ApplyPlan(disk: Disk, plan: Plan) returns (disposition: Disposition, err: bool)
    requires ValidPlan(plan) && disk.Whole() && Recoverable(plan, disk.tree)
    modifies disk
    ensures disk.Whole() && old(disk.log) <= disk.log && disk.Kept(plan, old(disk.moments))
    ensures disposition != Nothing ==> AllFinal(plan, disk.tree)
    ensures disposition == Nothing ==> err
    ensures old(disk.FaultFree()) ==> (disposition != Nothing <==> Recovers(plan, old(disk.tree)))
    ensures old(disk.FaultFree()) && Recovers(plan, old(disk.tree)) ==> !Active(disk.tree) && !err
  {
    hide Disk.Whole, Recoverable, Sealed, Torn, AllBefore, AllFinal, ValidPlan;
    disposition, err := Nothing, true;
    RecoverableRoot(plan, disk.tree);
    ghost var t := disk.tree;
    var ok := SweepCompleted(disk, plan);
    if !ok { return; }
    PublicKeepsStates(plan, t, disk.tree);
    ok := Recover(disk, plan);
    if !ok { return; }
    assert Closed(disk.tree) by { WholeNow(disk); }
    ghost var failedAt;
    disposition, err, failedAt := Apply(disk, plan);
  }

  lemma WholeNow(disk: Disk)
    requires disk.Whole()
    ensures Closed(disk.tree)
  {
  }

  // ---- two transactions nothing recovers -------------------------------------------------

  // Stopped while the record was being written, and before it was, for a plan that changes nothing.
  const TORN: Tree := map[Public([]) := Dir, Private(false, Directory) := Dir, Private(false, Record) := RecoveryRecord(false)]
  const UNSEALED: Tree := map[Public([]) := Dir, Private(false, Directory) := Dir]
  const IDLE: Plan := [Change(["f"], Assert, None, None)]

  lemma TornIsStuck()
    ensures GoodStart(LEAKY, EMPTY_ROOT) && Preparing(LEAKY, EMPTY_ROOT, TORN) && Closed(TORN)
    ensures Recoverable(LEAKY, TORN) && !Recovers(LEAKY, TORN)
  {
    hide GoodStart, AllBefore, AllFinal, Recoverable;
    LeakyStart();
    PublicEqual(TORN, EMPTY_ROOT);
    PreparingRecoverable(LEAKY, EMPTY_ROOT, TORN);
  }

  lemma IdleStart()
    ensures ValidPlan(IDLE) && AllBefore(IDLE, EMPTY_ROOT) && AllFinal(IDLE, EMPTY_ROOT)
  {
    assert IDLE[0].path == ["f"];
  }

  lemma IdleIsStuck()
    ensures GoodStart(IDLE, EMPTY_ROOT) && Preparing(IDLE, EMPTY_ROOT, UNSEALED) && Closed(UNSEALED)
    ensures Recoverable(IDLE, UNSEALED) && !Recovers(IDLE, UNSEALED)
  {
    hide AllBefore, AllFinal, Recoverable, ValidPlan;
    IdleStart();
    PublicEqual(UNSEALED, EMPTY_ROOT);
    PreparingRecoverable(IDLE, EMPTY_ROOT, UNSEALED);
  }

  /** An interrupted apply can leave either behind, and then every further apply of the plan fails even
      though no operation does. */
  method StuckTransactions() returns (torn: Disk, first: Disposition, unsealed: Disk, second: Disposition)
    ensures torn.FaultFree() && first == Nothing && unsealed.FaultFree() && second == Nothing
  {
    hide Recoverable, GoodStart, Preparing, Closed;
    TornIsStuck();
    IdleIsStuck();
    var err;
    torn := new Disk(TORN, k => false);
    first, err := ApplyPlan(torn, LEAKY);
    unsealed := new Disk(UNSEALED, k => false);
    second, err := ApplyPlan(unsealed, IDLE);
  }
}
