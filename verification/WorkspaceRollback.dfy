/** Undoing a commit: the journal replayed backwards, created directories removed deepest first, the
    result verified, and the transaction directory deleted only if nothing failed. */
module WorkspaceRollback {
  import opened Options
  import opened WorkspaceModel
  import opened WorkspaceDisk

  datatype JournalEntry = JournalEntry(index: nat, originalMoved: bool, installed: bool) {
    function Stage(): Stage { if installed then Installed else if originalMoved then Moved else Before }
  }

  // The journal tells the stage of every target: what it does not mention was not touched.
  ghost predicate JournalOk(plan: Plan, journal: seq<JournalEntry>, stages: seq<Stage>) {
    && |stages| == |plan|
    && (forall k :: 0 <= k < |journal| ==> journal[k].index < |plan|)
    && (forall k, l :: 0 <= k < l < |journal| ==> journal[k].index < journal[l].index)
    && (forall k :: 0 <= k < |journal| ==> stages[journal[k].index] == journal[k].Stage())
    && (forall k :: 0 <= k < |journal| && plan[journal[k].index].op.Update? && journal[k].installed ==> journal[k].originalMoved)
    && (forall k :: 0 <= k < |journal| && plan[journal[k].index].op.Create? ==> !journal[k].originalMoved)
    && (forall i :: 0 <= i < |plan| && !Mentions(journal, i) ==> stages[i] == Before)
  }

  ghost predicate Mentions(journal: seq<JournalEntry>, i: nat) {
    exists k :: 0 <= k < |journal| && journal[k].index == i
  }

  // Created directories are recorded from the outside in.
  ghost predicate OutsideIn(created: seq<Path>) {
    forall k, l :: 0 <= k < l < |created| ==> created[k] != created[l] && Parent(created[k]) != created[l]
  }

  function ToSet(ps: seq<Path>): set<Path> { set p | p in ps }

  function Leak(p: Option<Path>): set<Path> { if p.Some? then {p.value} else {} }

  // A directory made but not recorded, because the sync that follows its creation failed.
  ghost predicate LeakOk(created: seq<Path>, leaked: Option<Path>) {
    leaked.Some? ==> leaked.value !in created && forall k :: 0 <= k < |created| ==> Parent(created[k]) != leaked.value
  }

  method CapturePlan(disk: Disk, plan: Plan) returns (files: Option<seq<Option<Content>>>)
    modifies disk`log
    ensures old(disk.log) <= disk.log
    ensures files.Some? ==> |files.value| == |plan|
                            && forall i :: 0 <= i < |plan| ==> Capture(disk.tree, plan[i].path) == Read(files.value[i])
    ensures files.None? ==> old(disk.log) < disk.log && disk.log[|disk.log| - 1] == OtherOp
    ensures files.None? && !disk.MadeToFail(old(disk.log)) ==>
              exists i :: 0 <= i < |plan| && Capture(disk.tree, plan[i].path) == Unreadable
  {
    var list: seq<Option<Content>> := [];
    for i := 0 to |plan|
      invariant |list| == i && old(disk.log) <= disk.log
      invariant forall j :: 0 <= j < i ==> Capture(disk.tree, plan[j].path) == Read(list[j])
    {
      var file := disk.CaptureFile(plan[i].path);
      if file.Unreadable? {
        return None;
      }
      list := list + [file.file];
    }
    files := Some(list);
  }

  function Befores(plan: Plan): seq<Option<Content>> { seq(|plan|, i requires 0 <= i < |plan| => plan[i].before) }

  function Finals(plan: Plan): seq<Option<Content>> { seq(|plan|, i requires 0 <= i < |plan| => plan[i].final) }

  // ---- what one undo step does to the shape ----------------------------------------------

  // Two trees that differ at most in what belongs to target i.
  ghost predicate DiffersAt(c: Change, i: nat, t: Tree, u: Tree) {
    && (forall p :: p != Target(c) && p != Backup(i) && p != Staged(i) ==> (p in t <==> p in u))
    && (forall p :: p != Target(c) && p != Backup(i) && p != Staged(i) && p in t ==> t[p] == u[p])
  }

  lemma ShapeChange(plan: Plan, t0: Tree, t: Tree, u: Tree, stages: seq<Stage>, dirs: set<Path>, i: nat, stage: Stage)
    requires GoodStart(plan, t0) && Shape(plan, t0, t, stages, dirs) && i < |plan|
    requires DiffersAt(plan[i], i, t, u) && SlotIs(plan[i], u, i, stage)
    ensures |stages| == |plan| && Shape(plan, t0, u, stages[i := stage], dirs) && Recoverable(plan, u)
  {
    hide SlotIs, Recoverable;
    ShapeMove(plan, t0, t, u, stages, dirs, i, stage);
    ShapeRecoverable(plan, t0, u, stages[i := stage], dirs);
  }

  lemma ShapeAt(plan: Plan, t0: Tree, t: Tree, stages: seq<Stage>, dirs: set<Path>, i: nat)
    requires GoodStart(plan, t0) && Shape(plan, t0, t, stages, dirs) && i < |plan|
    ensures |stages| == |plan| && SlotIs(plan[i], t, i, stages[i]) && IsDir(t, Private(false, Directory))
    ensures plan[i].before.Some? ==> IsDir(t, Parent(Target(plan[i])))
    ensures Parent(Target(plan[i])) != Target(plan[i]) && plan[i].Valid()
  {
    hide SlotIs, IsTarget;
    ShapeParents(plan, t0, t, stages, dirs);
    assert plan[i].Valid();
  }

  lemma RemoveShape(plan: Plan, t0: Tree, t: Tree, stages: seq<Stage>, dirs: set<Path>, i: nat)
    requires GoodStart(plan, t0) && Shape(plan, t0, t, stages, dirs) && i < |plan| && stages[i] == Installed
    ensures RemovePossible(t, Target(plan[i])) && Target(plan[i]) in t
    ensures IsDir(t - {Target(plan[i])}, Parent(Target(plan[i])))
    ensures var stage := if plan[i].op.Update? then Moved else Before;
            Shape(plan, t0, t - {Target(plan[i])}, stages[i := stage], dirs)
            && Recoverable(plan, t - {Target(plan[i])})
  {
    hide Shape, Recoverable, GoodStart;
    ShapeAt(plan, t0, t, stages, dirs, i);
    ShapeChange(plan, t0, t, t - {Target(plan[i])}, stages, dirs, i, if plan[i].op.Update? then Moved else Before);
  }

  lemma RestoreShape(plan: Plan, t0: Tree, t: Tree, stages: seq<Stage>, dirs: set<Path>, i: nat)
    requires GoodStart(plan, t0) && Shape(plan, t0, t, stages, dirs)
    requires i < |plan| && stages[i] != Before && !plan[i].op.Create?
    ensures RenamePossible(t, Backup(i), Target(plan[i]))
    ensures Shape(plan, t0, Renamed(t, Backup(i), Target(plan[i])), stages[i := Before], dirs)
    ensures Recoverable(plan, Renamed(t, Backup(i), Target(plan[i])))
    ensures IsDir(Renamed(t, Backup(i), Target(plan[i])), Parent(Backup(i)))
    ensures IsDir(Renamed(t, Backup(i), Target(plan[i])), Parent(Target(plan[i])))
  {
    hide Shape, Recoverable, GoodStart;
    ShapeAt(plan, t0, t, stages, dirs, i);
    ShapeChange(plan, t0, t, Renamed(t, Backup(i), Target(plan[i])), stages, dirs, i, Before);
  }

  lemma StageFacts(plan: Plan, t0: Tree, t: Tree, stages: seq<Stage>, dirs: set<Path>, i: nat)
    requires Shape(plan, t0, t, stages, dirs) && i < |plan|
    ensures |stages| == |plan|
    ensures stages[i] == Installed ==> plan[i].Writes()
    ensures stages[i] == Moved ==> !plan[i].op.Create?
  {
    assert SlotIs(plan[i], t, i, stages[i]);
  }

  method RemoveInstalled(disk: Disk, plan: Plan, i: nat, ghost t0: Tree, ghost stages: seq<Stage>, ghost dirs: set<Path>)
    returns (ok: bool, ghost after: seq<Stage>)
    requires GoodStart(plan, t0) && Shape(plan, t0, disk.tree, stages, dirs)
    requires i < |plan| && |stages| == |plan| && stages[i] == Installed
    modifies disk
    ensures old(disk.Whole()) ==> disk.Whole()
    ensures old(disk.log) <= disk.log && disk.Kept(plan, old(disk.moments))
    ensures Shape(plan, t0, disk.tree, after, dirs)
    ensures after == stages || after == stages[i := if plan[i].op.Update? then Moved else Before]
    ensures ok ==> after != stages
    ensures old(disk.FaultFree()) ==> ok
  {
    hide Shape, Recoverable, GoodStart;
    after := stages;
    ok := disk.Check();
    if !ok { return; }
    RemoveShape(plan, t0, disk.tree, stages, dirs, i);
    var r := disk.Remove(Target(plan[i]));
    if r.Gone? {
      after := stages[i := if plan[i].op.Update? then Moved else Before];
      assert after[i] != stages[i];
      ok := disk.Sync(Parent(Target(plan[i])));
    } else {
      ok := false;
    }
  }

  method RestoreBackup(disk: Disk, plan: Plan, i: nat, ghost t0: Tree, ghost stages: seq<Stage>, ghost dirs: set<Path>)
    returns (ok: bool, ghost after: seq<Stage>)
    requires GoodStart(plan, t0) && Shape(plan, t0, disk.tree, stages, dirs)
    requires i < |plan| && |stages| == |plan| && !plan[i].op.Create? && stages[i] != Before
    modifies disk
    ensures old(disk.Whole()) ==> disk.Whole()
    ensures old(disk.log) <= disk.log && disk.Kept(plan, old(disk.moments))
    ensures Shape(plan, t0, disk.tree, after, dirs)
    ensures after == stages || after == stages[i := Before]
    ensures ok ==> after == stages[i := Before]
    ensures old(disk.FaultFree()) ==> ok
  {
    hide Shape, Recoverable, GoodStart;
    after := stages;
    ok := disk.Check();
    if !ok { return; }
    RestoreShape(plan, t0, disk.tree, stages, dirs, i);
    ok := disk.Rename(Backup(i), Target(plan[i]));
    if ok {
      after := stages[i := Before];
      ok := disk.SyncRename(Backup(i), Target(plan[i]));
    }
  }

  /** Undoes one journal entry. Whatever fails, the original stays at its target or its backup; when
      nothing fails the target is as it was. */
  method UndoEntry(disk: Disk, plan: Plan, entry: JournalEntry,
                   ghost t0: Tree, ghost stages: seq<Stage>, ghost dirs: set<Path>)
    returns (ok: bool, ghost after: seq<Stage>)
    requires GoodStart(plan, t0) && Shape(plan, t0, disk.tree, stages, dirs)
    requires entry.index < |plan| && |stages| == |plan| && stages[entry.index] == entry.Stage()
    requires plan[entry.index].op.Update? && entry.installed ==> entry.originalMoved
    requires plan[entry.index].op.Create? ==> !entry.originalMoved
    modifies disk
    ensures old(disk.Whole()) ==> disk.Whole()
    ensures old(disk.log) <= disk.log && disk.Kept(plan, old(disk.moments))
    ensures |after| == |stages| && after == stages[entry.index := after[entry.index]]
    ensures Shape(plan, t0, disk.tree, after, dirs)
    ensures ok ==> after[entry.index] == Before
    ensures old(disk.FaultFree()) ==> ok
  {
    var i := entry.index;
    after := stages;
    ok := true;
    hide Shape, Recoverable, GoodStart;
    StageFacts(plan, t0, disk.tree, stages, dirs, i);
    if entry.installed {
      ok, after := RemoveInstalled(disk, plan, i, t0, stages, dirs);
    }
    if entry.originalMoved {
      var restored;
      restored, after := RestoreBackup(disk, plan, i, t0, after, dirs);
      ok := ok && restored;
    }
  }

  ghost predicate AllAt(stages: seq<Stage>, stage: Stage) {
    forall i :: 0 <= i < |stages| ==> stages[i] == stage
  }

  /** The journal is undone from its last entry to its first; a failing entry does not stop the rest. */
  method UndoJournal(disk: Disk, plan: Plan, journal: seq<JournalEntry>,
                     ghost t0: Tree, ghost stages: seq<Stage>, ghost dirs: set<Path>)
    returns (ok: bool, ghost after: seq<Stage>)
    requires GoodStart(plan, t0) && Shape(plan, t0, disk.tree, stages, dirs) && JournalOk(plan, journal, stages)
    modifies disk
    ensures old(disk.Whole()) ==> disk.Whole()
    ensures old(disk.log) <= disk.log && disk.Kept(plan, old(disk.moments))
    ensures |after| == |plan| && Shape(plan, t0, disk.tree, after, dirs)
    ensures ok ==> AllAt(after, Before)
    ensures old(disk.FaultFree()) ==> ok
  {
    hide Shape, Recoverable, GoodStart;
    after, ok := stages, true;
    var k := |journal|;
    while k > 0
      invariant 0 <= k <= |journal| && |after| == |plan|
      invariant old(disk.log) <= disk.log && disk.Kept(plan, old(disk.moments))
      invariant old(disk.Whole()) ==> disk.Whole()
      invariant Shape(plan, t0, disk.tree, after, dirs)
      invariant forall l :: 0 <= l < k ==> after[journal[l].index] == journal[l].Stage()
      invariant ok ==> forall i :: 0 <= i < |plan| && !Mentions(journal[..k], i) ==> after[i] == Before
      invariant old(disk.FaultFree()) ==> ok
    {
      k := k - 1;
      ghost var was := after;
      var undone;
      undone, after := UndoEntry(disk, plan, journal[k], t0, after, dirs);
      ok := ok && undone;
      forall i | 0 <= i < |plan| && i != journal[k].index && !Mentions(journal[..k], i)
        ensures !Mentions(journal[..k + 1], i)
      {
        assert journal[..k + 1] == journal[..k] + [journal[k]];
      }
    }
    assert journal[..0] == [];
  }

  // A created directory is empty once every target and every directory below it is gone.
  lemma EmptyDirectory(plan: Plan, t0: Tree, t: Tree, stages: seq<Stage>, dirs: set<Path>, p: Path)
    requires GoodStart(plan, t0) && Shape(plan, t0, t, stages, dirs) && AllAt(stages, Before)
    requires p in dirs && forall q :: q in dirs ==> Parent(q) != p
    ensures RemovePossible(t, p)
  {
    forall q | q in t && q != p ensures Parent(q) != p {
      if q.Public? {
        if IsTarget(plan, q) {
          var i :| 0 <= i < |plan| && q == Target(plan[i]);
          assert SlotIs(plan[i], t, i, Before);
          assert Capture(t0, plan[i].path) == Read(plan[i].before);
        }
        assert q in t0 || q in dirs;
      }
    }
  }

  lemma RemoveDirectory(plan: Plan, t0: Tree, t: Tree, stages: seq<Stage>, left: set<Path>, p: Path)
    requires GoodStart(plan, t0) && Shape(plan, t0, t, stages, left) && p in left
    ensures p in t
    ensures RemovePossible(t, p) ==> Shape(plan, t0, t - {p}, stages, left - {p}) && Recoverable(plan, t - {p})
  {
    hide Recoverable, SlotIs;
    if RemovePossible(t, p) {
      ShapeRmdir(plan, t0, t, stages, left, p);
      ShapeRecoverable(plan, t0, t - {p}, stages, left - {p});
    }
  }

  lemma AddedDir(plan: Plan, t0: Tree, t: Tree, stages: seq<Stage>, dirs: set<Path>, p: Path)
    requires GoodStart(plan, t0) && Shape(plan, t0, t, stages, dirs) && p in dirs
    ensures p.Public? && p !in t0 && p in t && t[p].Dir? && Parent(p) != p
  {
    hide SlotIs, IsTarget, ValidPlan, AllBefore;
  }

  // Which created directories can go: the deepest one left, unless an unrecorded one is inside it.
  lemma DeepestIsEmpty(plan: Plan, t0: Tree, t: Tree, stages: seq<Stage>, left: set<Path>,
                       created: seq<Path>, k: nat, leaked: Option<Path>)
    requires GoodStart(plan, t0) && Shape(plan, t0, t, stages, left)
    requires k < |created| && OutsideIn(created) && LeakOk(created, leaked)
    requires ToSet(created[..k + 1]) + Leak(leaked) <= left
    requires IsDir(t, Parent(created[k]))
    ensures leaked.Some? && Parent(leaked.value) == created[k] ==> !RemovePossible(t, created[k])
    ensures (AllAt(stages, Before) && left == ToSet(created[..k + 1]) + Leak(leaked)
             && (leaked.None? || Parent(leaked.value) != created[k])) ==> RemovePossible(t, created[k])
    ensures forall l :: 0 <= l < k && IsDir(t, Parent(created[l])) ==> IsDir(t - {created[k]}, Parent(created[l]))
    ensures IsDir(t - {created[k]}, Parent(created[k]))
  {
    hide SlotIs, IsTarget, GoodStart, Shape;
    var p := created[k];
    assert created[..k + 1][k] == p;
    AddedDir(plan, t0, t, stages, left, p);
    if leaked.Some? {
      AddedDir(plan, t0, t, stages, left, leaked.value);
      assert leaked.value != p;
    }
    if AllAt(stages, Before) && left == ToSet(created[..k + 1]) + Leak(leaked)
       && (leaked.None? || Parent(leaked.value) != p) {
      forall q | q in left ensures Parent(q) != p {
        if q in ToSet(created[..k + 1]) {
          var l :| 0 <= l <= k && created[..k + 1][l] == q;
          assert l == k || Parent(created[l]) != created[k];
        }
      }
      EmptyDirectory(plan, t0, t, stages, left, p);
    }
  }

  ghost predicate Occupied(t: Tree, p: Path) {
    p in t && exists q :: q in t && q != p && Parent(q) == p
  }

  lemma OccupiedOrRemovable(t: Tree, p: Path)
    requires IsDir(t, p)
    ensures RemovePossible(t, p) <==> !Occupied(t, p)
  {
  }

  method RemoveDeepest(disk: Disk, plan: Plan, created: seq<Path>, k: nat, ghost leaked: Option<Path>,
                       ghost t0: Tree, ghost stages: seq<Stage>, ghost left: set<Path>)
    returns (ok: bool, ghost rest: set<Path>)
    requires GoodStart(plan, t0) && Shape(plan, t0, disk.tree, stages, left)
    requires k < |created| && OutsideIn(created) && LeakOk(created, leaked)
    requires ToSet(created[..k + 1]) + Leak(leaked) <= left
    requires forall l :: 0 <= l <= k ==> IsDir(disk.tree, Parent(created[l]))
    modifies disk
    ensures old(disk.Whole()) ==> disk.Whole()
    ensures old(disk.log) <= disk.log && disk.Kept(plan, old(disk.moments))
    ensures Shape(plan, t0, disk.tree, stages, rest)
    ensures rest == left || rest == left - {created[k]}
    ensures forall q :: q in old(disk.tree) && q != created[k] ==> q in disk.tree
    ensures created[k] in rest ==> disk.tree == old(disk.tree)
    ensures ok ==> rest == left - {created[k]}
    ensures forall l :: 0 <= l < k ==> IsDir(disk.tree, Parent(created[l]))
    ensures old(disk.FaultFree()) ==> (ok <==> !Occupied(old(disk.tree), created[k]))
  {
    hide Shape, Recoverable, GoodStart, RemovePossible, Occupied;
    rest, ok := left, false;
    var p := created[k];
    assert created[..k + 1][k] == p;
    DeepestIsEmpty(plan, t0, disk.tree, stages, left, created, k, leaked);
    RemoveDirectory(plan, t0, disk.tree, stages, left, p);
    AddedDir(plan, t0, disk.tree, stages, left, p);
    OccupiedOrRemovable(disk.tree, p);
    var r := disk.Remove(p);
    if r.Gone? {
      rest := left - {p};
      ok := disk.Sync(Parent(p));
    } else {
      ok := r.Missing?;
    }
  }

  // What stays occupied while the directories further out are removed.
  lemma StaysOccupied(created: seq<Path>, t: Tree, u: Tree, k: nat, l: nat)
    requires OutsideIn(created) && k < l < |created| && Occupied(t, created[l])
    requires forall q :: q in t && q != created[k] ==> q in u
    ensures Occupied(u, created[l])
  {
    var q :| q in t && q != created[l] && Parent(q) == created[l];
    assert q != created[k] && q in u;
  }

  lemma FreeWhenEmptied(plan: Plan, t0: Tree, t: Tree, stages: seq<Stage>, left: set<Path>,
                        created: seq<Path>, k: nat, leaked: Option<Path>)
    requires GoodStart(plan, t0) && Shape(plan, t0, t, stages, left)
    requires k < |created| && OutsideIn(created) && LeakOk(created, leaked)
    requires ToSet(created[..k + 1]) + Leak(leaked) <= left
    requires IsDir(t, Parent(created[k]))
    ensures leaked.Some? && Parent(leaked.value) == created[k] ==> Occupied(t, created[k])
    ensures (AllAt(stages, Before) && left == ToSet(created[..k + 1]) + Leak(leaked)
             && (leaked.None? || Parent(leaked.value) != created[k])) ==> !Occupied(t, created[k])
  {
    hide Shape, GoodStart, RemovePossible, Occupied;
    assert created[..k + 1][k] == created[k];
    DeepestIsEmpty(plan, t0, t, stages, left, created, k, leaked);
    AddedDir(plan, t0, t, stages, left, created[k]);
    OccupiedOrRemovable(t, created[k]);
  }

  /** Created directories are removed deepest first. Those that stay are counted in `left`; without a
      fault they are exactly the ones that still hold something, and once every target is back only an
      unrecorded directory can do that. */
  method RemoveCreated(disk: Disk, plan: Plan, created: seq<Path>, ghost leaked: Option<Path>,
                       ghost t0: Tree, ghost stages: seq<Stage>, ghost dirs: set<Path>)
    returns (ok: bool, ghost left: set<Path>)
    requires GoodStart(plan, t0) && Shape(plan, t0, disk.tree, stages, dirs)
    requires dirs == ToSet(created) + Leak(leaked) && OutsideIn(created) && LeakOk(created, leaked)
    requires forall p :: p in dirs ==> IsDir(disk.tree, Parent(p))
    modifies disk
    ensures old(disk.Whole()) ==> disk.Whole()
    ensures old(disk.log) <= disk.log && disk.Kept(plan, old(disk.moments))
    ensures Shape(plan, t0, disk.tree, stages, left) && Leak(leaked) <= left <= dirs
    ensures ok ==> left == Leak(leaked)
    ensures old(disk.FaultFree()) ==> forall p :: p in created && p in left ==> Occupied(disk.tree, p)
    ensures old(disk.FaultFree()) && AllAt(stages, Before) ==>
              (ok <==> (leaked.None? || Parent(leaked.value) !in created))
  {
    hide Shape, Recoverable, GoodStart, RemovePossible, Occupied;
    left, ok := dirs, true;
    var k := |created|;
    while k > 0
      invariant 0 <= k <= |created|
      invariant old(disk.log) <= disk.log && disk.Kept(plan, old(disk.moments))
      invariant old(disk.Whole()) ==> disk.Whole()
      invariant Shape(plan, t0, disk.tree, stages, left)
      invariant ToSet(created[..k]) + Leak(leaked) <= left <= dirs
      invariant ok ==> left == ToSet(created[..k]) + Leak(leaked)
      invariant forall l :: 0 <= l < k ==> IsDir(disk.tree, Parent(created[l]))
      invariant old(disk.FaultFree()) ==>
                  forall l :: k <= l < |created| && created[l] in left ==> Occupied(disk.tree, created[l])
      invariant old(disk.FaultFree()) && AllAt(stages, Before) ==>
                  (ok <==> (leaked.None? || forall l :: k <= l < |created| ==> Parent(leaked.value) != created[l]))
    {
      k := k - 1;
      assert created[..k + 1] == created[..k] + [created[k]];
      FreeWhenEmptied(plan, t0, disk.tree, stages, left, created, k, leaked);
      ghost var t := disk.tree;
      var removed;
      removed, left := RemoveDeepest(disk, plan, created, k, leaked, t0, stages, left);
      forall l | k < l < |created| && Occupied(t, created[l]) ensures Occupied(disk.tree, created[l]) {
        StaysOccupied(created, t, disk.tree, k, l);
      }
      ok := ok && removed;
    }
    assert created[..0] == [];
  }

  lemma CleanupRecoverable(plan: Plan, t0: Tree, t: Tree, stages: seq<Stage>, dirs: set<Path>, u: Tree)
    requires GoodStart(plan, t0) && Shape(plan, t0, t, stages, dirs) && AllAt(stages, Before)
    requires PublicPart(u) == PublicPart(t) && forall p :: p in u ==> p in t && u[p] == t[p]
    ensures AllBefore(plan, u) && Recoverable(plan, u)
  {
    hide GoodStart, AllBefore, ParentsPresent, Unblocked, IsTarget;
    ShapeAllBefore(plan, t0, t, stages, dirs);
    ShapeParents(plan, t0, t, stages, dirs);
    PublicKeepsStates(plan, t, u);
    PublicSame(t, u);
    ShapeSealed(plan, t0, t, stages, dirs);
    assert SameAt(t, u, Public([]));
    forall i | 0 <= i < |plan| ensures Backup(i) !in u {
      assert SlotIs(plan[i], t, i, Before);
    }
    UntouchedRecoverable(plan, u);
  }

  lemma ListMatches(plan: Plan, t: Tree, files: seq<Option<Content>>)
    requires |files| == |plan| && forall i :: 0 <= i < |plan| ==> Capture(t, plan[i].path) == Read(files[i])
    ensures files == Befores(plan) <==> AllBefore(plan, t)
    ensures files == Finals(plan) <==> AllFinal(plan, t)
  {
    if AllBefore(plan, t) {
      forall i | 0 <= i < |plan| ensures files[i] == plan[i].before { }
      assert files == Befores(plan);
    }
    if AllFinal(plan, t) {
      forall i | 0 <= i < |plan| ensures files[i] == plan[i].final { }
      assert files == Finals(plan);
    }
    forall i | 0 <= i < |plan| ensures files == Befores(plan) ==> Capture(t, plan[i].path) == Read(plan[i].before)
      ensures files == Finals(plan) ==> Capture(t, plan[i].path) == Read(plan[i].final) { }
  }

  lemma RestoredPublic(plan: Plan, t0: Tree, t: Tree, stages: seq<Stage>, leaked: Option<Path>)
    requires GoodStart(plan, t0) && Shape(plan, t0, t, stages, Leak(leaked)) && AllAt(stages, Before)
    ensures PublicPart(t) == PublicPart(t0) <==> leaked.None?
  {
    if leaked.None? {
      ShapeRestored(plan, t0, t, stages);
    } else {
      assert leaked.value in Leak(leaked);
      assert leaked.value in PublicPart(t) && leaked.value !in PublicPart(t0);
    }
  }

  lemma LeftoverPublic(plan: Plan, t0: Tree, t: Tree, stages: seq<Stage>, left: set<Path>, p: Path)
    requires Shape(plan, t0, t, stages, left) && p in left
    ensures PublicPart(t) != PublicPart(t0)
  {
    assert p in PublicPart(t) && p !in PublicPart(t0);
  }

  // Every added directory hangs below an old one or another added one.
  ghost predicate DirsClosed(t0: Tree, dirs: set<Path>) {
    forall p :: p in dirs ==> IsDir(t0, Parent(p)) || Parent(p) in dirs
  }

  lemma DirsRooted(plan: Plan, t0: Tree, t: Tree, stages: seq<Stage>, dirs: set<Path>)
    requires GoodStart(plan, t0) && Shape(plan, t0, t, stages, dirs) && DirsClosed(t0, dirs)
    ensures forall p :: p in dirs ==> IsDir(t, Parent(p))
  {
    hide SlotIs, IsTarget, GoodStart;
    forall p | p in dirs ensures IsDir(t, Parent(p)) {
      assert p.Public?;
      if IsDir(t0, Parent(p)) {
        OldDirKept(plan, t0, t, stages, dirs, Parent(p));
      }
    }
  }

  lemma ShapeSealed(plan: Plan, t0: Tree, t: Tree, stages: seq<Stage>, dirs: set<Path>)
    requires GoodStart(plan, t0) && Shape(plan, t0, t, stages, dirs)
    ensures Active(t) && Sealed(t) && IsDir(t, Public([])) && IsDir(t, Private(false, Directory))
  {
    assert IsDir(t0, Public([]));
    OldDirKept(plan, t0, t, stages, dirs, Public([]));
  }

  lemma RolledBackFacts(plan: Plan, t0: Tree, t: Tree, stages: seq<Stage>, left: set<Path>, leaked: Option<Path>)
    requires GoodStart(plan, t0) && Shape(plan, t0, t, stages, left) && AllAt(stages, Before) && Leak(leaked) <= left
    ensures AllBefore(plan, t)
    ensures left == Leak(leaked) ==> (PublicPart(t) == PublicPart(t0) <==> leaked.None?)
    ensures left != Leak(leaked) ==> PublicPart(t) != PublicPart(t0)
  {
    hide Shape, GoodStart;
    ShapeAllBefore(plan, t0, t, stages, left);
    if left == Leak(leaked) {
      RestoredPublic(plan, t0, t, stages, leaked);
    } else {
      assert !(left <= Leak(leaked));
      var p :| p in left && p !in Leak(leaked);
      LeftoverPublic(plan, t0, t, stages, left, p);
    }
  }

  // Captures the target set once more; a match is required for success.
  method VerifyBefore(disk: Disk, plan: Plan, before: bool) returns (ok: bool)
    modifies disk`log
    ensures old(disk.log) <= disk.log
    ensures ok ==> before && AllBefore(plan, disk.tree)
    ensures old(disk.FaultFree()) && before && AllBefore(plan, disk.tree) ==> ok
  {
    var current := CapturePlan(disk, plan);
    ok := false;
    if current.Some? {
      ListMatches(plan, disk.tree, current.value);
      ok := current.value == Befores(plan);
    }
    var guards := disk.Check();
    ok := before && ok && guards;
  }

  /** The end of a rollback: the target set is verified, and only if it is as before and nothing failed
      is the transaction directory given up. */
  method VerifyAndClose(disk: Disk, plan: Plan, clean: bool, ghost t0: Tree, ghost stages: seq<Stage>, ghost left: set<Path>)
    returns (ok: bool)
    requires GoodStart(plan, t0) && Shape(plan, t0, disk.tree, stages, left) && (clean ==> AllAt(stages, Before))
    modifies disk
    ensures old(disk.Whole()) ==> disk.Whole()
    ensures old(disk.log) <= disk.log && disk.Kept(plan, old(disk.moments))
    ensures Recoverable(plan, disk.tree) && PublicPart(disk.tree) == PublicPart(old(disk.tree))
    ensures ok ==> clean && AllBefore(plan, disk.tree) && !Active(disk.tree)
    ensures !AllBefore(plan, disk.tree) ==> Active(disk.tree) && Sealed(disk.tree)
    ensures old(disk.FaultFree()) && clean ==> ok
  {
    hide Disk.Whole, Shape, Recoverable, GoodStart, AllBefore, AllFinal, AllAt;
    ghost var t := disk.tree;
    if clean { BackMeansBefore(plan, t0, t, stages, left); }
    ok := VerifyBefore(disk, plan, clean);
    ShapeRecoverable(plan, t0, t, stages, left);
    ShapeSealed(plan, t0, t, stages, left);
    if ok {
      ok := disk.RemoveAll(false);
      CleanupRecoverable(plan, t0, t, stages, left, disk.tree);
      PublicKeepsStates(plan, t, disk.tree);
      if ok {
        PublicSame(t, disk.tree);
        assert SameAt(t, disk.tree, Public([]));
        ok := disk.Sync(Public([]));
      }
    }
  }

  lemma BackMeansBefore(plan: Plan, t0: Tree, t: Tree, stages: seq<Stage>, left: set<Path>)
    requires GoodStart(plan, t0) && Shape(plan, t0, t, stages, left) && AllAt(stages, Before)
    ensures AllBefore(plan, t)
  {
    hide Shape, GoodStart;
    ShapeAllBefore(plan, t0, t, stages, left);
  }

  /** Undoes a failed commit. In every moment on the way each original is at its target or its backup.
      Success means every target was verified to be as before; the transaction directory is given up
      only then. With no further fault every target is restored, and the rollback succeeds exactly
      when no unrecorded directory sits inside a recorded one; the public tree is back exactly as it
      was if and only if no directory was left unrecorded. */
  method Rollback(disk: Disk, plan: Plan, journal: seq<JournalEntry>, created: seq<Path>,
                  ghost leaked: Option<Path>, ghost t0: Tree, ghost stages: seq<Stage>, ghost dirs: set<Path>)
    returns (ok: bool)
    requires GoodStart(plan, t0) && Shape(plan, t0, disk.tree, stages, dirs) && JournalOk(plan, journal, stages)
    requires dirs == ToSet(created) + Leak(leaked) && OutsideIn(created) && LeakOk(created, leaked)
    requires DirsClosed(t0, dirs)
    modifies disk
    ensures old(disk.Whole()) ==> disk.Whole()
    ensures old(disk.log) <= disk.log && disk.Kept(plan, old(disk.moments)) && Recoverable(plan, disk.tree)
    ensures ok ==> AllBefore(plan, disk.tree) && !Active(disk.tree)
    ensures !AllBefore(plan, disk.tree) ==> Active(disk.tree) && Sealed(disk.tree)
    ensures old(disk.FaultFree()) ==> AllBefore(plan, disk.tree)
    ensures old(disk.FaultFree()) ==> (ok <==> (leaked.None? || Parent(leaked.value) !in created))
    ensures old(disk.FaultFree()) ==> (PublicPart(disk.tree) == PublicPart(t0) <==> leaked.None?)
  {
    hide Disk.Whole, Shape, Recoverable, GoodStart, AllBefore, AllFinal, JournalOk, DirsClosed;
    ghost var after: seq<Stage>, left: set<Path>;
    ok, after := UndoJournal(disk, plan, journal, t0, stages, dirs);
    DirsRooted(plan, t0, disk.tree, after, dirs);
    var removed;
    removed, left := RemoveCreated(disk, plan, created, leaked, t0, after, dirs);
    ok := ok && removed;
    ghost var t := disk.tree;
    if AllAt(after, Before) {
      RolledBackFacts(plan, t0, t, after, left, leaked);
    }
    ok := VerifyAndClose(disk, plan, ok, t0, after, left);
    PublicKeepsStates(plan, t, disk.tree);
  }
}
