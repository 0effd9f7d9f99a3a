/** The commit loop: parents, backup, install, each journaled before the next step, every failure
    leaving a state the rollback accepts. */
module WorkspaceCommit {
  import opened Options
  import opened WorkspaceModel
  import opened WorkspaceDisk
  import opened WorkspaceRollback

  // The ghost bookkeeping of a running commit.
  datatype Progress = Progress(t0: Tree, stages: seq<Stage>, leaked: Option<Path>)

  function Dirs(created: seq<Path>, leaked: Option<Path>): set<Path> { ToSet(created) + Leak(leaked) }

  // Exactly what the rollback asks for.
  ghost predicate Undoable(plan: Plan, g: Progress, t: Tree, journal: seq<JournalEntry>, created: seq<Path>) {
    && GoodStart(plan, g.t0) && Shape(plan, g.t0, t, g.stages, Dirs(created, g.leaked))
    && JournalOk(plan, journal, g.stages)
    && OutsideIn(created) && LeakOk(created, g.leaked) && DirsClosed(g.t0, Dirs(created, g.leaked))
  }

  // From change i on, every content to be written is staged.
  ghost predicate StagedFrom(plan: Plan, t: Tree, i: nat) {
    forall j :: i <= j < |plan| && plan[j].Writes() ==> Holds(t, Staged(j), plan[j].final)
  }

  ghost predicate UntouchedFrom(stages: seq<Stage>, i: nat) {
    forall j :: i <= j < |stages| ==> stages[j] == Before
  }

  ghost predicate JournalBelow(journal: seq<JournalEntry>, i: nat) {
    forall k :: 0 <= k < |journal| ==> journal[k].index < i
  }

  function DoneStage(c: Change): Stage {
    match c.op
    case Create => Installed
    case Update => Installed
    case Delete => Moved
    case Assert => Before
  }

  ghost predicate DoneBelow(plan: Plan, stages: seq<Stage>, i: nat) {
    forall j :: 0 <= j < i && j < |plan| && j < |stages| ==> stages[j] == DoneStage(plan[j])
  }

  // Change i is next.
  ghost predicate AtChange(plan: Plan, g: Progress, t: Tree, journal: seq<JournalEntry>, created: seq<Path>, i: nat) {
    && Undoable(plan, g, t, journal, created) && g.leaked.None?
    && StagedFrom(plan, t, i) && UntouchedFrom(g.stages, i) && JournalBelow(journal, i) && DoneBelow(plan, g.stages, i)
  }

  // ---- making parents --------------------------------------------------------------------

  lemma MadeParent(plan: Plan, g: Progress, t: Tree, journal: seq<JournalEntry>, created: seq<Path>, i: nat, k: nat)
    requires Undoable(plan, g, t, journal, created) && g.leaked.None?
    requires i < |plan| && 0 < k < |plan[i].path| && Public(plan[i].path[..k]) !in t
    requires IsDir(t, Public(plan[i].path[..k - 1]))
    ensures var p := Public(plan[i].path[..k]);
            && Undoable(plan, g, t[p := Dir], journal, created + [p])
            && Undoable(plan, g.(leaked := Some(p)), t[p := Dir], journal, created)
            && Recoverable(plan, t[p := Dir])
            && Parent(p) == Public(plan[i].path[..k - 1])
  {
    hide Recoverable, SlotIs, JournalOk, IsTarget;
    var p := Public(plan[i].path[..k]);
    var dirs := ToSet(created);
    assert Dirs(created, None) == dirs;
    assert plan[i].path[..k][..k - 1] == plan[i].path[..k - 1];
    AncestorIsNoTarget(plan, i, k);
    AncestorIsNoTarget(plan, i, k - 1);
    MadeParentShape(plan, g.t0, t, g.stages, dirs, p);
    assert Dirs(created + [p], None) == dirs + {p};
    assert Dirs(created, Some(p)) == dirs + {p};
    MadeParentOrder(created, t, p);
  }

  lemma MadeParentShape(plan: Plan, t0: Tree, t: Tree, stages: seq<Stage>, dirs: set<Path>, p: Path)
    requires GoodStart(plan, t0) && Shape(plan, t0, t, stages, dirs) && DirsClosed(t0, dirs)
    requires p.Public? && p !in t && !IsTarget(plan, p) && IsDir(t, Parent(p)) && !IsTarget(plan, Parent(p))
    ensures Shape(plan, t0, t[p := Dir], stages, dirs + {p}) && DirsClosed(t0, dirs + {p})
    ensures Recoverable(plan, t[p := Dir])
    ensures forall d :: d in dirs ==> d in t && Parent(d) in t
  {
    hide SlotIs, Recoverable;
    DirsRooted(plan, t0, t, stages, dirs);
    ShapeMkdir(plan, t0, t, stages, dirs, p);
    ShapeRecoverable(plan, t0, t[p := Dir], stages, dirs + {p});
  }

  lemma MadeParentOrder(created: seq<Path>, t: Tree, p: Path)
    requires OutsideIn(created) && p !in t && forall d :: d in ToSet(created) ==> d in t && Parent(d) in t
    ensures OutsideIn(created + [p]) && LeakOk(created, Some(p))
  {
    forall k | 0 <= k < |created| ensures created[k] != p && Parent(created[k]) != p {
      assert created[k] in ToSet(created);
    }
  }

  lemma NotBlocked(plan: Plan, g: Progress, t: Tree, journal: seq<JournalEntry>, created: seq<Path>, i: nat)
    requires Undoable(plan, g, t, journal, created) && i < |plan|
    ensures !Blocked(t, plan[i].path) && plan[i].Valid() && IsDir(t, Public([])) && |g.stages| == |plan|
    ensures plan[i].before.Some? ==> IsDir(t, Parent(Target(plan[i])))
    ensures SlotIs(plan[i], t, i, g.stages[i])
    ensures IsDir(t, Private(false, Directory))
  {
    hide Shape, GoodStart, SlotIs, JournalOk;
    ShapeUnblocked(plan, g.t0, t, g.stages, Dirs(created, g.leaked));
    ShapeAt(plan, g.t0, t, g.stages, Dirs(created, g.leaked), i);
    ShapeSealed(plan, g.t0, t, g.stages, Dirs(created, g.leaked));
  }

  ghost predicate AncestorsIn(t: Tree, path: Segments) {
    forall k :: 0 < k < |path| ==> Public(path[..k]) in t
  }

  lemma ParentIn(t: Tree, p: Path)
    requires Closed(t) && p in t
    ensures IsDir(t, Parent(p))
  {
  }

  lemma {:induction false} OldAncestor(t0: Tree, path: Segments, k: nat)
    requires Closed(t0) && Public(path) in t0 && k < |path|
    ensures IsDir(t0, Public(path[..k]))
    decreases |path| - k
  {
    hide Closed;
    if k + 1 < |path| {
      OldAncestor(t0, path, k + 1);
      assert path[..k + 1][..k] == path[..k];
      ParentIn(t0, Public(path[..k + 1]));
    } else {
      ParentIn(t0, Public(path));
    }
  }

  // A file that existed before has all its directories.
  lemma OldAncestors(plan: Plan, g: Progress, t: Tree, journal: seq<JournalEntry>, created: seq<Path>, i: nat)
    requires Undoable(plan, g, t, journal, created) && i < |plan| && plan[i].before.Some?
    ensures AncestorsIn(t, plan[i].path)
  {
    hide Shape, ValidPlan, JournalOk, DirsClosed, OutsideIn, LeakOk;
    assert Capture(g.t0, plan[i].path) == Read(plan[i].before);
    forall k | 0 < k < |plan[i].path| ensures Public(plan[i].path[..k]) in t {
      OldAncestor(g.t0, plan[i].path, k);
      OldDirKept(plan, g.t0, t, g.stages, Dirs(created, g.leaked), Public(plan[i].path[..k]));
    }
  }

  lemma StagedKept(plan: Plan, t: Tree, u: Tree, i: nat)
    requires StagedFrom(plan, t, i)
    requires forall j :: i <= j < |plan| ==> (Staged(j) in t <==> Staged(j) in u) && (Staged(j) in t ==> t[Staged(j)] == u[Staged(j)])
    ensures StagedFrom(plan, u, i)
  {
  }

  // The directory at depth d above the target is the outermost one that is missing.
  ghost predicate FirstMissing(t: Tree, path: Segments, d: nat) {
    && 0 < d < |path| && Public(path[..d]) !in t
    && forall j :: 0 <= j < d ==> Public(path[..j]) in t
  }

  // The operations n to n + d work and the next one is made to fail.
  ghost predicate FailsAfter(faults: nat -> bool, n: nat, d: nat) {
    faults(n + d + 1) && forall j :: n <= j <= n + d ==> !faults(j)
  }

  /** Walks down to the target's directory, creating what is missing when the change may create.
      A directory is left unrecorded if and only if its creation was followed by a sync that failed,
      and below a missing directory there is always a fault that brings that about. */
  method EnsureTargetParents(disk: Disk, plan: Plan, i: nat, journal: seq<JournalEntry>, created0: seq<Path>,
                             ghost g0: Progress)
    returns (ok: bool, created: seq<Path>, ghost g: Progress)
    requires i < |plan| && AtChange(plan, g0, disk.tree, journal, created0, i) && UnsyncedDir(disk.log).None?
    modifies disk
    ensures old(disk.Whole()) ==> disk.Whole()
    ensures old(disk.log) <= disk.log && disk.Kept(plan, old(disk.moments))
    ensures Undoable(plan, g, disk.tree, journal, created) && g.t0 == g0.t0 && g.stages == g0.stages
    ensures g.leaked == UnsyncedDir(disk.log)
    ensures ok ==> AtChange(plan, g, disk.tree, journal, created, i) && IsDir(disk.tree, Parent(Target(plan[i])))
    ensures !ok && (plan[i].op.Create? || AncestorsIn(old(disk.tree), plan[i].path)) ==> disk.MadeToFail(old(disk.log))
    ensures forall d: nat | FirstMissing(old(disk.tree), plan[i].path, d) && FailsAfter(disk.faults, |old(disk.log)|, d) ::
              plan[i].op.Create? ==> g.leaked == Some(Public(plan[i].path[..d]))
  {
    hide Disk.Whole, Undoable, Recoverable;
    ok, created, g := true, created0, g0;
    var path := plan[i].path;
    NotBlocked(plan, g, disk.tree, journal, created, i);
    var mayCreate := plan[i].op.Create?;
    assert path[..0] == [];
    for k := 1 to |path|
      invariant old(disk.log) <= disk.log && disk.Kept(plan, old(disk.moments))
      invariant old(disk.Whole()) ==> disk.Whole()
      invariant !mayCreate ==> disk.tree == old(disk.tree)
      invariant g == g0 && AtChange(plan, g, disk.tree, journal, created, i) && UnsyncedDir(disk.log).None?
      invariant IsDir(disk.tree, Public(path[..k - 1]))
      invariant plan[i].before.Some? ==> IsDir(disk.tree, Parent(Target(plan[i])))
      invariant forall d: nat | FirstMissing(old(disk.tree), path, d) && FailsAfter(disk.faults, |old(disk.log)|, d) ::
                  mayCreate ==> k <= d && disk.tree == old(disk.tree) && |disk.log| == |old(disk.log)| + k - 1
    {
      var p := Public(path[..k]);
      NotBlocked(plan, g, disk.tree, journal, created, i);
      var seen := disk.Check();
      if !seen { return false, created, g; }
      if p in disk.tree {
        if !disk.tree[p].Dir? { return false, created, g; }
      } else {
        if !mayCreate {
          return false, created, g;
        }
        MadeParent(plan, g, disk.tree, journal, created, i, k);
        ghost var t := disk.tree;
        var made := disk.Mkdir(p);
        if !made { return false, created, g; }
        StagedKept(plan, t, disk.tree, i);
        var synced := disk.Sync(Parent(p));
        if !synced {
          return false, created, g.(leaked := Some(p));
        }
        created := created + [p];
      }
    }
    assert Parent(Target(plan[i])) == Public(path[..|path| - 1]);
  }

  // ---- one change ------------------------------------------------------------------------

  lemma JournalGrows(plan: Plan, journal: seq<JournalEntry>, stages: seq<Stage>, i: nat)
    requires JournalOk(plan, journal, stages) && JournalBelow(journal, i) && i < |plan| && stages[i] == Before
    ensures JournalOk(plan, journal + [JournalEntry(i, false, false)], stages)
    ensures JournalBelow(journal + [JournalEntry(i, false, false)], i + 1)
  {
    var longer := journal + [JournalEntry(i, false, false)];
    forall j | 0 <= j < |plan| && !Mentions(longer, j) ensures stages[j] == Before {
      forall k | 0 <= k < |journal| ensures journal[k].index != j {
        assert longer[k] == journal[k];
      }
    }
  }

  // The flag of the last entry is set together with the stage it stands for.
  lemma JournalFlags(plan: Plan, journal: seq<JournalEntry>, stages: seq<Stage>, entry: JournalEntry)
    requires JournalOk(plan, journal, stages) && journal != [] && entry.index == journal[|journal| - 1].index
    requires plan[entry.index].op.Update? && entry.installed ==> entry.originalMoved
    requires plan[entry.index].op.Create? ==> !entry.originalMoved
    ensures JournalOk(plan, journal[|journal| - 1 := entry], stages[entry.index := entry.Stage()])
  {
    var flagged := journal[|journal| - 1 := entry];
    var after := stages[entry.index := entry.Stage()];
    assert flagged[|journal| - 1].index == entry.index;
    forall j | 0 <= j < |plan| && !Mentions(flagged, j) ensures after[j] == Before {
      forall k | 0 <= k < |journal| ensures journal[k].index != j {
        assert flagged[k].index == journal[k].index;
      }
    }
  }

  lemma MovedUndoable(plan: Plan, g: Progress, t: Tree, u: Tree, journal: seq<JournalEntry>, created: seq<Path>,
                      entry: JournalEntry)
    requires Undoable(plan, g, t, journal, created) && journal != []
    requires entry.index == journal[|journal| - 1].index && entry.index < |plan|
    requires plan[entry.index].op.Update? && entry.installed ==> entry.originalMoved
    requires plan[entry.index].op.Create? ==> !entry.originalMoved
    requires DiffersAt(plan[entry.index], entry.index, t, u) && SlotIs(plan[entry.index], u, entry.index, entry.Stage())
    ensures |g.stages| == |plan|
    ensures Undoable(plan, g.(stages := g.stages[entry.index := entry.Stage()]), u, journal[|journal| - 1 := entry], created)
    ensures Recoverable(plan, u)
  {
    hide Shape, GoodStart, JournalOk, SlotIs, DiffersAt, Recoverable;
    ShapeChange(plan, g.t0, t, u, g.stages, Dirs(created, g.leaked), entry.index, entry.Stage());
    JournalFlags(plan, journal, g.stages, entry);
  }

  // Moving target i to its backup, seen from the plan's point of view.
  lemma MoveAsideSlot(c: Change, i: nat, t: Tree)
    requires c.Valid() && SlotIs(c, t, i, Before) && (c.op.Update? || c.op.Delete?) && IsDir(t, Private(false, Directory))
    requires IsDir(t, Parent(Target(c)))
    ensures RenamePossible(t, Target(c), Backup(i))
    ensures DiffersAt(c, i, t, Renamed(t, Target(c), Backup(i)))
    ensures SlotIs(c, Renamed(t, Target(c), Backup(i)), i, Moved)
    ensures IsDir(Renamed(t, Target(c), Backup(i)), Parent(Target(c)))
    ensures IsDir(Renamed(t, Target(c), Backup(i)), Parent(Backup(i)))
    ensures forall j: nat :: Staged(j) in t <==> Staged(j) in Renamed(t, Target(c), Backup(i))
    ensures forall j: nat :: Staged(j) in t ==> Renamed(t, Target(c), Backup(i))[Staged(j)] == t[Staged(j)]
  {
  }

  lemma InstallSlot(c: Change, i: nat, t: Tree)
    requires c.Valid() && c.Writes() && SlotIs(c, t, i, if c.op.Update? then Moved else Before)
    requires Holds(t, Staged(i), c.final) && IsDir(t, Parent(Target(c))) && IsDir(t, Private(false, Directory))
    ensures RenamePossible(t, Staged(i), Target(c))
    ensures DiffersAt(c, i, t, Renamed(t, Staged(i), Target(c)))
    ensures SlotIs(c, Renamed(t, Staged(i), Target(c)), i, Installed)
    ensures IsDir(Renamed(t, Staged(i), Target(c)), Parent(Staged(i)))
    ensures forall j: nat :: j != i ==> (Staged(j) in t <==> Staged(j) in Renamed(t, Staged(i), Target(c)))
    ensures forall j: nat :: j != i && Staged(j) in t ==> Renamed(t, Staged(i), Target(c))[Staged(j)] == t[Staged(j)]
  {
  }

  // Between the journal entry of change i and its completion.
  ghost predicate InChange(plan: Plan, g: Progress, t: Tree, journal: seq<JournalEntry>, created: seq<Path>, i: nat) {
    && i < |plan| && Undoable(plan, g, t, journal, created) && g.leaked.None? && |g.stages| == |plan|
    && StagedFrom(plan, t, i + 1) && UntouchedFrom(g.stages, i + 1) && DoneBelow(plan, g.stages, i)
    && JournalBelow(journal, i + 1) && journal != [] && journal[|journal| - 1].index == i
    && IsDir(t, Parent(Target(plan[i]))) && !plan[i].op.Assert?
    && (plan[i].Writes() && g.stages[i] != Installed ==> Holds(t, Staged(i), plan[i].final))
  }

  // The state after the backup rename, from which the change goes on.
  lemma MovedAside(plan: Plan, g: Progress, t: Tree, journal: seq<JournalEntry>, created: seq<Path>, i: nat)
    requires InChange(plan, g, t, journal, created, i) && journal[|journal| - 1] == JournalEntry(i, false, false)
    requires plan[i].before.Some? && g.stages[i] == Before
    ensures Undoable(plan, g, t, journal, created) && |g.stages| == |plan| && RenamePossible(t, Target(plan[i]), Backup(i))
    ensures var u, flagged, moved :=
              Renamed(t, Target(plan[i]), Backup(i)), journal[|journal| - 1 := JournalEntry(i, true, false)],
              g.(stages := g.stages[i := Moved]);
            && Recoverable(plan, u) && Undoable(plan, moved, u, flagged, created) && InChange(plan, moved, u, flagged, created, i)
            && IsDir(u, Parent(Target(plan[i]))) && IsDir(u, Parent(Backup(i)))
            && Backup(i) in u && u[Backup(i)] == File(plan[i].before.value)
  {
    hide Undoable, Recoverable, SlotIs, Renamed, RenamePossible, DiffersAt;
    NotBlocked(plan, g, t, journal, created, i);
    MoveAsideSlot(plan[i], i, t);
    BackupReads(plan[i], i, Renamed(t, Target(plan[i]), Backup(i)));
    MovedUndoable(plan, g, t, Renamed(t, Target(plan[i]), Backup(i)), journal, created, JournalEntry(i, true, false));
  }

  // Syncs and checks a backup that is in place; nothing but a fault makes this fail.
  method ConfirmBackup(disk: Disk, c: Change, i: nat) returns (ok: bool)
    requires disk.log != [] && disk.log[|disk.log| - 1] == OtherOp
    requires IsDir(disk.tree, Parent(Target(c))) && IsDir(disk.tree, Parent(Backup(i)))
    requires c.before.Some? && Backup(i) in disk.tree && disk.tree[Backup(i)] == File(c.before.value)
    modifies disk`log
    ensures old(disk.log) <= disk.log && UnsyncedDir(disk.log).None?
    ensures !ok ==> disk.MadeToFail(old(disk.log))
  {
    ok := disk.SyncRename(Target(c), Backup(i));
    if !ok { return; }
    var kept := disk.ReadPrivate(Backup(i));
    if kept != Read(c.before) { return false; }
    ok := disk.Check();
  }

  // The same for a target that is in place.
  method ConfirmTarget(disk: Disk, c: Change, i: nat) returns (ok: bool)
    requires disk.log != [] && disk.log[|disk.log| - 1] == OtherOp
    requires IsDir(disk.tree, Parent(Target(c))) && IsDir(disk.tree, Parent(Staged(i)))
    requires Capture(disk.tree, c.path) == Read(c.final)
    modifies disk`log
    ensures old(disk.log) <= disk.log && UnsyncedDir(disk.log).None?
    ensures !ok ==> disk.MadeToFail(old(disk.log))
  {
    hide Capture;
    ok := disk.SyncRename(Staged(i), Target(c));
    if !ok { return; }
    var now := disk.CaptureFile(c.path);
    if now != Read(c.final) { return false; }
    ok := disk.Check();
  }

  /** Moves the original to its backup, sets the journal flag, syncs and checks the backup. */
  method MoveAside(disk: Disk, plan: Plan, i: nat, journal0: seq<JournalEntry>, created: seq<Path>, ghost g0: Progress)
    returns (ok: bool, journal: seq<JournalEntry>, ghost g: Progress)
    requires InChange(plan, g0, disk.tree, journal0, created, i) && journal0[|journal0| - 1] == JournalEntry(i, false, false)
    requires plan[i].before.Some? && g0.stages[i] == Before
    modifies disk
    ensures old(disk.Whole()) ==> disk.Whole()
    ensures old(disk.log) <= disk.log && disk.Kept(plan, old(disk.moments))
    ensures g.t0 == g0.t0 && Undoable(plan, g, disk.tree, journal, created)
    ensures g.leaked.None? && UnsyncedDir(disk.log).None?
    ensures ok ==> InChange(plan, g, disk.tree, journal, created, i) && g.stages[i] == Moved
                   && journal[|journal| - 1] == JournalEntry(i, true, false)
    ensures !ok ==> disk.MadeToFail(old(disk.log))
  {
    journal, g := journal0, g0;
    MovedAside(plan, g, disk.tree, journal, created, i);
    hide Disk.Whole, InChange, Undoable, Recoverable, Renamed, RenamePossible;
    ok := disk.Rename(Target(plan[i]), Backup(i));
    if !ok { return; }
    journal := journal[|journal| - 1 := JournalEntry(i, true, false)];
    g := g.(stages := g.stages[i := Moved]);
    ok := ConfirmBackup(disk, plan[i], i);
  }

  lemma BackupReads(c: Change, i: nat, t: Tree)
    requires c.Valid() && SlotIs(c, t, i, Moved)
    ensures c.before.Some? && Backup(i) in t && t[Backup(i)] == File(c.before.value)
  {
  }

  lemma TargetReads(c: Change, i: nat, t: Tree)
    requires c.Valid() && !Blocked(t, c.path)
    ensures SlotIs(c, t, i, Before) ==> Capture(t, c.path) == Read(c.before)
    ensures SlotIs(c, t, i, Installed) ==> Capture(t, c.path) == Read(c.final)
    ensures SlotIs(c, t, i, Moved) ==> Capture(t, c.path) == Read(None)
  {
  }

  // The state after the install rename, which is where the change ends.
  lemma PutInPlace(plan: Plan, g: Progress, t: Tree, journal: seq<JournalEntry>, created: seq<Path>, i: nat)
    requires InChange(plan, g, t, journal, created, i) && plan[i].Writes()
    requires journal[|journal| - 1] == JournalEntry(i, plan[i].op.Update?, false)
    requires g.stages[i] == if plan[i].op.Update? then Moved else Before
    ensures Undoable(plan, g, t, journal, created) && |g.stages| == |plan| && RenamePossible(t, Staged(i), Target(plan[i]))
    ensures var u, flagged, placed :=
              Renamed(t, Staged(i), Target(plan[i])), journal[|journal| - 1 := JournalEntry(i, plan[i].op.Update?, true)],
              g.(stages := g.stages[i := Installed]);
            && Recoverable(plan, u) && Undoable(plan, placed, u, flagged, created) && InChange(plan, placed, u, flagged, created, i)
            && IsDir(u, Parent(Target(plan[i]))) && IsDir(u, Parent(Staged(i)))
            && Capture(u, plan[i].path) == Read(plan[i].final)
  {
    hide Undoable, Recoverable, SlotIs, Renamed, RenamePossible, DiffersAt, Blocked, Capture;
    NotBlocked(plan, g, t, journal, created, i);
    InstallSlot(plan[i], i, t);
    var u := Renamed(t, Staged(i), Target(plan[i]));
    var entry := JournalEntry(i, plan[i].op.Update?, true);
    MovedUndoable(plan, g, t, u, journal, created, entry);
    InstalledParent(plan[i], i, u);
    NotBlocked(plan, g.(stages := g.stages[i := Installed]), u, journal[|journal| - 1 := entry], created, i);
    TargetReads(plan[i], i, u);
  }

  /** Renames the staged content onto the target, sets the journal flag, syncs and checks the target. */
  method Install(disk: Disk, plan: Plan, i: nat, journal0: seq<JournalEntry>, created: seq<Path>, ghost g0: Progress)
    returns (ok: bool, journal: seq<JournalEntry>, ghost g: Progress)
    requires InChange(plan, g0, disk.tree, journal0, created, i) && plan[i].Writes()
    requires journal0[|journal0| - 1] == JournalEntry(i, plan[i].op.Update?, false)
    requires g0.stages[i] == if plan[i].op.Update? then Moved else Before
    modifies disk
    ensures old(disk.Whole()) ==> disk.Whole()
    ensures old(disk.log) <= disk.log && disk.Kept(plan, old(disk.moments))
    ensures g.t0 == g0.t0 && Undoable(plan, g, disk.tree, journal, created)
    ensures g.leaked.None? && UnsyncedDir(disk.log).None?
    ensures ok ==> InChange(plan, g, disk.tree, journal, created, i) && g.stages[i] == Installed
    ensures !ok ==> disk.MadeToFail(old(disk.log))
  {
    journal, g := journal0, g0;
    PutInPlace(plan, g, disk.tree, journal, created, i);
    hide Disk.Whole, InChange, Undoable, Recoverable, Renamed, RenamePossible, Capture;
    ok := disk.Rename(Staged(i), Target(plan[i]));
    if !ok { return; }
    journal := journal[|journal| - 1 := JournalEntry(i, plan[i].op.Update?, true)];
    g := g.(stages := g.stages[i := Installed]);
    ok := ConfirmTarget(disk, plan[i], i);
  }

  lemma InstalledParent(c: Change, i: nat, t: Tree)
    requires SlotIs(c, t, i, Installed)
    ensures IsDir(t, Parent(Target(c)))
  {
  }
}
