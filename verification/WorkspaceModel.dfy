/** Plans, directory trees and the per-target states a transaction can leave behind. */
module WorkspaceModel {
  import opened Options

  type Segments = seq<string>

  // Private names live under the transaction directory, whose name no target shares; `completed`
  // tells the namespace of committed transactions from the active one.
  datatype Entry = Directory | Record | BackupOf(index: nat) | StagedOf(index: nat)
  datatype Path = Public(segs: Segments) | Private(completed: bool, entry: Entry)

  datatype Content = Content(bytes: seq<nat>, mode: nat)
  // The recovery record is either complete or torn by an interrupted write.
  datatype Node = Dir | File(content: Content) | RecoveryRecord(complete: bool)
  type Tree = map<Path, Node>

  datatype Operation = Create | Update | Delete | Assert
  datatype Change = Change(path: Segments, op: Operation, before: Option<Content>, final: Option<Content>) {
    predicate Valid() {
      && path != []
      && match op
         case Create => before.None? && final.Some?
         case Update => before.Some? && final.Some?
         case Delete => before.Some? && final.None?
         case Assert => before == final
    }

    predicate Writes() { op.Create? || op.Update? }
  }

  type Plan = seq<Change>

  // Targets are distinct and none lies below another.
  ghost predicate ValidPlan(plan: Plan) {
    && (forall i :: 0 <= i < |plan| ==> plan[i].Valid())
    && (forall i, j :: 0 <= i < |plan| && 0 <= j < |plan| && i != j ==> !(plan[i].path <= plan[j].path))
  }

  function Parent(p: Path): Path {
    match p
    case Public(segs) => if segs == [] then p else Public(segs[..|segs| - 1])
    case Private(c, e) => if e.Directory? then Public([]) else Private(c, Directory)
  }

  predicate IsDir(t: Tree, p: Path) { p in t && t[p].Dir? }

  // Every present path has its parent directory, up to the root.
  ghost predicate Closed(t: Tree) {
    IsDir(t, Public([])) && forall p {:trigger Parent(p)} :: p in t ==> IsDir(t, Parent(p))
  }

  // ---- reading ---------------------------------------------------------------------------

  datatype Captured = Unreadable | Read(file: Option<Content>)

  predicate Blocked(t: Tree, path: Segments) {
    exists k :: 0 < k < |path| && Public(path[..k]) in t && !t[Public(path[..k])].Dir?
  }

  function Capture(t: Tree, path: Segments): Captured {
    if Blocked(t, path) then Unreadable
    else if Public(path) !in t then Read(None)
    else if t[Public(path)].File? then Read(Some(t[Public(path)].content))
    else Unreadable
  }

  predicate Holds(t: Tree, p: Path, file: Option<Content>) {
    if file.Some? then p in t && t[p] == File(file.value) else p !in t
  }

  ghost predicate Unblocked(plan: Plan, t: Tree) {
    forall i :: 0 <= i < |plan| ==> !Blocked(t, plan[i].path)
  }

  ghost predicate AllBefore(plan: Plan, t: Tree) {
    forall i :: 0 <= i < |plan| ==> Capture(t, plan[i].path) == Read(plan[i].before)
  }

  ghost predicate AllFinal(plan: Plan, t: Tree) {
    forall i :: 0 <= i < |plan| ==> Capture(t, plan[i].path) == Read(plan[i].final)
  }

  // ---- changing --------------------------------------------------------------------------

  predicate RenamePossible(t: Tree, a: Path, b: Path) {
    a in t && t[a].File? && IsDir(t, Parent(b)) && (b in t ==> t[b].File?)
  }

  function Renamed(t: Tree, a: Path, b: Path): Tree
    requires a in t
  {
    (t - {a})[b := t[a]]
  }

  predicate RemovePossible(t: Tree, p: Path) {
    p in t && (t[p].Dir? ==> forall q :: q in t ==> q == p || Parent(q) != p)
  }

  predicate Active(t: Tree) { Private(false, Directory) in t }

  predicate Sealed(t: Tree) { Private(false, Record) in t && t[Private(false, Record)] == RecoveryRecord(true) }

  predicate Torn(t: Tree) { Private(false, Record) in t && t[Private(false, Record)] != RecoveryRecord(true) }

  // The transaction directory moved to the completed namespace.
  function Finalized(t: Tree): Tree {
    map p | p in (set q | q in t :: Finish(q)) && (p.Private? ==> p.completed) ::
      if p.Private? && Private(false, p.entry) in t then t[Private(false, p.entry)] else t[p]
  }

  function Finish(p: Path): Path { if p.Private? then Private(true, p.entry) else p }

  function PublicPart(t: Tree): Tree { map p | p in t && p.Public? :: t[p] }

  // ---- per-target states -----------------------------------------------------------------

  function Target(c: Change): Path { Public(c.path) }

  function Backup(i: nat): Path { Private(false, BackupOf(i)) }

  function Staged(i: nat): Path { Private(false, StagedOf(i)) }

  datatype Stage = Before | Moved | Installed

  predicate SlotIs(c: Change, t: Tree, i: nat, stage: Stage) {
    match stage
    case Before => Holds(t, Target(c), c.before) && Backup(i) !in t
    case Moved => (c.op.Update? || c.op.Delete?) && Target(c) !in t && Holds(t, Backup(i), c.before)
    case Installed =>
      c.Writes() && Holds(t, Target(c), c.final) && Holds(t, Backup(i), c.before) && IsDir(t, Parent(Target(c)))
  }

  predicate SlotSafe(c: Change, t: Tree, i: nat) {
    SlotIs(c, t, i, Before) || SlotIs(c, t, i, Moved) || SlotIs(c, t, i, Installed)
  }

  ghost predicate Safe(plan: Plan, t: Tree) {
    Unblocked(plan, t) && forall i :: 0 <= i < |plan| ==> SlotSafe(plan[i], t, i)
  }

  /** What every moment of an apply looks like, so that the process may stop there: no transaction and
      a complete target set, a sealed transaction with every target in a known state, or an unsealed
      one that has not touched any target. */
  ghost predicate Recoverable(plan: Plan, t: Tree) {
    IsDir(t, Public([])) &&
    if !Active(t) then AllBefore(plan, t) || AllFinal(plan, t)
    else if Sealed(t) then IsDir(t, Private(false, Directory)) && Safe(plan, t) && ParentsPresent(plan, t)
    else AllBefore(plan, t)
  }

  // The directory of every file that existed before is there, so the file can be put back.
  ghost predicate ParentsPresent(plan: Plan, t: Tree) {
    forall i :: 0 <= i < |plan| && plan[i].before.Some? ==> IsDir(t, Parent(Target(plan[i])))
  }

  /** No original is ever lost: in a recoverable moment each pre-existing file is at its target or at
      its backup, unless the transaction has been committed and closed. */
  lemma OriginalsPreserved(plan: Plan, t: Tree, i: nat)
    requires ValidPlan(plan) && Recoverable(plan, t) && i < |plan| && plan[i].before.Some?
    ensures Holds(t, Target(plan[i]), plan[i].before) || Holds(t, Backup(i), plan[i].before)
            || (!Active(t) && AllFinal(plan, t))
  {
    if Active(t) && Sealed(t) {
      assert SlotSafe(plan[i], t, i);
    }
  }

  // ---- the shape of the tree while a transaction runs ------------------------------------

  // `t` is `t0` with every target at its stage and the directories `dirs` added.
  ghost predicate Shape(plan: Plan, t0: Tree, t: Tree, stages: seq<Stage>, dirs: set<Path>) {
    && |stages| == |plan|
    && (forall i :: 0 <= i < |plan| ==> SlotIs(plan[i], t, i, stages[i]))
    && (forall p :: p in dirs ==> p.Public? && p !in t0 && IsDir(t, p))
    && (forall p: Path :: p.Public? && !IsTarget(plan, p) ==> (p in t <==> p in t0 || p in dirs))
    && (forall p: Path :: p.Public? && !IsTarget(plan, p) && p in t0 ==> p in t && t[p] == t0[p])
    && (forall p :: p in dirs ==> !IsTarget(plan, p))
    && IsDir(t, Private(false, Directory))
    && Sealed(t)
  }

  ghost predicate IsTarget(plan: Plan, p: Path) {
    exists i :: 0 <= i < |plan| && p == Target(plan[i])
  }

  ghost predicate GoodStart(plan: Plan, t0: Tree) {
    ValidPlan(plan) && Closed(t0) && AllBefore(plan, t0)
  }

  lemma ChangeValid(plan: Plan, i: nat)
    requires ValidPlan(plan) && i < |plan|
    ensures plan[i].Valid()
  {
  }

  // A directory above a target is not itself a target.
  lemma AncestorIsNoTarget(plan: Plan, i: nat, k: nat)
    requires ValidPlan(plan) && i < |plan| && k < |plan[i].path|
    ensures !IsTarget(plan, Public(plan[i].path[..k]))
  {
    var above := plan[i].path[..k];
    assert above <= plan[i].path && |above| < |plan[i].path|;
    forall j | 0 <= j < |plan| ensures Public(above) != Target(plan[j]) {
      if j != i {
        assert !(plan[j].path <= plan[i].path);
      }
    }
  }

  lemma ShapeUnblocked(plan: Plan, t0: Tree, t: Tree, stages: seq<Stage>, dirs: set<Path>)
    requires GoodStart(plan, t0) && Shape(plan, t0, t, stages, dirs)
    ensures Unblocked(plan, t)
  {
    hide SlotIs, IsTarget, ValidPlan;
    forall i | 0 <= i < |plan| ensures !Blocked(t, plan[i].path) {
      assert Capture(t0, plan[i].path) == Read(plan[i].before);
      assert !Blocked(t0, plan[i].path);
      forall k | 0 < k < |plan[i].path| && Public(plan[i].path[..k]) in t ensures IsDir(t, Public(plan[i].path[..k])) {
        AncestorIsNoTarget(plan, i, k);
        assert Public(plan[i].path[..k]) in t0 || Public(plan[i].path[..k]) in dirs;
      }
    }
  }

  lemma DirIsNoTarget(plan: Plan, t0: Tree, p: Path)
    requires AllBefore(plan, t0) && IsDir(t0, p)
    ensures !IsTarget(plan, p)
  {
    forall i | 0 <= i < |plan| ensures p != Target(plan[i]) {
      assert Capture(t0, plan[i].path) == Read(plan[i].before);
    }
  }

  lemma OldDirKept(plan: Plan, t0: Tree, t: Tree, stages: seq<Stage>, dirs: set<Path>, p: Path)
    requires GoodStart(plan, t0) && Shape(plan, t0, t, stages, dirs) && p.Public? && IsDir(t0, p)
    ensures IsDir(t, p)
  {
    hide SlotIs, ValidPlan, AllBefore, Closed, IsTarget;
    DirIsNoTarget(plan, t0, p);
  }

  lemma ParentPresent(plan: Plan, t0: Tree, t: Tree, stages: seq<Stage>, dirs: set<Path>, i: nat)
    requires GoodStart(plan, t0) && Shape(plan, t0, t, stages, dirs) && i < |plan| && plan[i].before.Some?
    ensures IsDir(t, Parent(Target(plan[i])))
  {
    hide Shape, ValidPlan, Blocked;
    assert Capture(t0, plan[i].path) == Read(plan[i].before);
    assert Target(plan[i]) in t0;
    OldDirKept(plan, t0, t, stages, dirs, Parent(Target(plan[i])));
  }

  lemma ShapeParents(plan: Plan, t0: Tree, t: Tree, stages: seq<Stage>, dirs: set<Path>)
    requires GoodStart(plan, t0) && Shape(plan, t0, t, stages, dirs)
    ensures ParentsPresent(plan, t)
  {
    hide Shape, GoodStart;
    forall i | 0 <= i < |plan| && plan[i].before.Some? ensures IsDir(t, Parent(Target(plan[i]))) {
      ParentPresent(plan, t0, t, stages, dirs, i);
    }
  }

  lemma StageSafe(c: Change, t: Tree, i: nat, stage: Stage)
    requires SlotIs(c, t, i, stage)
    ensures SlotSafe(c, t, i)
  {
  }

  lemma ShapeSafe(plan: Plan, t0: Tree, t: Tree, stages: seq<Stage>, dirs: set<Path>)
    requires Shape(plan, t0, t, stages, dirs)
    ensures forall i :: 0 <= i < |plan| ==> SlotSafe(plan[i], t, i)
  {
    hide SlotIs, SlotSafe, IsTarget;
    forall i | 0 <= i < |plan| ensures SlotSafe(plan[i], t, i) {
      StageSafe(plan[i], t, i, stages[i]);
    }
  }

  lemma ShapeRecoverable(plan: Plan, t0: Tree, t: Tree, stages: seq<Stage>, dirs: set<Path>)
    requires GoodStart(plan, t0) && Shape(plan, t0, t, stages, dirs)
    ensures Recoverable(plan, t) && Safe(plan, t)
  {
    assert IsDir(t0, Public([])) by { hide ValidPlan; }
    hide SlotIs, SlotSafe, IsTarget, Unblocked, ParentsPresent, GoodStart, AllBefore, AllFinal;
    OldDirKept(plan, t0, t, stages, dirs, Public([]));
    ShapeUnblocked(plan, t0, t, stages, dirs);
    ShapeParents(plan, t0, t, stages, dirs);
    ShapeSafe(plan, t0, t, stages, dirs);
  }

  lemma OtherSlotKept(plan: Plan, t: Tree, t': Tree, i: nat, j: nat, stage: Stage)
    requires ValidPlan(plan) && i < |plan| && j < |plan| && i != j
    requires SlotIs(plan[j], t, j, stage)
    requires forall p :: p != Target(plan[i]) && p != Backup(i) && p != Staged(i) ==> (p in t <==> p in t')
    requires forall p :: p != Target(plan[i]) && p != Backup(i) && p != Staged(i) && p in t ==> t[p] == t'[p]
    ensures SlotIs(plan[j], t', j, stage)
  {
    assert Target(plan[i]) != Target(plan[j]);
    AncestorIsNoTarget(plan, j, |plan[j].path| - 1);
    assert IsTarget(plan, Target(plan[i]));
  }

  // Moving target i between its stages leaves every other part of the shape alone.
  lemma ShapeMove(plan: Plan, t0: Tree, t: Tree, t': Tree, stages: seq<Stage>, dirs: set<Path>, i: nat, stage: Stage)
    requires ValidPlan(plan) && Shape(plan, t0, t, stages, dirs) && i < |plan|
    requires forall p :: p != Target(plan[i]) && p != Backup(i) && p != Staged(i) ==> (p in t <==> p in t')
    requires forall p :: p != Target(plan[i]) && p != Backup(i) && p != Staged(i) && p in t ==> t[p] == t'[p]
    requires SlotIs(plan[i], t', i, stage)
    ensures Shape(plan, t0, t', stages[i := stage], dirs)
  {
    forall j | 0 <= j < |plan| ensures SlotIs(plan[j], t', j, stages[i := stage][j]) {
      if j != i {
        OtherSlotKept(plan, t, t', i, j, stages[j]);
      }
    }
    assert IsTarget(plan, Target(plan[i]));
  }

  lemma ShapeMkdir(plan: Plan, t0: Tree, t: Tree, stages: seq<Stage>, dirs: set<Path>, p: Path)
    requires Shape(plan, t0, t, stages, dirs) && p.Public? && p !in t && !IsTarget(plan, p)
    ensures Shape(plan, t0, t[p := Dir], stages, dirs + {p})
  {
    forall j | 0 <= j < |plan| ensures SlotIs(plan[j], t[p := Dir], j, stages[j]) {
      assert IsTarget(plan, Target(plan[j]));
    }
  }

  lemma ShapeRmdir(plan: Plan, t0: Tree, t: Tree, stages: seq<Stage>, dirs: set<Path>, p: Path)
    requires ValidPlan(plan) && Shape(plan, t0, t, stages, dirs) && p in dirs && RemovePossible(t, p)
    ensures Shape(plan, t0, t - {p}, stages, dirs - {p})
  {
    forall j | 0 <= j < |plan| ensures SlotIs(plan[j], t - {p}, j, stages[j]) {
      assert IsTarget(plan, Target(plan[j])) && SlotIs(plan[j], t, j, stages[j]);
      if stages[j] == Installed {
        assert plan[j].Valid() && Target(plan[j]) in t && Target(plan[j]) != p;
      }
    }
  }

  // With every target back at its first stage and no directory left over, the public tree is as it was.
  lemma ShapeRestored(plan: Plan, t0: Tree, t: Tree, stages: seq<Stage>)
    requires GoodStart(plan, t0) && Shape(plan, t0, t, stages, {})
    requires forall i :: 0 <= i < |plan| ==> stages[i] == Before
    ensures PublicPart(t) == PublicPart(t0)
  {
    forall p: Path | p.Public? ensures SameAt(t, t0, p) {
      RestoredAt(plan, t0, t, stages, p);
    }
    assert forall p: Path :: p.Public? ==> SameAt(t, t0, p);
    PublicEqual(t, t0);
  }

  ghost predicate SameAt(t: Tree, u: Tree, p: Path) {
    (p in t <==> p in u) && (p in t ==> t[p] == u[p])
  }

  lemma PublicEqual(t: Tree, u: Tree)
    requires forall p: Path :: p.Public? ==> SameAt(t, u, p)
    ensures PublicPart(t) == PublicPart(u)
  {
    forall p ensures p in PublicPart(t) <==> p in PublicPart(u)
      ensures p in PublicPart(t) ==> PublicPart(t)[p] == PublicPart(u)[p]
    {
      if p.Public? { assert SameAt(t, u, p); }
    }
  }

  lemma RestoredAt(plan: Plan, t0: Tree, t: Tree, stages: seq<Stage>, p: Path)
    requires GoodStart(plan, t0) && Shape(plan, t0, t, stages, {}) && p.Public?
    requires forall i :: 0 <= i < |plan| ==> stages[i] == Before
    ensures SameAt(t, t0, p)
  {
    if IsTarget(plan, p) {
      var i :| 0 <= i < |plan| && p == Target(plan[i]);
      assert SlotIs(plan[i], t, i, Before);
      assert Capture(t0, plan[i].path) == Read(plan[i].before);
    }
  }

  // ---- the public part decides what is captured ------------------------------------------

  lemma PublicSame(t: Tree, u: Tree)
    requires PublicPart(t) == PublicPart(u)
    ensures forall p: Path :: p.Public? ==> SameAt(t, u, p)
  {
    forall p: Path | p.Public? ensures SameAt(t, u, p) {
      assert p in PublicPart(t) <==> p in t;
      assert p in PublicPart(u) <==> p in u;
      if p in t { assert PublicPart(t)[p] == PublicPart(u)[p]; }
    }
  }

  lemma CapturePublic(t: Tree, u: Tree, path: Segments)
    requires forall p: Path :: p.Public? ==> SameAt(t, u, p)
    ensures Capture(t, path) == Capture(u, path)
  {
    forall k | 0 < k < |path| ensures SameAt(t, u, Public(path[..k])) { }
    assert SameAt(t, u, Public(path));
  }

  lemma PublicKeepsStates(plan: Plan, t: Tree, u: Tree)
    requires PublicPart(t) == PublicPart(u)
    ensures AllBefore(plan, t) <==> AllBefore(plan, u)
    ensures AllFinal(plan, t) <==> AllFinal(plan, u)
    ensures ParentsPresent(plan, t) <==> ParentsPresent(plan, u)
    ensures Unblocked(plan, t) <==> Unblocked(plan, u)
  {
    PublicSame(t, u);
    forall i | 0 <= i < |plan| ensures Capture(t, plan[i].path) == Capture(u, plan[i].path)
      ensures IsDir(t, Parent(Target(plan[i]))) <==> IsDir(u, Parent(Target(plan[i])))
      ensures Blocked(t, plan[i].path) <==> Blocked(u, plan[i].path)
    {
      CapturePublic(t, u, plan[i].path);
      assert SameAt(t, u, Parent(Target(plan[i])));
      forall k | 0 < k < |plan[i].path| ensures SameAt(t, u, Public(plan[i].path[..k])) { }
    }
  }

  lemma ShapeAllBefore(plan: Plan, t0: Tree, t: Tree, stages: seq<Stage>, dirs: set<Path>)
    requires GoodStart(plan, t0) && Shape(plan, t0, t, stages, dirs)
    requires forall i :: 0 <= i < |stages| ==> stages[i] == Before
    ensures AllBefore(plan, t)
  {
    ShapeUnblocked(plan, t0, t, stages, dirs);
    forall i | 0 <= i < |plan| ensures Capture(t, plan[i].path) == Read(plan[i].before) {
      assert SlotIs(plan[i], t, i, Before);
    }
  }

  // A transaction whose targets are all as before may lose any of its private files.
  lemma UntouchedRecoverable(plan: Plan, t: Tree)
    requires AllBefore(plan, t) && ParentsPresent(plan, t) && IsDir(t, Public([]))
    requires forall i :: 0 <= i < |plan| ==> Backup(i) !in t
    requires Active(t) ==> IsDir(t, Private(false, Directory))
    ensures Recoverable(plan, t)
  {
    forall i | 0 <= i < |plan| ensures SlotIs(plan[i], t, i, Before) && !Blocked(t, plan[i].path) {
      assert Capture(t, plan[i].path) == Read(plan[i].before);
    }
  }
}
