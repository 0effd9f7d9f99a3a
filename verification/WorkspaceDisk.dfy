/** The root directory handle: every operation may fail when the fault oracle says so, and a failing
    operation changes nothing unless stated. The disk remembers every tree it went through and every
    operation it was asked for; the number of an operation is what the oracle is asked with. */
module WorkspaceDisk {
  import opened Options
  import opened WorkspaceModel

  datatype RemoveResult = Gone | Missing | Failed

  datatype DiskOp = MkdirOp(path: Path, ok: bool) | SyncOp(dir: Path, ok: bool) | OtherOp
  type Log = seq<DiskOp>

  // The directory whose creation succeeded and was the last thing to do so, because the sync of its
  // parent, which was the next and last operation, failed.
  function UnsyncedDir(log: Log): Option<Path> {
    if |log| < 2 then None
    else
      var made, synced := log[|log| - 2], log[|log| - 1];
      if made.MkdirOp? && made.ok && synced == SyncOp(Parent(made.path), false) then Some(made.path) else None
  }

  lemma FinalizedClosed(t: Tree)
    requires Closed(t) && IsDir(t, Private(false, Directory))
    ensures Closed(Finalized(t))
  {
    var u := Finalized(t);
    assert Finish(Public([])) == Public([]);
    forall p | p in u ensures IsDir(u, Parent(p)) {
      var q :| q in t && Finish(q) == p;
      assert IsDir(t, Parent(q)) && Finish(Parent(q)) == Parent(p);
    }
  }

  class Disk {
    var tree: Tree
    var log: Log
    const faults: nat -> bool
    ghost var moments: seq<Tree>

    constructor (tree: Tree, faults: nat -> bool)
      ensures this.tree == tree && log == [] && this.faults == faults && moments == []
    {
      this.tree, this.faults, log, moments := tree, faults, [], [];
    }

    // No operation from now on is made to fail.
    ghost predicate FaultFree()
      reads this
    {
      forall k :: k >= |log| ==> !faults(k)
    }

    // Operations were asked for since `from`, and the last of them was made to fail.
    ghost predicate MadeToFail(from: Log)
      reads this
    {
      from < log && faults(|log| - 1)
    }

    // The parent of everything present is a directory, now and in every moment so far.
    ghost predicate Whole()
      reads this`tree, this`moments
    {
      Closed(tree) && forall k :: 0 <= k < |moments| ==> Closed(moments[k])
    }

    // Every tree reached since `from` can be recovered from.
    ghost predicate Kept(plan: Plan, from: seq<Tree>)
      reads this`moments
    {
      from <= moments && forall k :: |from| <= k < |moments| ==> Recoverable(plan, moments[k])
    }

    // A step that only reads or asks: cancellation, root identity, guards, commit gate, fault hook.
    method Check() returns (ok: bool)
      modifies this`log
      ensures log == old(log) + [OtherOp] && ok == !faults(|old(log)|)
    {
      ok := !faults(|log|);
      log := log + [OtherOp];
    }

    method Sync(dir: Path) returns (ok: bool)
      modifies this`log
      ensures ok == (!faults(|old(log)|) && IsDir(tree, dir)) && log == old(log) + [SyncOp(dir, ok)]
    {
      ok := !faults(|log|) && IsDir(tree, dir);
      log := log + [SyncOp(dir, ok)];
    }

    method SyncRename(from: Path, to: Path) returns (ok: bool)
      modifies this`log
      ensures old(log) < log
      ensures IsDir(tree, Parent(from)) && IsDir(tree, Parent(to)) && !ok ==> MadeToFail(old(log))
      ensures |old(log)| > 0 && !old(log)[|old(log)| - 1].MkdirOp? ==> UnsyncedDir(log).None?
    {
      ok := Sync(Parent(from));
      if ok && Parent(from) != Parent(to) {
        ok := Sync(Parent(to));
      }
    }

    method CaptureFile(path: Segments) returns (file: Captured)
      modifies this`log
      ensures log == old(log) + [OtherOp]
      ensures file == if faults(|old(log)|) then Unreadable else Capture(tree, path)
    {
      var ok := Check();
      file := if ok then Capture(tree, path) else Unreadable;
    }

    method ReadPrivate(p: Path) returns (file: Captured)
      modifies this`log
      ensures log == old(log) + [OtherOp]
      ensures file == if faults(|old(log)|) then Unreadable
                      else if p !in tree then Read(None)
                      else if tree[p].File? then Read(Some(tree[p].content)) else Unreadable
    {
      var ok := Check();
      file := if !ok then Unreadable
              else if p !in tree then Read(None)
              else if tree[p].File? then Read(Some(tree[p].content)) else Unreadable;
    }

    method Rename(a: Path, b: Path) returns (ok: bool)
      modifies this
      ensures old(Whole()) ==> Whole()
      ensures log == old(log) + [OtherOp]
      ensures ok == (!faults(|old(log)|) && RenamePossible(old(tree), a, b))
      ensures ok ==> tree == Renamed(old(tree), a, b) && moments == old(moments) + [tree]
      ensures !ok ==> tree == old(tree) && moments == old(moments)
    {
      ok := Check();
      ok := ok && RenamePossible(tree, a, b);
      if ok {
        tree := Renamed(tree, a, b);
        moments := moments + [tree];
      }
    }

    method Remove(p: Path) returns (r: RemoveResult)
      requires p != Public([])
      modifies this
      ensures old(Whole()) ==> Whole()
      ensures log == old(log) + [OtherOp]
      ensures r == if faults(|old(log)|) then Failed
                   else if p !in old(tree) then Missing
                   else if RemovePossible(old(tree), p) then Gone else Failed
      ensures r.Gone? ==> tree == old(tree) - {p} && moments == old(moments) + [tree]
      ensures !r.Gone? ==> tree == old(tree) && moments == old(moments)
    {
      var ok := Check();
      r := if !ok then Failed else if p !in tree then Missing
           else if RemovePossible(tree, p) then Gone else Failed;
      if r.Gone? {
        tree := tree - {p};
        moments := moments + [tree];
      }
    }

    method Mkdir(p: Path) returns (ok: bool)
      modifies this
      ensures old(Whole()) ==> Whole()
      ensures log == old(log) + [MkdirOp(p, ok)]
      ensures ok == (!faults(|old(log)|) && p !in old(tree) && IsDir(old(tree), Parent(p)))
      ensures ok ==> tree == old(tree)[p := Dir] && moments == old(moments) + [tree]
      ensures !ok ==> tree == old(tree) && moments == old(moments)
    {
      ok := !faults(|log|) && p !in tree && IsDir(tree, Parent(p));
      log := log + [MkdirOp(p, ok)];
      if ok {
        tree := tree[p := Dir];
        moments := moments + [tree];
      }
    }

    // Creates a private file; a failing write may leave it behind with any content.
    method WritePrivate(e: Entry, node: Node) returns (ok: bool)
      requires !e.Directory? && IsDir(tree, Private(false, Directory))
      modifies this
      ensures old(Whole()) ==> Whole()
      ensures log == old(log) + [OtherOp]
      ensures moments == old(moments) + [tree]
      ensures ok ==> tree == old(tree)[Private(false, e) := node]
      ensures forall p :: p != Private(false, e) ==> (p in tree <==> p in old(tree))
      ensures forall p :: p != Private(false, e) && p in tree ==> tree[p] == old(tree)[p]
      ensures !ok ==> faults(|old(log)|)
    {
      ok := Check();
      var part: Node := *;
      if ok {
        tree := tree[Private(false, e) := node];
      } else if part.Dir? {
      } else {
        tree := tree[Private(false, e) := part];
      }
      moments := moments + [tree];
    }

    // Deletes a transaction directory; a failing deletion may have removed any part of its content.
    method RemoveAll(completed: bool) returns (ok: bool)
      modifies this
      ensures old(Whole()) ==> Whole()
      ensures log == old(log) + [OtherOp]
      ensures moments == old(moments) + [tree]
      ensures PublicPart(tree) == PublicPart(old(tree))
      ensures forall p :: p in tree ==> p in old(tree) && tree[p] == old(tree)[p]
      ensures forall p :: p in old(tree) && (p.Private? ==> p.completed != completed) ==> p in tree
      ensures !ok ==> forall p: Path :: p in old(tree) && p == Private(completed, Directory) ==> p in tree
      ensures ok ==> forall p :: p in tree && p.Private? ==> p.completed != completed
      ensures !ok ==> faults(|old(log)|)
    {
      ok := Check();
      var gone: set<Path> := *;
      var before := tree;
      if ok {
        tree := map p | p in tree && (p.Private? ==> p.completed != completed) :: tree[p];
      } else {
        tree := map p | p in tree && !(p in gone && p.Private? && p.completed == completed && !p.entry.Directory?) :: tree[p];
      }
      moments := moments + [tree];
      assert PublicPart(tree) == PublicPart(before);
    }

    method FinalizeRename() returns (ok: bool)
      requires IsDir(tree, Private(false, Directory))
      modifies this
      ensures old(Whole()) ==> Whole()
      ensures log == old(log) + [OtherOp] && ok == !faults(|old(log)|)
      ensures ok ==> tree == Finalized(old(tree)) && moments == old(moments) + [tree]
      ensures !ok ==> tree == old(tree) && moments == old(moments)
    {
      ok := Check();
      if ok {
        if Closed(tree) { FinalizedClosed(tree); }
        tree := Finalized(tree);
        moments := moments + [tree];
      }
    }
  }
}
