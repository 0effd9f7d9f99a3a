/** The union-find of internal/schemadoc/diagram.go: path halving, and the least name as root. */
module SchemaForest {
  import opened SortedNames

  type Parents = map<Name, Name>

  // Every parent is a member, and smaller than its child unless that is a root.
  ghost predicate Forest(p: Parents) {
    forall x {:trigger Up(p, x)} :: x in p ==> Up(p, x) in p && AtMost(Up(p, x), x)
  }

  function Up(p: Parents, x: Name): Name { if x in p then p[x] else x }

  lemma UpdateKeeps(p: Parents, x: Name, v: Name)
    requires Forest(p) && (v in p || v == x) && AtMost(v, x)
    ensures Forest(p[x := v]) && Up(p[x := v], x) == v
    ensures forall y {:trigger Up(p[x := v], y)} :: y != x ==> Up(p[x := v], y) == Up(p, y)
  {
    hide Less;
    var q := p[x := v];
    forall y | y in q ensures Up(q, y) in q && AtMost(Up(q, y), y) {
      assert y != x ==> Up(q, y) == Up(p, y);
    }
  }

  // The members below a name: what makes every climb end.
  ghost function Below(p: Parents, x: Name): set<Name> { set y | y in p && Less(y, x) }

  lemma ParentIsBelow(p: Parents, x: Name)
    requires Forest(p) && x in p && Up(p, x) != x
    ensures Below(p, Up(p, x)) < Below(p, x) && |Below(p, Up(p, x))| < |Below(p, x)|
  {
    var q := Up(p, x);
    forall y | y in Below(p, q) ensures y in Below(p, x) {
      LessTransitive(y, q, x);
    }
    LessIrreflexive(q);
    assert q in Below(p, x) && q !in Below(p, q);
    Smaller(Below(p, q), Below(p, x));
  }

  lemma Smaller(a: set<Name>, b: set<Name>)
    requires a < b
    ensures |a| < |b|
  {
    assert b == a + (b - a);
    assert |b| == |a| + |b - a|;
  }

  ghost function Root(p: Parents, x: Name): (r: Name)
    requires Forest(p) && x in p
    ensures r in p && Up(p, r) == r
    decreases |Below(p, x)|
  {
    if Up(p, x) == x then x
    else
      ParentIsBelow(p, x);
      Root(p, Up(p, x))
  }

  lemma {:induction false} RootIsLeast(p: Parents, x: Name)
    requires Forest(p) && x in p
    ensures AtMost(Root(p, x), x)
    decreases |Below(p, x)|
  {
    if Up(p, x) != x {
      ParentIsBelow(p, x);
      RootIsLeast(p, Up(p, x));
      AtMostTransitive(Root(p, x), Up(p, x), x);
    }
  }

  lemma RootStep(p: Parents, x: Name)
    requires Forest(p) && x in p
    ensures Up(p, x) in p && AtMost(Up(p, x), x) && Root(p, x) == if Up(p, x) == x then x else Root(p, Up(p, x))
  {
  }

  // q has p's members and gives each of them the same root.
  ghost predicate SameRoots(p: Parents, q: Parents)
    requires Forest(p) && Forest(q)
  {
    p.Keys <= q.Keys && forall y {:trigger Root(q, y)} :: y in p ==> Root(q, y) == Root(p, y)
  }

  lemma SameRootsTransitive(p: Parents, q: Parents, r: Parents)
    requires Forest(p) && Forest(q) && Forest(r) && SameRoots(p, q) && SameRoots(q, r)
    ensures SameRoots(p, r)
  {
  }

  // Redirecting members within their own tree, roots apart, moves nobody to another root.
  lemma {:induction false} RedirectKeeps(p: Parents, q: Parents, x: Name)
    requires Forest(p) && Forest(q) && p.Keys == q.Keys && x in p
    requires forall y {:trigger Up(q, y)} :: y in p ==> (Up(q, y) == y <==> Up(p, y) == y)
    requires forall y {:trigger Up(q, y)} :: y in p ==> Up(q, y) in p && Root(p, Up(q, y)) == Root(p, y)
    ensures Root(q, x) == Root(p, x)
    decreases |Below(q, x)|
  {
    hide Root, Below, AtMost, Forest;
    RootStep(q, x);
    RootStep(p, x);
    if Up(q, x) != x {
      ParentIsBelow(q, x);
      RedirectKeeps(p, q, Up(q, x));
    }
  }

  // What halving does at x: the grandparent is a smaller member of the same tree.
  lemma Grandparent(p: Parents, x: Name)
    requires Forest(p) && x in p && Up(p, x) != x
    ensures var g := Up(p, Up(p, x)); g in p && g != x && Less(g, x) && Root(p, g) == Root(p, x)
    ensures Forest(p[x := Up(p, Up(p, x))])
  {
    hide Root, Below;
    RootStep(p, x);
    RootStep(p, Up(p, x));
    var g := Up(p, Up(p, x));
    if g != Up(p, x) {
      LessTransitive(g, Up(p, x), x);
    }
    LessIrreflexive(x);
    UpdateKeeps(p, x, g);
  }

  lemma HalvingKeeps(p: Parents, x: Name)
    requires Forest(p) && x in p && Up(p, x) != x
    ensures var q := p[x := Up(p, Up(p, x))]; Forest(q) && q.Keys == p.Keys && SameRoots(p, q)
    ensures Root(p, Up(p, Up(p, x))) == Root(p, x)
  {
    hide Root, Below, AtMost, Forest;
    var q := p[x := Up(p, Up(p, x))];
    Grandparent(p, x);
    GrandparentBelow(p, x);
    UpdateKeeps(p, x, Up(p, Up(p, x)));
    forall y {:trigger Up(q, y)} | y in p ensures Up(q, y) in p && Root(p, Up(q, y)) == Root(p, y) && (Up(q, y) == y <==> Up(p, y) == y) {
      if y != x {
        assert Up(q, y) == Up(p, y);
        RootStep(p, y);
      }
    }
    forall y {:trigger Root(q, y)} | y in p ensures Root(q, y) == Root(p, y) {
      RedirectKeeps(p, q, y);
    }
  }

  lemma GrandparentBelow(p: Parents, x: Name)
    requires Forest(p) && x in p && Up(p, x) != x
    ensures AtMost(Up(p, Up(p, x)), x) && Up(p, Up(p, x)) != x
  {
    hide Root;
    Grandparent(p, x);
  }

  lemma HalvingDescends(p: Parents, x: Name)
    requires Forest(p) && x in p && Up(p, x) != x
    ensures |Below(p[x := Up(p, Up(p, x))], Up(p, Up(p, x)))| < |Below(p, x)|
  {
    hide Root, AtMost, Forest;
    Grandparent(p, x);
    GrandparentBelow(p, x);
    var q := p[x := Up(p, Up(p, x))];
    UpdateKeeps(p, x, Up(p, Up(p, x)));
    ParentIsBelow(q, x);
    assert Below(q, x) == Below(p, x);
  }

  // Hanging one root under another one moves its whole tree there.
  lemma {:induction false} LinkMoves(p: Parents, up: Name, down: Name, x: Name)
    requires Forest(p) && up in p && down in p && Up(p, up) == up && Up(p, down) == down && Less(up, down) && x in p
    ensures Forest(p[down := up])
    ensures Root(p[down := up], x) == if Root(p, x) == down then up else Root(p, x)
    decreases |Below(p, x)|
  {
    hide Root, Below, Less;
    LessIrreflexive(up);
    var q := p[down := up];
    UpdateKeeps(p, down, up);
    RootStep(p, x);
    RootStep(q, x);
    RootStep(q, up);
    if x != down && Up(p, x) != x {
      ParentIsBelow(p, x);
      LinkMoves(p, up, down, Up(p, x));
    }
  }

  lemma {:induction false} AddedKeeps(p: Parents, x: Name, y: Name)
    requires Forest(p) && x !in p && y in p
    ensures Forest(p[x := x]) && Root(p[x := x], y) == Root(p, y)
    decreases |Below(p, y)|
  {
    hide Root, Below, Less;
    UpdateKeeps(p, x, x);
    RootStep(p, y);
    RootStep(p[x := x], y);
    if Up(p, y) != y {
      ParentIsBelow(p, y);
      AddedKeeps(p, x, Up(p, y));
    }
  }

  // The forest with x in it, as a tree of its own if it was not there.
  function With(p: Parents, x: Name): Parents { if x in p then p else p[x := x] }

  lemma WithKeeps(p: Parents, x: Name)
    requires Forest(p)
    ensures With(p, x).Keys == p.Keys + {x}
    ensures Forest(With(p, x)) && SameRoots(p, With(p, x)) && (x !in p ==> Root(With(p, x), x) == x)
  {
    hide Root, Less;
    if x !in p {
      UpdateKeeps(p, x, x);
      forall y {:trigger Root(p[x := x], y)} | y in p ensures Root(p[x := x], y) == Root(p, y) {
        AddedKeeps(p, x, y);
      }
      RootStep(p[x := x], x);
    }
  }

  // The forest after a union, root by root.
  ghost predicate Joined(p: Parents, q: Parents, a: Name, b: Name)
    requires Forest(p) && Forest(q) && a in p && b in p
  {
    p.Keys == q.Keys &&
    var ra, rb := Root(p, a), Root(p, b);
    forall y {:trigger Root(q, y)} :: y in p ==>
      Root(q, y) == if Root(p, y) == ra || Root(p, y) == rb then (if Less(ra, rb) then ra else rb) else Root(p, y)
  }

  lemma JoinedBySelf(p: Parents, q: Parents, a: Name, b: Name)
    requires Forest(p) && Forest(q) && a in p && b in p && Root(p, a) == Root(p, b)
    requires p.Keys == q.Keys && SameRoots(p, q)
    ensures Joined(p, q, a, b)
  {
  }

  lemma LinkJoins(p: Parents, q: Parents, a: Name, b: Name, up: Name, down: Name)
    requires Forest(p) && Forest(q) && a in p && b in p && p.Keys == q.Keys && SameRoots(p, q)
    requires (up == Root(p, a) && down == Root(p, b)) || (up == Root(p, b) && down == Root(p, a))
    requires Less(up, down)
    ensures Forest(q[down := up]) && Joined(p, q[down := up], a, b)
  {
    hide Less, Below, Forest, Root, SameRoots;
    RootsAreRoots(p, q, a);
    RootsAreRoots(p, q, b);
    LessAsymmetric(up, down);
    LinkMoves(q, up, down, a);
    forall y {:trigger Root(q[down := up], y)} | y in p ensures Root(q[down := up], y) == if Root(p, y) == down then up else Root(p, y) {
      RootOf(p, q, y);
      LinkMoves(q, up, down, y);
    }
  }

  lemma RootsAreRoots(p: Parents, q: Parents, x: Name)
    requires Forest(p) && Forest(q) && x in p && p.Keys == q.Keys && SameRoots(p, q)
    ensures Root(p, x) in q && Up(q, Root(p, x)) == Root(p, x)
  {
    assert Root(q, x) == Root(p, x);
  }

  class UnionFind {
    var parent: Parents

    ghost predicate Valid()
      reads this
    {
      Forest(parent)
    }

    constructor ()
      ensures Valid() && parent == map[]
    {
      parent := map[];
    }

    method Add(x: Name)
      requires Valid()
      modifies this
      ensures Valid() && parent == With(old(parent), x)
    {
      WithKeeps(parent, x);
      if x !in parent {
        parent := parent[x := x];
      }
    }

    /** The root of x. Every other step of the climb shortens the path behind it. */
    method Find(x0: Name) returns (x: Name)
      requires Valid()
      modifies this
      ensures Valid() && parent.Keys == old(parent).Keys + {x0}
      ensures Forest(With(old(parent), x0)) && SameRoots(With(old(parent), x0), parent)
      ensures x == Root(parent, x0)
    {
      hide Below, AtMost, Forest, Root;
      Add(x0);
      x := x0;
      ghost var start := parent;
      RootStep(parent, x);
      while parent[x] != x
        invariant Valid() && parent.Keys == start.Keys && x in parent && Up(parent, x) in parent
        invariant SameRoots(start, parent) && Root(parent, x) == Root(parent, x0)
        decreases |Below(parent, x)|
      {
        ghost var before := parent;
        RootStep(parent, parent[x]);
        assert parent[parent[x]] == Up(parent, Up(parent, x));
        HalvingKeeps(before, x);
        HalvingDescends(before, x);
        parent := parent[x := parent[parent[x]]];
        SameRootsTransitive(start, before, parent);
        x := parent[x];
        RootStep(parent, x);
      }
      RootStep(parent, x);
    }

    /** Joins the two trees; the smaller name becomes the root. */
    method Union(a: Name, b: Name)
      requires Valid()
      modifies this
      ensures Valid() && parent.Keys == old(parent).Keys + {a, b}
      ensures Forest(With(With(old(parent), a), b)) && Joined(With(With(old(parent), a), b), parent, a, b)
    {
      hide Less, AtMost, Below, Forest, Root, SameRoots, Joined, With;
      ghost var was := With(With(parent, a), b);
      WithKeeps(parent, a);
      WithKeeps(With(parent, a), b);
      var ra := Find(a);
      ghost var mid := parent;
      WithKeeps(mid, b);
      WithSameRoots(With(old(parent), a), mid, b);
      var rb := Find(b);
      SameRootsTransitive(was, With(mid, b), parent);
      RootOf(was, parent, a);
      RootOf(was, parent, b);
      RootOf(With(mid, b), parent, a);
      RootOf(mid, With(mid, b), a);
      if ra == rb {
        JoinedBySelf(was, parent, a, b);
        return;
      }
      LessTotal(ra, rb);
      if Less(ra, rb) {
        LinkJoins(was, parent, a, b, ra, rb);
        parent := parent[rb := ra];
      } else {
        LinkJoins(was, parent, a, b, rb, ra);
        parent := parent[ra := rb];
      }
    }
  }

  lemma RootOf(p: Parents, q: Parents, x: Name)
    requires Forest(p) && Forest(q) && SameRoots(p, q) && x in p
    ensures x in q && Root(q, x) == Root(p, x)
  {
  }

  lemma WithSameRoots(p: Parents, q: Parents, x: Name)
    requires Forest(p) && Forest(q) && p.Keys == q.Keys && SameRoots(p, q)
    ensures Forest(With(p, x)) && Forest(With(q, x)) && SameRoots(With(p, x), With(q, x))
  {
    hide Less, Root;
    WithKeeps(p, x);
    WithKeeps(q, x);
    forall y {:trigger Root(With(q, x), y)} | y in With(p, x) ensures Root(With(q, x), y) == Root(With(p, x), y) {
      if y in p {
        assert Root(q, y) == Root(p, y);
      }
    }
  }
}
