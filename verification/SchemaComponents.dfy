/** The table groups of internal/schemadoc/diagram.go are the connected components of the foreign keys. */
module SchemaComponents {
  import opened SortedNames
  import opened SchemaGraph
  import opened SchemaForest

  // A table and the tables its foreign keys name; "" stands for a reference that could not be read.
  datatype Table = Table(name: Name, references: seq<Name>)

  function NamesOf(tables: seq<Table>): (names: seq<Name>)
    ensures |names| == |tables| && forall i :: 0 <= i < |names| ==> names[i] == tables[i].name
  {
    seq(|tables|, i requires 0 <= i < |tables| => tables[i].name)
  }

  ghost function EdgeSet(tables: seq<Table>): Edges {
    set t, r | t in tables && r in t.references && r != "" :: (t.name, r)
  }

  method EdgesOf(tables: seq<Table>) returns (out: seq<(Name, Name)>)
    ensures forall e :: e in out <==> e in EdgeSet(tables)
  {
    out := [];
    for i := 0 to |tables|
      invariant forall e :: e in out <==> e in EdgeSet(tables[..i])
    {
      var t := tables[i];
      ghost var before := out;
      for j := 0 to |t.references|
        invariant forall e :: e in out <==> e in before || (e.0 == t.name && e.1 in t.references[..j] && e.1 != "")
      {
        if t.references[j] != "" {
          out := out + [(t.name, t.references[j])];
        }
      }
      assert t.references[..|t.references|] == t.references;
      assert tables[..i + 1] == tables[..i] + [t];
    }
    assert tables[..|tables|] == tables;
  }

  // ---- the forest reflects the edges -----------------------------------------------------

  ghost predicate Reflects(p: Parents, edges: Edges)
    requires Forest(p)
  {
    && (forall e :: e in edges ==> e.0 in p && e.1 in p && Root(p, e.0) == Root(p, e.1))
    && (forall x {:trigger Root(p, x)} :: x in p ==> Connected(edges, x, Root(p, x)))
  }

  ghost function Colour(p: Parents): Name -> Name
    requires Forest(p)
  {
    x => if Forest(p) && x in p then Root(p, x) else x
  }

  lemma SameRootIff(p: Parents, edges: Edges, x: Name, y: Name)
    requires Forest(p) && Reflects(p, edges) && x in p && y in p
    ensures Root(p, x) == Root(p, y) <==> Connected(edges, x, y)
  {
    hide Root, Forest, Connected;
    if Root(p, x) == Root(p, y) {
      assert Connected(edges, x, Root(p, x)) && Connected(edges, y, Root(p, y));
      ConnectedSymmetric(edges, y, Root(p, y));
      ConnectedTransitive(edges, x, Root(p, x), y);
    }
    if Connected(edges, x, y) {
      ConnectedSameColour(Colour(p), edges, x, y);
    }
  }

  /** The root of a table is the least name connected to it, whatever the order of the edges was. */
  lemma RootIsLeastConnected(p: Parents, edges: Edges, x: Name, y: Name)
    requires Forest(p) && Reflects(p, edges) && x in p && y in p && Connected(edges, x, y)
    ensures AtMost(Root(p, x), y) && Connected(edges, x, Root(p, x))
  {
    SameRootIff(p, edges, x, y);
    RootIsLeast(p, y);
  }

  lemma AddReflects(p: Parents, edges: Edges, a: Name)
    requires Forest(p) && Reflects(p, edges)
    ensures Forest(With(p, a)) && Reflects(With(p, a), edges)
  {
    hide Root, Forest, Connected;
    WithKeeps(p, a);
    var q := With(p, a);
    forall x {:trigger Root(q, x)} | x in q ensures Connected(edges, x, Root(q, x)) {
      if x in p {
        assert Root(q, x) == Root(p, x);
      } else {
        ConnectedToItself(edges, x);
      }
    }
    forall e | e in edges ensures Root(q, e.0) == Root(q, e.1) {
      assert Root(q, e.0) == Root(p, e.0) && Root(q, e.1) == Root(p, e.1);
    }
  }

  lemma JoinReflects(p: Parents, q: Parents, edges: Edges, a: Name, b: Name)
    requires Forest(p) && Forest(q) && a in p && b in p && Joined(p, q, a, b) && Reflects(p, edges)
    ensures Reflects(q, edges + {(a, b)})
  {
    hide Root, Forest, Connected;
    var more := edges + {(a, b)};
    forall e | e in more ensures e.0 in q && e.1 in q && Root(q, e.0) == Root(q, e.1) {
      assert Root(p, e.0) == Root(p, e.1) || e == (a, b);
    }
    forall x {:trigger Root(q, x)} | x in q ensures Connected(more, x, Root(q, x)) {
      assert Connected(edges, x, Root(p, x));
      ConnectedMonotone(edges, more, x, Root(p, x));
      RootsMeet(p, edges, a, b);
      if Root(p, x) == Root(p, a) && Root(q, x) == Root(p, b) {
        ConnectedTransitive(more, x, Root(p, a), Root(p, b));
      } else if Root(p, x) == Root(p, b) && Root(q, x) == Root(p, a) {
        ConnectedSymmetric(more, Root(p, a), Root(p, b));
        ConnectedTransitive(more, x, Root(p, b), Root(p, a));
      }
    }
  }

  lemma RootsMeet(p: Parents, edges: Edges, a: Name, b: Name)
    requires Forest(p) && Reflects(p, edges) && a in p && b in p
    ensures Connected(edges + {(a, b)}, Root(p, a), Root(p, b))
  {
    hide Root, Forest, Connected;
    var more := edges + {(a, b)};
    assert Connected(edges, a, Root(p, a)) && Connected(edges, b, Root(p, b));
    ConnectedMonotone(edges, more, a, Root(p, a));
    ConnectedMonotone(edges, more, b, Root(p, b));
    ConnectedSymmetric(more, a, Root(p, a));
    LinkedConnected(more, a, b);
    ConnectedTransitive(more, Root(p, a), a, b);
    ConnectedTransitive(more, Root(p, a), b, Root(p, b));
  }

  lemma SameRootsReflect(p: Parents, q: Parents, edges: Edges)
    requires Forest(p) && Forest(q) && p.Keys == q.Keys && SameRoots(p, q) && Reflects(p, edges)
    ensures Reflects(q, edges)
  {
    hide Root, Forest, Connected;
    forall x {:trigger Root(q, x)} | x in q ensures Connected(edges, x, Root(q, x)) {
      RootOf(p, q, x);
    }
    forall e | e in edges ensures e.0 in q && e.1 in q && Root(q, e.0) == Root(q, e.1) {
      RootOf(p, q, e.0);
      RootOf(p, q, e.1);
    }
  }

  // ---- what the groups are ---------------------------------------------------------------

  // All the listed tables connected to the first one, in order; a table listed twice appears twice.
  ghost predicate IsGroup(names: seq<Name>, edges: Edges, g: seq<Name>) {
    g != [] && Sorted(g) &&
    forall x :: multiset(g)[x] == if Connected(edges, g[0], x) then multiset(names)[x] else 0
  }

  // Larger groups first, then by the first table.
  predicate Before(g: seq<Name>, h: seq<Name>) {
    |g| > |h| || (|g| == |h| > 0 && Less(g[0], h[0]))
  }

  ghost predicate Ordered(out: seq<seq<Name>>) {
    forall i, j :: 0 <= i < j < |out| ==> Before(out[i], out[j])
  }

  ghost predicate Covers(out: seq<seq<Name>>, x: Name) {
    exists i :: 0 <= i < |out| && x in out[i]
  }

  ghost predicate IsComponents(names: seq<Name>, edges: Edges, out: seq<seq<Name>>) {
    && (forall i :: 0 <= i < |out| ==> IsGroup(names, edges, out[i]))
    && (forall x :: x in names ==> Covers(out, x))
    && Ordered(out)
  }

  /** Two listed tables are in one group exactly if the foreign keys connect them. */
  lemma SameGroupIff(names: seq<Name>, edges: Edges, out: seq<seq<Name>>, x: Name, y: Name)
    requires IsComponents(names, edges, out) && x in names && y in names
    ensures (exists i :: 0 <= i < |out| && x in out[i] && y in out[i]) <==> Connected(edges, x, y)
  {
    hide Connected, Sorted, Before;
    assert multiset(names)[x] > 0 && multiset(names)[y] > 0;
    forall i | 0 <= i < |out| && x in out[i] && y in out[i] ensures Connected(edges, x, y) {
      InGroup(names, edges, out[i], x);
      InGroup(names, edges, out[i], y);
      ConnectedSymmetric(edges, out[i][0], x);
      ConnectedTransitive(edges, x, out[i][0], y);
    }
    if Connected(edges, x, y) {
      assert Covers(out, x);
      var i :| 0 <= i < |out| && x in out[i];
      InGroup(names, edges, out[i], x);
      ConnectedTransitive(edges, out[i][0], x, y);
      assert multiset(out[i])[y] > 0;
    }
  }

  lemma InGroup(names: seq<Name>, edges: Edges, g: seq<Name>, x: Name)
    requires IsGroup(names, edges, g) && x in g
    ensures Connected(edges, g[0], x) && x in names
  {
    assert multiset(g)[x] > 0;
    assert multiset(names)[x] > 0;
  }

  lemma SameFirstSameGroup(names1: seq<Name>, names2: seq<Name>, edges: Edges, g: seq<Name>, h: seq<Name>)
    requires IsGroup(names1, edges, g) && IsGroup(names2, edges, h) && multiset(names1) == multiset(names2)
    requires g[0] in h
    ensures g == h
  {
    hide Connected;
    InGroup(names2, edges, h, g[0]);
    ConnectedSymmetric(edges, h[0], g[0]);
    forall x ensures multiset(g)[x] == multiset(h)[x] {
      if Connected(edges, g[0], x) {
        ConnectedTransitive(edges, h[0], g[0], x);
      }
      if Connected(edges, h[0], x) {
        ConnectedTransitive(edges, g[0], h[0], x);
      }
    }
    SortedUnique(g, h);
  }

  lemma GroupInOther(names1: seq<Name>, names2: seq<Name>, edges: Edges, out1: seq<seq<Name>>, out2: seq<seq<Name>>, i: nat)
    requires IsComponents(names1, edges, out1) && IsComponents(names2, edges, out2)
    requires multiset(names1) == multiset(names2) && i < |out1|
    ensures out1[i] in out2
  {
    hide Connected, Before, Sorted;
    var g := out1[i];
    InGroup(names1, edges, g, g[0]);
    assert g[0] in multiset(names2);
    assert Covers(out2, g[0]);
    var j :| 0 <= j < |out2| && g[0] in out2[j];
    SameFirstSameGroup(names1, names2, edges, g, out2[j]);
  }

  lemma {:induction false} OrderedUnique(s: seq<seq<Name>>, t: seq<seq<Name>>)
    requires Ordered(s) && Ordered(t) && (forall g :: g in s <==> g in t)
    ensures s == t
  {
    hide Less;
    if s == [] {
      SomeMember(t);
    } else {
      assert s[0] in t;
      OrderedHeads(s, t);
      assert s == [s[0]] + s[1..] && t == [t[0]] + t[1..];
      forall g ensures g in s[1..] <==> g in t[1..] {
        HeadOnce(s, g);
        HeadOnce(t, g);
      }
      OrderedUnique(s[1..], t[1..]);
    }
  }

  lemma SomeMember(t: seq<seq<Name>>)
    ensures t != [] ==> exists g :: g in t
  {
    if t != [] {
      assert t[0] in t;
    }
  }

  lemma BeforeAsymmetric(g: seq<Name>, h: seq<Name>)
    requires Before(g, h)
    ensures !Before(h, g)
  {
    if |g| == |h| {
      LessAsymmetric(g[0], h[0]);
    }
  }

  lemma OrderedHeads(s: seq<seq<Name>>, t: seq<seq<Name>>)
    requires Ordered(s) && Ordered(t) && s != [] && t != [] && s[0] in t && t[0] in s
    ensures s[0] == t[0]
  {
    hide Before;
    var j :| 0 <= j < |t| && t[j] == s[0];
    var k :| 0 <= k < |s| && s[k] == t[0];
    if j > 0 && k > 0 {
      BeforeAsymmetric(s[0], t[0]);
    }
  }

  lemma HeadOnce(s: seq<seq<Name>>, g: seq<Name>)
    requires Ordered(s) && s != []
    ensures g in s[1..] <==> g in s && g != s[0]
  {
    hide Before;
    forall i | 0 < i < |s| ensures s[i] != s[0] {
      BeforeAsymmetric(s[0], s[i]);
    }
  }

  /** The output is determined by the tables and the edges: neither the order of the tables, nor that of
      the edges, nor that of a map iteration shows in it. */
  lemma ComponentsUnique(names1: seq<Name>, names2: seq<Name>, edges: Edges, out1: seq<seq<Name>>, out2: seq<seq<Name>>)
    requires multiset(names1) == multiset(names2)
    requires IsComponents(names1, edges, out1) && IsComponents(names2, edges, out2)
    ensures out1 == out2
  {
    forall g | g in out1 ensures g in out2 {
      var i :| 0 <= i < |out1| && out1[i] == g;
      GroupInOther(names1, names2, edges, out1, out2, i);
    }
    forall g | g in out2 ensures g in out1 {
      var i :| 0 <= i < |out2| && out2[i] == g;
      GroupInOther(names2, names1, edges, out2, out1, i);
    }
    OrderedUnique(out1, out2);
  }

  // ---- computing them --------------------------------------------------------------------

  // The listed tables under a root, in listing order.
  ghost function Under(p: Parents, names: seq<Name>, r: Name): seq<Name>
    requires Forest(p)
  {
    if names == [] then []
    else
      var x := names[|names| - 1];
      Under(p, names[..|names| - 1], r) + (if x in p && Root(p, x) == r then [x] else [])
  }

  lemma {:induction false} UnderCounts(p: Parents, names: seq<Name>, r: Name, x: Name)
    requires Forest(p)
    ensures multiset(Under(p, names, r))[x] == if x in p && Root(p, x) == r then multiset(names)[x] else 0
  {
    hide Root, Forest;
    if names != [] {
      var init := names[..|names| - 1];
      UnderCounts(p, init, r, x);
      assert names == init + [names[|names| - 1]];
    }
  }

  // Groups keyed by root, for the tables seen so far.
  ghost predicate Grouped(p: Parents, names: seq<Name>, groups: map<Name, seq<Name>>)
    requires Forest(p)
  {
    forall r :: (r in groups <==> Under(p, names, r) != []) && (r in groups ==> groups[r] == Under(p, names, r))
  }

  lemma GroupMore(p: Parents, names: seq<Name>, groups: map<Name, seq<Name>>, x: Name)
    requires Forest(p) && Grouped(p, names, groups) && x in p
    ensures var r := Root(p, x);
      Grouped(p, names + [x], groups[r := (if r in groups then groups[r] else []) + [x]])
  {
    hide Root, Forest;
    var r := Root(p, x);
    var more := groups[r := (if r in groups then groups[r] else []) + [x]];
    assert (names + [x])[..|names|] == names;
    forall q ensures (q in more <==> Under(p, names + [x], q) != []) && (q in more ==> more[q] == Under(p, names + [x], q)) {
      assert Under(p, names + [x], q) == Under(p, names, q) + (if r == q then [x] else []);
    }
  }

  lemma SortedUnderIsGroup(p: Parents, names: seq<Name>, edges: Edges, r: Name)
    requires Forest(p) && Reflects(p, edges) && (forall x :: x in names ==> x in p) && Under(p, names, r) != []
    ensures IsGroup(names, edges, Sort(Under(p, names, r)))
    ensures forall x :: x in Sort(Under(p, names, r)) <==> x in names && x in p && Root(p, x) == r
  {
    hide Root, Forest, Connected, Sorted, Reflects, Under, Sort;
    var u := Under(p, names, r);
    var g := Sort(u);
    SortKeeps(u);
    assert |multiset(g)| == |multiset(u)|;
    forall x ensures multiset(g)[x] == if x in p && Root(p, x) == r then multiset(names)[x] else 0 {
      UnderCounts(p, names, r, x);
    }
    assert multiset(g)[g[0]] > 0;
    forall x ensures multiset(g)[x] == if Connected(edges, g[0], x) then multiset(names)[x] else 0 {
      if x in names {
        SameRootIff(p, edges, g[0], x);
      } else {
        assert multiset(names)[x] == 0;
      }
    }
    forall x ensures x in g <==> x in names && x in p && Root(p, x) == r {
      assert x in g <==> multiset(g)[x] > 0;
      assert x in names <==> multiset(names)[x] > 0;
    }
  }

  function InsertGroup(g: seq<Name>, out: seq<seq<Name>>): seq<seq<Name>> {
    if out == [] then [g] else if Before(g, out[0]) then [g] + out else [out[0]] + InsertGroup(g, out[1..])
  }

  lemma BeforeTransitive(a: seq<Name>, b: seq<Name>, c: seq<Name>)
    requires Before(a, b) && Before(b, c)
    ensures Before(a, c)
  {
    if |a| == |b| == |c| {
      LessTransitive(a[0], b[0], c[0]);
    }
  }

  // Groups with different first tables can be told apart.
  lemma BeforeTotal(a: seq<Name>, b: seq<Name>)
    requires a != [] && b != [] && a[0] != b[0]
    ensures Before(a, b) || Before(b, a)
  {
    LessTotal(a[0], b[0]);
  }

  lemma {:induction false} InsertGroupKeeps(g: seq<Name>, out: seq<seq<Name>>)
    requires Ordered(out) && g != [] && forall i :: 0 <= i < |out| ==> out[i] != [] && out[i][0] != g[0]
    ensures Ordered(InsertGroup(g, out))
    ensures forall h :: h in InsertGroup(g, out) <==> h in out || h == g
  {
    hide Before;
    if out == [] {
    } else if Before(g, out[0]) {
      forall i | 0 <= i < |out| ensures Before(g, out[i]) {
        if i > 0 {
          BeforeTransitive(g, out[0], out[i]);
        }
      }
    } else {
      InsertGroupKeeps(g, out[1..]);
      BeforeTotal(g, out[0]);
      var t := InsertGroup(g, out[1..]);
      assert out == [out[0]] + out[1..];
      forall i | 0 <= i < |t| ensures Before(out[0], t[i]) {
        assert t[i] in t;
      }
    }
  }

  /** components: union every edge, group the tables by root, sort each group and then the groups. The
      map of groups is walked in an arbitrary order. */
  method Components(tables: seq<Table>) returns (out: seq<seq<Name>>)
    ensures IsComponents(NamesOf(tables), EdgeSet(tables), out)
  {
    hide Root, Forest, Connected, Reflects, IsGroup, Ordered, Joined, SameRoots, Grouped;
    var uf, edges := BuildForest(tables);
    var names := NamesOf(tables);
    var groups := GroupByRoot(uf, names, EdgeSet(tables));
    out := SortGroups(uf.parent, names, EdgeSet(tables), groups);
  }

  method BuildForest(tables: seq<Table>) returns (uf: UnionFind, edges: seq<(Name, Name)>)
    ensures fresh(uf) && uf.Valid() && Reflects(uf.parent, EdgeSet(tables))
    ensures forall x :: x in NamesOf(tables) ==> x in uf.parent
  {
    hide Root, Forest, Connected, Reflects, Joined, SameRoots, EdgeSet;
    uf := new UnionFind();
    var names := NamesOf(tables);
    EmptyReflects();
    for i := 0 to |names|
      invariant fresh(uf) && uf.Valid() && Reflects(uf.parent, {})
      invariant forall j :: 0 <= j < i ==> names[j] in uf.parent
    {
      AddReflects(uf.parent, {}, names[i]);
      uf.Add(names[i]);
    }
    edges := EdgesOf(tables);
    ghost var done: Edges := {};
    for i := 0 to |edges|
      invariant fresh(uf) && uf.Valid() && Reflects(uf.parent, done)
      invariant forall x :: x in names ==> x in uf.parent
      invariant forall e :: e in done <==> e in edges[..i]
    {
      var (a, b) := edges[i];
      ghost var was := With(With(uf.parent, a), b);
      AddReflects(uf.parent, done, a);
      AddReflects(With(uf.parent, a), done, b);
      uf.Union(a, b);
      JoinReflects(was, uf.parent, done, a, b);
      done := done + {(a, b)};
    }
    assert done == EdgeSet(tables);
  }

  lemma EmptyReflects()
    ensures Forest(map[]) && Reflects(map[], {})
  {
  }

  method GroupByRoot(uf: UnionFind, names: seq<Name>, ghost edges: Edges) returns (groups: map<Name, seq<Name>>)
    requires uf.Valid() && Reflects(uf.parent, edges) && forall x :: x in names ==> x in uf.parent
    modifies uf
    ensures uf.Valid() && Reflects(uf.parent, edges) && (forall x :: x in names ==> x in uf.parent)
    ensures Grouped(uf.parent, names, groups)
  {
    hide Root, Forest, Connected, Reflects, SameRoots, Grouped;
    groups := map[];
    ghost var p := uf.parent;
    NothingGrouped(p);
    SameRootsSelf(p);
    for i := 0 to |names|
      invariant uf.Valid() && uf.parent.Keys == p.Keys && SameRoots(p, uf.parent)
      invariant Forest(p) && Grouped(p, names[..i], groups)
    {
      ghost var mid := uf.parent;
      var root := uf.Find(names[i]);
      SameRootsTransitive(p, mid, uf.parent);
      RootOf(p, uf.parent, names[i]);
      GroupMore(p, names[..i], groups, names[i]);
      assert names[..i + 1] == names[..i] + [names[i]];
      groups := groups[root := (if root in groups then groups[root] else []) + [names[i]]];
    }
    assert names[..|names|] == names;
    SameRootsReflect(p, uf.parent, edges);
    SameGroups(p, uf.parent, names, groups);
  }

  lemma NothingGrouped(p: Parents)
    requires Forest(p)
    ensures Grouped(p, [], map[])
  {
  }

  lemma SameRootsSelf(p: Parents)
    requires Forest(p)
    ensures SameRoots(p, p)
  {
  }

  lemma {:induction false} SameUnder(p: Parents, q: Parents, names: seq<Name>, r: Name)
    requires Forest(p) && Forest(q) && p.Keys == q.Keys && SameRoots(p, q)
    ensures Under(p, names, r) == Under(q, names, r)
  {
    hide Root, Forest;
    if names != [] {
      SameUnder(p, q, names[..|names| - 1], r);
      var x := names[|names| - 1];
      if x in p {
        RootOf(p, q, x);
      }
    }
  }

  lemma SameGroups(p: Parents, q: Parents, names: seq<Name>, groups: map<Name, seq<Name>>)
    requires Forest(p) && Forest(q) && p.Keys == q.Keys && SameRoots(p, q) && Grouped(p, names, groups)
    ensures Grouped(q, names, groups)
  {
    hide Root, Forest;
    forall r ensures Under(p, names, r) == Under(q, names, r) {
      SameUnder(p, q, names, r);
    }
  }

  method SortGroups(ghost p: Parents, ghost names: seq<Name>, ghost edges: Edges, groups: map<Name, seq<Name>>)
      returns (out: seq<seq<Name>>)
    requires Forest(p) && Reflects(p, edges) && (forall x :: x in names ==> x in p) && Grouped(p, names, groups)
    ensures IsComponents(names, edges, out)
  {
    hide Root, Forest, Connected, Reflects, Ordered, Grouped, Placed, Sort, InsertGroup, IsComponents;
    out := [];
    NonePlaced(groups);
    var rest := groups.Keys;
    ghost var done: set<Name> := {};
    while rest != {}
      invariant rest + done == groups.Keys && rest !! done
      invariant Ordered(out) && Placed(out, done, groups)
      decreases |rest|
    {
      var r :| r in rest;
      PlaceGroup(p, names, edges, groups, out, done, r);
      out := InsertGroup(Sort(groups[r]), out);
      rest, done := rest - {r}, done + {r};
    }
    AllPlaced(p, names, edges, groups, out);
  }

  // The sorted groups of these roots, and nothing else.
  ghost predicate Placed(out: seq<seq<Name>>, done: set<Name>, groups: map<Name, seq<Name>>)
    requires done <= groups.Keys
  {
    && (forall g :: g in out ==> exists r :: r in done && g == Sort(groups[r]))
    && (forall r :: r in done ==> Sort(groups[r]) in out)
  }

  lemma NonePlaced(groups: map<Name, seq<Name>>)
    ensures Ordered([]) && Placed([], {}, groups)
  {
  }

  lemma PlaceGroup(p: Parents, names: seq<Name>, edges: Edges, groups: map<Name, seq<Name>>, out: seq<seq<Name>>,
                   done: set<Name>, r: Name)
    requires Forest(p) && Reflects(p, edges) && (forall x :: x in names ==> x in p) && Grouped(p, names, groups)
    requires done <= groups.Keys && r in groups && r !in done && Ordered(out) && Placed(out, done, groups)
    ensures Ordered(InsertGroup(Sort(groups[r]), out)) && Placed(InsertGroup(Sort(groups[r]), out), done + {r}, groups)
  {
    hide Root, Forest, Connected, Reflects, IsGroup, Ordered, Grouped, Sort, InsertGroup, Less;
    var g := Sort(groups[r]);
    GroupFacts(p, names, edges, groups, r);
    forall i | 0 <= i < |out| ensures out[i] != [] && out[i][0] != g[0] {
      assert out[i] in out;
      var q :| q in done && out[i] == Sort(groups[q]);
      GroupFacts(p, names, edges, groups, q);
    }
    InsertGroupKeeps(g, out);
  }

  lemma AllPlaced(p: Parents, names: seq<Name>, edges: Edges, groups: map<Name, seq<Name>>, out: seq<seq<Name>>)
    requires Forest(p) && Reflects(p, edges) && (forall x :: x in names ==> x in p) && Grouped(p, names, groups)
    requires Ordered(out) && Placed(out, groups.Keys, groups)
    ensures IsComponents(names, edges, out)
  {
    hide Root, Forest, Connected, Reflects, IsGroup, Ordered, Grouped, Sort;
    forall i | 0 <= i < |out| ensures IsGroup(names, edges, out[i]) {
      assert out[i] in out;
      var r :| r in groups.Keys && out[i] == Sort(groups[r]);
      GroupFacts(p, names, edges, groups, r);
    }
    forall x | x in names ensures Covers(out, x) {
      InSomeGroup(p, names, groups, x);
      GroupFacts(p, names, edges, groups, Root(p, x));
      assert Sort(groups[Root(p, x)]) in out;
    }
  }

  lemma GroupFacts(p: Parents, names: seq<Name>, edges: Edges, groups: map<Name, seq<Name>>, r: Name)
    requires Forest(p) && Reflects(p, edges) && (forall x :: x in names ==> x in p) && Grouped(p, names, groups)
    requires r in groups
    ensures IsGroup(names, edges, Sort(groups[r])) && Sort(groups[r]) != []
    ensures forall x :: x in Sort(groups[r]) <==> x in names && x in p && Root(p, x) == r
    ensures Sort(groups[r])[0] in p && Root(p, Sort(groups[r])[0]) == r
  {
    hide Root, Forest, Connected, Reflects, Sort, Under;
    SortedUnderIsGroup(p, names, edges, r);
    var g := Sort(groups[r]);
    assert g[0] in g;
  }

  lemma InSomeGroup(p: Parents, names: seq<Name>, groups: map<Name, seq<Name>>, x: Name)
    requires Forest(p) && Grouped(p, names, groups) && x in names && x in p
    ensures Root(p, x) in groups
  {
    hide Root, Forest;
    UnderCounts(p, names, Root(p, x), x);
    assert multiset(names)[x] > 0;
  }

  // ---- tables that are not listed --------------------------------------------------------

  // The edges between listed tables.
  ghost function Within(edges: Edges, names: seq<Name>): Edges {
    set e | e in edges && e.0 in names && e.1 in names
  }

  // The children of every unlisted table are connected through listed tables anyway.
  ghost predicate UnlistedAddNothing(edges: Edges, names: seq<Name>) {
    forall e, f :: e in edges && f in edges && e.1 == f.1 && e.1 !in names ==> Connected(Within(edges, names), e.0, f.0)
  }

  // The listed tables one is connected to through listed tables; an unlisted table counts as its children.
  ghost function Reach(edges: Edges, names: seq<Name>, x: Name): iset<Name> {
    iset y | y in names && (if x in names then Connected(Within(edges, names), x, y)
                            else exists e :: e in edges && e.1 == x && Connected(Within(edges, names), e.0, y))
  }

  lemma ReachRespects(edges: Edges, names: seq<Name>, e: (Name, Name))
    requires UnlistedAddNothing(edges, names) && (forall f :: f in edges ==> f.0 in names) && e in edges
    ensures Reach(edges, names, e.0) == Reach(edges, names, e.1)
  {
    hide Connected;
    var inner := Within(edges, names);
    forall y ensures y in Reach(edges, names, e.0) <==> y in Reach(edges, names, e.1) {
      if e.1 in names {
        assert e in inner;
        LinkedConnected(inner, e.0, e.1);
        LinkedConnected(inner, e.1, e.0);
        if Connected(inner, e.0, y) {
          ConnectedTransitive(inner, e.1, e.0, y);
        }
        if Connected(inner, e.1, y) {
          ConnectedTransitive(inner, e.0, e.1, y);
        }
      } else {
        forall f | f in edges && f.1 == e.1 && Connected(inner, f.0, y) ensures Connected(inner, e.0, y) {
          ConnectedTransitive(inner, e.0, f.0, y);
        }
      }
    }
  }

  /** A foreign key may name a table outside the list, and the groups then join through it. They are the
      components of the listed tables alone exactly if the children of each such table are connected
      without it. Every edge starts at a listed table. */
  lemma UnlistedMatterIff(edges: Edges, names: seq<Name>)
    requires forall e :: e in edges ==> e.0 in names
    ensures (forall x, y :: x in names && y in names ==>
               (Connected(edges, x, y) <==> Connected(Within(edges, names), x, y)))
            <==> UnlistedAddNothing(edges, names)
  {
    hide Connected;
    var inner := Within(edges, names);
    if UnlistedAddNothing(edges, names) {
      forall x, y | x in names && y in names ensures Connected(edges, x, y) <==> Connected(inner, x, y) {
        if Connected(inner, x, y) {
          ConnectedMonotone(inner, edges, x, y);
        }
        if Connected(edges, x, y) {
          ReachAgrees(edges, names, x, y);
        }
      }
    }
    if forall x, y :: x in names && y in names ==> (Connected(edges, x, y) <==> Connected(inner, x, y)) {
      forall e, f | e in edges && f in edges && e.1 == f.1 && e.1 !in names ensures Connected(inner, e.0, f.0) {
        LinkedConnected(edges, e.0, e.1);
        LinkedConnected(edges, e.1, f.0);
        ConnectedTransitive(edges, e.0, e.1, f.0);
      }
    }
  }

  /** Two tables that refer to one table outside the list: they form a group, though nothing listed links them. */
  lemma UnlistedJoins()
    ensures var tables := [Table("a", ["x"]), Table("b", ["x"])];
            var edges, names := EdgeSet(tables), NamesOf(tables);
            && Connected(edges, "a", "b") && !Connected(Within(edges, names), "a", "b")
            && !UnlistedAddNothing(edges, names)
  {
    var tables := [Table("a", ["x"]), Table("b", ["x"])];
    var edges, names := EdgeSet(tables), NamesOf(tables);
    assert tables[0] in tables && tables[1] in tables && "x" in ["x"];
    assert ("a", "x") in edges && ("b", "x") in edges;
    LinkedConnected(edges, "a", "x");
    LinkedConnected(edges, "x", "b");
    ConnectedTransitive(edges, "a", "x", "b");
    assert "x" !in names;
    Apart(Within(edges, names));
  }

  lemma Apart(edges: Edges)
    requires edges == {}
    ensures !Connected(edges, "a", "b")
  {
    var own := (x: Name) => x;
    if Connected(edges, "a", "b") {
      ConnectedSameColour(own, edges, "a", "b");
    }
  }

  lemma ReachAgrees(edges: Edges, names: seq<Name>, x: Name, y: Name)
    requires UnlistedAddNothing(edges, names) && (forall f :: f in edges ==> f.0 in names)
    requires x in names && y in names && Connected(edges, x, y)
    ensures Connected(Within(edges, names), x, y)
  {
    hide Connected;
    var f := (z: Name) => Reach(edges, names, z);
    forall e | e in edges ensures f(e.0) == f(e.1) {
      ReachRespects(edges, names, e);
    }
    ConnectedSameColour(f, edges, x, y);
    ConnectedToItself(Within(edges, names), y);
    assert y in Reach(edges, names, y);
    assert y in Reach(edges, names, x);
  }
}
