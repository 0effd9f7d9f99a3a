/** Connectivity in the undirected foreign-key graph. */
module SchemaGraph {
  import opened SortedNames

  // (child, parent)
  type Edges = set<(Name, Name)>

  predicate Linked(edges: Edges, a: Name, b: Name) { (a, b) in edges || (b, a) in edges }

  predicate IsPath(edges: Edges, p: seq<Name>) {
    |p| > 0 && forall i :: 0 <= i < |p| - 1 ==> Linked(edges, p[i], p[i + 1])
  }

  ghost predicate Connected(edges: Edges, a: Name, b: Name) {
    exists p: seq<Name> :: IsPath(edges, p) && p[0] == a && p[|p| - 1] == b
  }

  lemma ConnectedToItself(edges: Edges, a: Name)
    ensures Connected(edges, a, a)
  {
    assert IsPath(edges, [a]);
  }

  lemma LinkedConnected(edges: Edges, a: Name, b: Name)
    requires Linked(edges, a, b)
    ensures Connected(edges, a, b)
  {
    assert IsPath(edges, [a, b]);
  }

  lemma ConnectedTransitive(edges: Edges, a: Name, b: Name, c: Name)
    requires Connected(edges, a, b) && Connected(edges, b, c)
    ensures Connected(edges, a, c)
  {
    var p: seq<Name> :| IsPath(edges, p) && p[0] == a && p[|p| - 1] == b;
    var q: seq<Name> :| IsPath(edges, q) && q[0] == b && q[|q| - 1] == c;
    var r := p + q[1..];
    forall i | 0 <= i < |r| - 1 ensures Linked(edges, r[i], r[i + 1]) {
      if i < |p| - 1 {
        assert Linked(edges, p[i], p[i + 1]);
      } else {
        assert Linked(edges, q[i - |p| + 1], q[i - |p| + 2]);
      }
    }
    assert IsPath(edges, r);
  }

  lemma {:induction false} PathBack(edges: Edges, p: seq<Name>)
    requires IsPath(edges, p)
    ensures Connected(edges, p[|p| - 1], p[0])
  {
    if |p| == 1 {
      ConnectedToItself(edges, p[0]);
    } else {
      forall i | 0 <= i < |p[1..]| - 1 ensures Linked(edges, p[1..][i], p[1..][i + 1]) {
        assert Linked(edges, p[i + 1], p[i + 2]);
      }
      PathBack(edges, p[1..]);
      assert Linked(edges, p[0], p[1]);
      LinkedConnected(edges, p[1], p[0]);
      ConnectedTransitive(edges, p[|p| - 1], p[1], p[0]);
    }
  }

  lemma ConnectedSymmetric(edges: Edges, a: Name, b: Name)
    requires Connected(edges, a, b)
    ensures Connected(edges, b, a)
  {
    var p: seq<Name> :| IsPath(edges, p) && p[0] == a && p[|p| - 1] == b;
    PathBack(edges, p);
  }

  lemma ConnectedMonotone(edges: Edges, more: Edges, a: Name, b: Name)
    requires edges <= more && Connected(edges, a, b)
    ensures Connected(more, a, b)
  {
    var p: seq<Name> :| IsPath(edges, p) && p[0] == a && p[|p| - 1] == b;
    assert IsPath(more, p) by {
      forall i | 0 <= i < |p| - 1 ensures Linked(more, p[i], p[i + 1]) {
        assert Linked(edges, p[i], p[i + 1]);
      }
    }
  }

  // A colouring of the names that no edge crosses does not change along a path.
  ghost predicate Respects<C>(f: Name -> C, edges: Edges) {
    forall e :: e in edges ==> f(e.0) == f(e.1)
  }

  lemma {:induction false} PathSameColour<C>(f: Name -> C, edges: Edges, p: seq<Name>)
    requires Respects(f, edges) && IsPath(edges, p)
    ensures f(p[0]) == f(p[|p| - 1])
  {
    if |p| > 1 {
      forall i | 0 <= i < |p[1..]| - 1 ensures Linked(edges, p[1..][i], p[1..][i + 1]) {
        assert Linked(edges, p[i + 1], p[i + 2]);
      }
      PathSameColour(f, edges, p[1..]);
      assert Linked(edges, p[0], p[1]);
    }
  }

  lemma ConnectedSameColour<C>(f: Name -> C, edges: Edges, a: Name, b: Name)
    requires Respects(f, edges) && Connected(edges, a, b)
    ensures f(a) == f(b)
  {
    var p: seq<Name> :| IsPath(edges, p) && p[0] == a && p[|p| - 1] == b;
    PathSameColour(f, edges, p);
  }
}
