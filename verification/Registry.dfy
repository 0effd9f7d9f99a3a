/** Dependency resolution of registry.go: memoised, depth first, with a stack that finds cycles. */
module Registry {
  type Key = string

  // A constructor that resolves these dependencies in order, gives up at the first that fails, and may
  // then fail itself.
  datatype Ctor = Ctor(deps: seq<Key>, fails: bool)

  // A local binding hides a remote one of the same key.
  datatype Graph = Graph(local: map<Key, Ctor>, remote: map<Key, Ctor>) {
    function Providers(): map<Key, Ctor> { remote + local }

    predicate Provided(k: Key) { k in Providers() }

    predicate Sound(k: Key) { Provided(k) && !Providers()[k].fails }

    predicate DependsOn(a: Key, b: Key) { Provided(a) && b in Providers()[a].deps }

    predicate IsPath(p: seq<Key>) {
      |p| > 0 && forall i :: 0 <= i < |p| - 1 ==> DependsOn(p[i], p[i + 1])
    }

    ghost predicate Reaches(a: Key, b: Key) {
      exists p: seq<Key> :: IsPath(p) && p[0] == a && p[|p| - 1] == b
    }

    // What some local binding reaches.
    ghost predicate Needed(k: Key) { exists a :: a in local && Reaches(a, k) }

    // No key below k is missing or fails, and none depends on itself.
    ghost predicate Constructible(k: Key) {
      && (forall d :: Reaches(k, d) ==> Sound(d))
      && (forall p: seq<Key> :: IsPath(p) && p[0] == k ==> Distinct(p))
    }
  }

  predicate Distinct(p: seq<Key>) {
    forall i, j :: 0 <= i < j < |p| ==> p[i] != p[j]
  }

  datatype Error = NoProvider(key: Key) | Cycle(path: seq<Key>) | CtorFailed(key: Key) | Wrapped(key: Key, cause: Error)

  datatype Result = Ok(instance: nat) | Err(error: Error)

  // The error at the bottom of the wrapping.
  function RootCause(e: Error): Error { if e.Wrapped? then RootCause(e.cause) else e }

  // From its last key back to the earlier occurrence of it, a reported path is a dependency cycle.
  ghost predicate RealCycle(g: Graph, path: seq<Key>) {
    exists i :: 0 <= i < |path| - 1 && path[i] == path[|path| - 1] && g.IsPath(path[i..])
  }

  ghost predicate Truthful(g: Graph, e: Error) {
    match RootCause(e)
    case NoProvider(k) => !g.Provided(k)
    case Cycle(path) => RealCycle(g, path)
    case CtorFailed(k) => g.Provided(k) && g.Providers()[k].fails
    case Wrapped(_, _) => false
  }

  // A reason why k cannot be constructed while the keys of the stack are under construction.
  ghost predicate Obstacle(g: Graph, k: Key, stack: seq<Key>, p: seq<Key>) {
    g.IsPath(p) && p[0] == k && (!g.Sound(p[|p| - 1]) || p[|p| - 1] in stack || !Distinct(p))
  }

  class Registry {
    const g: Graph
    var instances: map<Key, nat>   // resolved keys and their values, numbered as they are made
    var inflight: set<Key>
    var resolving: seq<Key>
    var made: seq<Key>       // the constructors that have returned a value
    ghost var runs: seq<Key>       // every constructor that has been called
    ghost var clean: bool          // no constructor has failed yet

    ghost predicate Valid()
      reads this
    {
      StackOk(g, instances, inflight, resolving) && Made(g, instances, made) && RunsOk(clean, runs, instances, inflight)
    }

    constructor (g: Graph)
      ensures Valid() && this.g == g && instances == map[] && inflight == {} && resolving == [] && clean && runs == []
    {
      this.g := g;
      instances, inflight, resolving := map[], {}, [];
      made, runs, clean := [], [], true;
    }

    // Whatever happens, what was made stays made and the stack is as before.
    twostate predicate Grown(key: Key)
      reads this
    {
      && Valid() && inflight == old(inflight) && resolving == old(resolving) && old(runs) <= runs
      && Kept(old(instances), instances) && (clean ==> old(clean))
      && forall k :: k in instances && k !in old(instances) ==> g.Reaches(key, k)
    }

    /** The instance of a key, made at most once; or the error that explains why there is none. */
    method Resolve(key: Key) returns (r: Result)
      requires Valid() && (resolving != [] ==> g.DependsOn(resolving[|resolving| - 1], key))
      modifies this
      ensures Grown(key)
      ensures r.Ok? ==> key in instances && instances[key] == r.instance && (old(clean) ==> clean)
      ensures r.Err? ==> Truthful(g, r.error) && exists p: seq<Key> :: Obstacle(g, key, old(resolving), p)
      decreases |g.Providers().Keys - inflight|, 1
    {
      hide Graph.Reaches, Graph.Sound, Graph.IsPath, Made, Obstacle, Truthful, Distinct;
      if !g.Provided(key) {
        Unprovided(g, key, resolving);
        return Err(NoProvider(key));
      }
      if key in instances {
        return Ok(instances[key]);
      }
      if key in inflight {
        OnStack(g, key, resolving);
        return Err(Cycle(resolving + [key]));
      }
      var built := Construct(key);
      if built.Err? {
        WrappedTruth(g, key, built.error);
        return Err(Wrapped(key, built.error));
      }
      return built;
    }

    // Marks the key, calls its constructor, and stores what it returns.
    method Construct(key: Key) returns (r: Result)
      requires Valid() && (resolving != [] ==> g.DependsOn(resolving[|resolving| - 1], key))
      requires g.Provided(key) && key !in instances && key !in inflight
      modifies this
      ensures Grown(key)
      ensures r.Ok? ==> key in instances && instances[key] == r.instance && (old(clean) ==> clean)
      ensures r.Err? ==> Truthful(g, r.error) && exists p: seq<Key> :: Obstacle(g, key, old(resolving), p)
      decreases |g.Providers().Keys - inflight|, 0
    {
      hide Graph.Reaches, Graph.Sound, Graph.IsPath, Made, Obstacle, Truthful, StackOk, RunsOk, Distinct;
      var ctor := g.Providers()[key];
      ghost var stack, flags := resolving, inflight;
      FewerLeft(g.Providers().Keys, inflight, key);
      Enter(key);
      var failure: Result := CallCtor(key, ctor, stack);
      if failure.Err? {
        Leave(key, stack);
        clean := false;
        NotClean(runs, instances, inflight);
        assert inflight == flags;
        return failure;
      }
      Itself(g, key);
      Store(key, stack);
      assert inflight == flags;
      return Ok(instances[key]);
    }

    method Enter(key: Key)
      requires Valid() && (resolving != [] ==> g.DependsOn(resolving[|resolving| - 1], key))
      requires g.Provided(key) && key !in instances && key !in inflight
      modifies this
      ensures Valid() && inflight == old(inflight) + {key} && resolving == old(resolving) + [key]
      ensures instances == old(instances) && runs == old(runs) + [key] && clean == old(clean)
    {
      hide Made, StackOk, RunsOk;
      PushKeeps(g, instances, inflight, resolving, clean, runs, key);
      inflight, resolving := inflight + {key}, resolving + [key];
      runs := runs + [key];
    }

    // After the constructor, whatever it returned.
    method Leave(key: Key, ghost stack: seq<Key>)
      requires Valid() && resolving == stack + [key]
      modifies this
      ensures StackOk(g, instances, inflight, resolving) && inflight == old(inflight) - {key} && resolving == stack
      ensures instances == old(instances) && runs == old(runs) && clean == old(clean) && made == old(made)
      ensures key in old(inflight) && key !in instances
    {
      hide Made, StackOk, RunsOk;
      PopKeeps(g, instances, inflight, stack, key);
      assert resolving[..|resolving| - 1] == stack;
      inflight, resolving := inflight - {key}, resolving[..|resolving| - 1];
    }

    method Store(key: Key, ghost stack: seq<Key>)
      requires Valid() && resolving == stack + [key] && g.Sound(key)
      requires forall d :: d in g.Providers()[key].deps ==> d in instances
      modifies this
      ensures Valid() && inflight == old(inflight) - {key} && resolving == stack
      ensures key !in old(instances) && key in instances && instances == old(instances)[key := instances[key]]
      ensures runs == old(runs) && clean == old(clean)
    {
      hide Made, StackOk, RunsOk, Graph.Sound;
      PopKeeps(g, instances, inflight, stack, key);
      StoreKeeps(g, instances, inflight, stack, clean, runs, key, |made|);
      MadeOne(g, instances, made, key);
      Leave(key, stack);
      instances, made := instances[key := |made|], made + [key];
    }

    // The constructor: its dependencies in order, up to the first that fails, then itself.
    method CallCtor(key: Key, ctor: Ctor, ghost stack: seq<Key>) returns (r: Result)
      requires Valid() && g.Provided(key) && ctor == g.Providers()[key] && resolving == stack + [key]
      modifies this
      ensures Grown(key)
      ensures r.Ok? ==> g.Sound(key) && (old(clean) ==> clean) && forall d :: d in ctor.deps ==> d in instances
      ensures r.Err? ==> Truthful(g, r.error) && exists p: seq<Key> :: Obstacle(g, key, stack, p)
      decreases |g.Providers().Keys - inflight|, 2
    {
      hide Graph.Reaches, Graph.IsPath, Made, Obstacle, Truthful, Distinct;
      for i := 0 to |ctor.deps|
        invariant Grown(key) && (old(clean) ==> clean)
        invariant forall j :: 0 <= j < i ==> ctor.deps[j] in instances
      {
        var d := ctor.deps[i];
        ghost var before := instances;
        r := Resolve(d);
        forall k | k in instances && k !in before ensures g.Reaches(key, k) {
          StepReaches(g, key, d, k);
        }
        if r.Err? {
          ghost var p: seq<Key> :| Obstacle(g, d, resolving, p);
          ObstacleAbove(g, key, d, stack, p);
          return;
        }
      }
      if ctor.fails {
        OwnFailure(g, key, stack);
        return Err(CtorFailed(key));
      }
      return Ok(0);
    }

    /** resolveAll over the ordinary bindings, in their sorted order: it succeeds exactly if every local
        binding can be constructed, and then everything they reach has been constructed exactly once. */
    method ResolveAll(order: seq<Key>) returns (r: Result)
      requires Valid() && resolving == [] && instances == map[] && clean
      requires forall k :: k in order <==> k in g.local
      modifies this
      ensures Valid() && resolving == []
      ensures r.Ok? <==> forall k :: k in g.local ==> g.Constructible(k)
      ensures r.Ok? ==> clean && (forall k :: k in instances <==> g.Needed(k))
      ensures r.Ok? ==> Distinct(runs) && forall k :: k in runs <==> k in instances
      ensures r.Err? ==> Truthful(g, r.error)
    {
      hide Graph.Reaches, Graph.Needed, Graph.Constructible, Made, StackOk, RunsOk, Obstacle, Truthful, Distinct;
      for i := 0 to |order|
        invariant Valid() && resolving == [] && clean
        invariant forall j :: 0 <= j < i ==> order[j] in instances
        invariant forall k :: k in instances ==> g.Needed(k)
      {
        ghost var before := instances;
        r := Resolve(order[i]);
        forall k | k in instances && k !in before ensures g.Needed(k) {
          LocalNeeds(g, order[i], k);
        }
        if r.Err? {
          ghost var p: seq<Key> :| Obstacle(g, order[i], [], p);
          ObstacleRefutes(g, order[i], p);
          return;
        }
      }
      AllMade(g, instances, made, order);
      StackEmpty(g, instances, inflight, clean, runs);
      return Ok(0);
    }
  }

  lemma LocalNeeds(g: Graph, a: Key, k: Key)
    requires a in g.local && g.Reaches(a, k)
    ensures g.Needed(k)
  {
  }

  lemma AllMade(g: Graph, instances: map<Key, nat>, made: seq<Key>, order: seq<Key>)
    requires Made(g, instances, made) && forall j :: 0 <= j < |order| ==> order[j] in instances
    requires forall k :: k in order <==> k in g.local
    ensures forall a :: a in g.local ==> g.Constructible(a)
    ensures forall k :: g.Needed(k) ==> k in instances
  {
    hide Graph.Reaches, Graph.Constructible, Made;
    forall a | a in g.local ensures g.Constructible(a) && a in instances {
      assert a in order;
      MadeIsConstructible(g, instances, made, a);
    }
    forall k | g.Needed(k) ensures k in instances {
      var a :| a in g.local && g.Reaches(a, k);
      ReachedIsMade(g, instances, made, a, k);
    }
  }

  lemma StackEmpty(g: Graph, instances: map<Key, nat>, inflight: set<Key>, clean: bool, runs: seq<Key>)
    requires StackOk(g, instances, inflight, []) && RunsOk(clean, runs, instances, inflight) && clean
    ensures Distinct(runs) && forall k :: k in runs <==> k in instances
  {
  }

  // The stack is a chain of dependencies that are provided and not made yet, each flagged.
  ghost predicate StackOk(g: Graph, instances: map<Key, nat>, inflight: set<Key>, resolving: seq<Key>) {
    && (forall k :: k in inflight <==> k in resolving) && Distinct(resolving)
    && (forall k :: k in inflight ==> g.Provided(k) && k !in instances)
    && (forall i :: 0 <= i < |resolving| - 1 ==> g.DependsOn(resolving[i], resolving[i + 1]))
  }

  // Until one fails, every constructor called is made or under way, and was called once.
  ghost predicate RunsOk(clean: bool, runs: seq<Key>, instances: map<Key, nat>, inflight: set<Key>) {
    clean ==> Distinct(runs) && forall k :: k in runs <==> k in instances || k in inflight
  }

  lemma PushKeeps(g: Graph, instances: map<Key, nat>, inflight: set<Key>, stack: seq<Key>, clean: bool, runs: seq<Key>, k: Key)
    requires StackOk(g, instances, inflight, stack) && RunsOk(clean, runs, instances, inflight)
    requires g.Provided(k) && k !in instances && k !in inflight && (stack != [] ==> g.DependsOn(stack[|stack| - 1], k))
    ensures StackOk(g, instances, inflight + {k}, stack + [k]) && RunsOk(clean, runs + [k], instances, inflight + {k})
  {
  }

  lemma PopKeeps(g: Graph, instances: map<Key, nat>, inflight: set<Key>, stack: seq<Key>, k: Key)
    requires StackOk(g, instances, inflight, stack + [k])
    ensures StackOk(g, instances, inflight - {k}, stack) && k in inflight && k !in instances
  {
    var more := stack + [k];
    assert more[|stack|] == k;
    forall i | 0 <= i < |stack| - 1 ensures g.DependsOn(stack[i], stack[i + 1]) {
      assert g.DependsOn(more[i], more[i + 1]);
    }
    forall q ensures q in inflight - {k} <==> q in stack {
      if q in stack {
        var i :| 0 <= i < |stack| && stack[i] == q;
        assert more[i] == q;
      }
    }
    forall i, j | 0 <= i < j < |stack| ensures stack[i] != stack[j] {
      assert more[i] != more[j];
    }
  }

  lemma StoreKeeps(g: Graph, instances: map<Key, nat>, inflight: set<Key>, stack: seq<Key>, clean: bool, runs: seq<Key>, k: Key, n: nat)
    requires StackOk(g, instances, inflight - {k}, stack) && RunsOk(clean, runs, instances, inflight) && k in inflight
    ensures StackOk(g, instances[k := n], inflight - {k}, stack) && RunsOk(clean, runs, instances[k := n], inflight - {k})
  {
  }

  lemma NotClean(runs: seq<Key>, instances: map<Key, nat>, inflight: set<Key>)
    ensures RunsOk(false, runs, instances, inflight)
  {
  }

  predicate Kept(before: map<Key, nat>, after: map<Key, nat>) {
    forall k :: k in before ==> k in after && after[k] == before[k]
  }

  // What has been made is sound, was made once, and was made after what it depends on.
  ghost predicate Made(g: Graph, instances: map<Key, nat>, made: seq<Key>) {
    && (forall k :: k in instances ==> instances[k] < |made| && made[instances[k]] == k)
    && (forall i :: 0 <= i < |made| ==> made[i] in instances && instances[made[i]] == i)
    && (forall k :: k in instances ==> g.Sound(k))
    && (forall a, b :: a in instances && g.DependsOn(a, b) ==> b in instances && instances[b] < instances[a])
  }

  lemma {:induction false} PathInMade(g: Graph, instances: map<Key, nat>, made: seq<Key>, p: seq<Key>)
    requires Made(g, instances, made) && g.IsPath(p) && p[0] in instances
    ensures forall i :: 0 <= i < |p| ==> p[i] in instances && instances[p[i]] <= instances[p[0]] - i
  {
    if |p| > 1 {
      var init := p[..|p| - 1];
      assert g.IsPath(init);
      PathInMade(g, instances, made, init);
      assert g.DependsOn(p[|p| - 2], p[|p| - 1]);
      assert p[|p| - 2] == init[|p| - 2];
      forall i | 0 <= i < |p| ensures p[i] in instances && instances[p[i]] <= instances[p[0]] - i {
        if i < |p| - 1 {
          assert p[i] == init[i];
        }
      }
    }
  }

  lemma SuffixPath(g: Graph, p: seq<Key>, i: nat)
    requires g.IsPath(p) && i < |p|
    ensures g.IsPath(p[i..])
  {
    forall m | 0 <= m < |p[i..]| - 1 ensures g.DependsOn(p[i..][m], p[i..][m + 1]) {
      assert g.DependsOn(p[i + m], p[i + m + 1]);
    }
  }

  /** What has been made could be made: nothing below it is missing, fails, or goes round in a circle. */
  lemma MadeIsConstructible(g: Graph, instances: map<Key, nat>, made: seq<Key>, k: Key)
    requires Made(g, instances, made) && k in instances
    ensures g.Constructible(k)
  {
    forall p: seq<Key> | g.IsPath(p) && p[0] == k ensures Distinct(p) && g.Sound(p[|p| - 1]) {
      PathInMade(g, instances, made, p);
      forall i, j | 0 <= i < j < |p| ensures p[i] != p[j] {
        var q := p[i..];
        SuffixPath(g, p, i);
        PathInMade(g, instances, made, q);
        assert q[j - i] == p[j];
      }
    }
  }

  /** An obstacle met with an empty stack is a reason not to construct. */
  lemma ObstacleRefutes(g: Graph, k: Key, p: seq<Key>)
    requires Obstacle(g, k, [], p)
    ensures !g.Constructible(k)
  {
    assert g.Reaches(k, p[|p| - 1]);
  }

  lemma ReachedIsMade(g: Graph, instances: map<Key, nat>, made: seq<Key>, a: Key, k: Key)
    requires Made(g, instances, made) && a in instances && g.Reaches(a, k)
    ensures k in instances
  {
    var p: seq<Key> :| g.IsPath(p) && p[0] == a && p[|p| - 1] == k;
    PathInMade(g, instances, made, p);
  }

  lemma Itself(g: Graph, k: Key)
    ensures g.Reaches(k, k)
  {
    assert g.IsPath([k]);
  }

  lemma PathFrom(g: Graph, a: Key, p: seq<Key>)
    requires g.IsPath(p) && g.DependsOn(a, p[0])
    ensures g.IsPath([a] + p) && ([a] + p)[|p|] == p[|p| - 1]
  {
    var q := [a] + p;
    forall i | 0 <= i < |q| - 1 ensures g.DependsOn(q[i], q[i + 1]) {
      if i > 0 {
        assert g.DependsOn(p[i - 1], p[i]);
      }
    }
  }

  lemma StepReaches(g: Graph, a: Key, b: Key, c: Key)
    requires g.DependsOn(a, b) && g.Reaches(b, c)
    ensures g.Reaches(a, c)
  {
    var p: seq<Key> :| g.IsPath(p) && p[0] == b && p[|p| - 1] == c;
    PathFrom(g, a, p);
  }

  lemma Unprovided(g: Graph, k: Key, stack: seq<Key>)
    requires !g.Provided(k)
    ensures Obstacle(g, k, stack, [k]) && Truthful(g, NoProvider(k))
  {
  }

  lemma OnStack(g: Graph, k: Key, stack: seq<Key>)
    requires k in stack && g.DependsOn(stack[|stack| - 1], k)
    requires forall i :: 0 <= i < |stack| - 1 ==> g.DependsOn(stack[i], stack[i + 1])
    ensures Obstacle(g, k, stack, [k]) && Truthful(g, Cycle(stack + [k]))
  {
    var path := stack + [k];
    assert g.IsPath(path) by {
      forall i | 0 <= i < |path| - 1 ensures g.DependsOn(path[i], path[i + 1]) {
        if i < |stack| - 1 {
          assert g.DependsOn(stack[i], stack[i + 1]);
        }
      }
    }
    var i :| 0 <= i < |stack| && stack[i] == k;
    SuffixPath(g, path, i);
    assert path[i] == k;
    assert RealCycle(g, path);
  }

  lemma WrappedTruth(g: Graph, k: Key, e: Error)
    requires Truthful(g, e)
    ensures Truthful(g, Wrapped(k, e))
  {
  }

  lemma OwnFailure(g: Graph, k: Key, stack: seq<Key>)
    requires g.Provided(k) && g.Providers()[k].fails
    ensures Obstacle(g, k, stack, [k]) && Truthful(g, CtorFailed(k))
  {
  }

  // What stands in the way of a dependency stands in the way of its dependent.
  lemma ObstacleAbove(g: Graph, k: Key, d: Key, stack: seq<Key>, p: seq<Key>)
    requires g.DependsOn(k, d) && Obstacle(g, d, stack + [k], p)
    ensures Obstacle(g, k, stack, [k] + p)
  {
    var q := [k] + p;
    PathFrom(g, k, p);
    if !Distinct(p) {
      var i, j :| 0 <= i < j < |p| && p[i] == p[j];
      assert q[i + 1] == q[j + 1];
    } else if g.Sound(p[|p| - 1]) && p[|p| - 1] !in stack {
      assert q[0] == q[|p|];
    }
  }

  lemma MadeOne(g: Graph, instances: map<Key, nat>, made: seq<Key>, k: Key)
    requires Made(g, instances, made) && k !in instances && g.Sound(k)
    requires forall d :: d in g.Providers()[k].deps ==> d in instances
    ensures Made(g, instances[k := |made|], made + [k])
  {
    hide Graph.Sound;
  }

  lemma FewerLeft(all: set<Key>, inflight: set<Key>, k: Key)
    requires k in all && k !in inflight
    ensures |all - (inflight + {k})| < |all - inflight|
  {
    assert all - inflight == (all - (inflight + {k})) + {k};
  }
}
