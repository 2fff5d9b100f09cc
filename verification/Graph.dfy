/** Reachability over dependency graphs, and the worklist that computes it. */
module Graph {

  type Graph<N(==,!new)> = map<N, set<N>>

  function Succ<N(!new)>(g: Graph<N>, n: N): set<N> {
    if n in g then g[n] else {}
  }

  ghost predicate Walk<N(!new)>(g: Graph<N>, p: seq<N>) {
    p != [] && forall i :: 0 <= i < |p| - 1 ==> p[i + 1] in Succ(g, p[i])
  }

  ghost predicate WalkBetween<N(!new)>(g: Graph<N>, p: seq<N>, a: N, b: N) {
    Walk(g, p) && p[0] == a && p[|p| - 1] == b
  }

  /** `b` can be reached from `a` along edges of `g`, in any number of steps including none. */
  ghost predicate Reaches<N(!new)>(g: Graph<N>, a: N, b: N) {
    exists p :: WalkBetween(g, p, a, b)
  }

  ghost predicate ReachedFrom<N(!new)>(g: Graph<N>, roots: set<N>, x: N) {
    exists r :: r in roots && Reaches(g, r, x)
  }

  ghost predicate Closed<N(!new)>(g: Graph<N>, s: set<N>) {
    forall n, m :: n in s && m in Succ(g, n) ==> m in s
  }

  lemma ReachesSelf<N(!new)>(g: Graph<N>, a: N)
    ensures Reaches(g, a, a)
  {
    assert WalkBetween(g, [a], a, a);
  }

  lemma ReachesThen<N(!new)>(g: Graph<N>, a: N, b: N, c: N)
    requires Reaches(g, a, b) && c in Succ(g, b)
    ensures Reaches(g, a, c)
  {
    var p :| WalkBetween(g, p, a, b);
    assert WalkBetween(g, p + [c], a, c);
  }

  lemma ReachesAfter<N(!new)>(g: Graph<N>, a: N, b: N, c: N)
    requires b in Succ(g, a) && Reaches(g, b, c)
    ensures Reaches(g, a, c)
  {
    var p :| WalkBetween(g, p, b, c);
    assert WalkBetween(g, [a] + p, a, c);
  }

  /** A set closed under successors holds everything reachable from its members. */
  lemma ClosedHoldsReached<N(!new)>(g: Graph<N>, s: set<N>, a: N, b: N)
    requires Closed(g, s) && a in s && Reaches(g, a, b)
    ensures b in s
  {
    var p :| WalkBetween(g, p, a, b);
    for i := 0 to |p| - 1
      invariant p[i] in s
    {
    }
  }

  /** Walks can be run backwards in the reversed graph. */
  lemma ReachesReversed<N(!new)>(g: Graph<N>, h: Graph<N>, a: N, b: N)
    requires forall n, m :: m in Succ(g, n) ==> n in Succ(h, m)
    requires Reaches(g, a, b)
    ensures Reaches(h, b, a)
  {
    var p :| WalkBetween(g, p, a, b);
    var q := seq(|p|, i requires 0 <= i < |p| => p[|p| - 1 - i]);
    forall i | 0 <= i < |q| - 1
      ensures q[i + 1] in Succ(h, q[i])
    {
      var j := |p| - 2 - i;
      assert p[j + 1] in Succ(g, p[j]);
    }
    assert WalkBetween(h, q, b, a);
  }

  /** Two graphs that agree on the successors of everything reached from `a` reach the same nodes. */
  lemma SameReach<N(!new)>(g: Graph<N>, h: Graph<N>, a: N, b: N)
    requires forall n :: Reaches(g, a, n) ==> Succ(g, n) == Succ(h, n)
    requires Reaches(g, a, b)
    ensures Reaches(h, a, b)
  {
    var p :| WalkBetween(g, p, a, b);
    forall i | 0 <= i < |p| - 1
      ensures p[i + 1] in Succ(h, p[i])
    {
      assert WalkBetween(g, p[..i + 1], a, p[i]);
    }
    assert WalkBetween(h, p, a, b);
  }

  /** What the roots reach. */
  ghost function Target<N(!new)>(g: Graph<N>, roots: set<N>): iset<N> {
    iset x | ReachedFrom(g, roots, x)
  }

  lemma TargetClosed<N(!new)>(g: Graph<N>, roots: set<N>, n: N, m: N)
    requires n in Target(g, roots) && m in Succ(g, n)
    ensures m in Target(g, roots)
  {
    var r :| r in roots && Reaches(g, r, n);
    ReachesThen(g, r, n, m);
  }

  lemma RootsInTarget<N(!new)>(g: Graph<N>, roots: set<N>, r: N)
    requires r in roots
    ensures r in Target(g, roots)
  {
    ReachesSelf(g, r);
  }

  /** Only target nodes are recorded, and only the frontier still has successors to record. */
  ghost predicate Sweep<N(!new)>(g: Graph<N>, target: iset<N>, reached: set<N>, frontier: seq<N>) {
    && (forall n :: n in reached ==> n in target)
    && (forall n :: n in frontier ==> n in reached)
    && (forall n :: n in reached ==> n in frontier || Succ(g, n) <= reached)
  }

  ghost function Universe<N(!new)>(g: Graph<N>, roots: set<N>): set<N> {
    roots + set n, m | n in g && m in g[n] :: m
  }

  /** The worklist: pop a name, record and queue those of its successors that are new. */
  method Saturate<N(!new)>(g: Graph<N>, roots: set<N>, ghost target: iset<N>) returns (reached: set<N>)
    requires forall n :: n in roots ==> n in target
    requires forall n, m :: n in target && m in Succ(g, n) ==> m in target
    ensures roots <= reached && Closed(g, reached)
    ensures forall n :: n in reached ==> n in target
  {
    reached := roots;
    var frontier := Elements(roots);
    ghost var universe := Universe(g, roots);
    while frontier != []
      invariant roots <= reached <= universe
      invariant Sweep(g, target, reached, frontier)
      decreases |universe - reached|, |frontier|
    {
      var name, rest := frontier[|frontier| - 1], frontier[..|frontier| - 1];
      assert frontier == rest + [name];
      var added := Succ(g, name) - reached;
      var queued := Elements(added);
      Shrinks(universe, reached, added);
      reached, frontier := reached + added, rest + queued;
    }
  }

  /** Both lock walks: the names reached from the roots, no more and no fewer. */
  method Explore<N(!new)>(g: Graph<N>, roots: set<N>) returns (reached: set<N>)
    ensures forall x :: x in reached <==> ReachedFrom(g, roots, x)
  {
    forall r | r in roots ensures r in Target(g, roots) { RootsInTarget(g, roots, r); }
    forall n, m | n in Target(g, roots) && m in Succ(g, n) ensures m in Target(g, roots) {
      TargetClosed(g, roots, n, m);
    }
    reached := Saturate(g, roots, Target(g, roots));
    forall x | ReachedFrom(g, roots, x) ensures x in reached {
      var r :| r in roots && Reaches(g, r, x);
      ClosedHoldsReached(g, reached, r, x);
    }
  }

  lemma Shrinks<N(!new)>(all: set<N>, seen: set<N>, added: set<N>)
    requires added <= all && added !! seen
    ensures |all - (seen + added)| == |all - seen| - |added|
  {
    assert all - seen == (all - (seen + added)) + added;
  }

  method Elements<N(!new)>(s: set<N>) returns (q: seq<N>)
    ensures (forall x :: x in q <==> x in s) && |q| == |s|
  {
    q := [];
    var todo := s;
    while todo != {}
      invariant todo <= s && (forall x :: x in q <==> x in s - todo) && |q| + |todo| == |s|
    {
      var x :| x in todo;
      todo := todo - {x};
      q := q + [x];
    }
  }

  /** The edges of `g` backwards, added to `dependents`. */
  method AddDependents<N(!new)>(dependents: Graph<N>, g: Graph<N>) returns (r: Graph<N>)
    ensures forall n, d :: n in Succ(r, d) <==> n in Succ(dependents, d) || d in Succ(g, n)
  {
    r := dependents;
    var names := g.Keys;
    while names != {}
      invariant names <= g.Keys
      invariant forall n, d :: n in Succ(r, d) <==> n in Succ(dependents, d) || (n !in names && d in Succ(g, n))
    {
      var name :| name in names;
      ghost var before, left := r, names;
      r := AddDependent(r, name, g[name]);
      names := names - {name};
      forall n, d ensures n in Succ(r, d) <==> n in Succ(dependents, d) || (n !in names && d in Succ(g, n)) {
        assert n in Succ(r, d) <==> n in Succ(before, d) || (n == name && d in Succ(g, name));
        assert n in Succ(before, d) <==> n in Succ(dependents, d) || (n !in left && d in Succ(g, n));
      }
    }
  }

  method AddDependent<N(!new)>(dependents: Graph<N>, name: N, deps: set<N>) returns (r: Graph<N>)
    ensures forall n, d :: n in Succ(r, d) <==> n in Succ(dependents, d) || (n == name && d in deps)
  {
    r := dependents;
    var todo := deps;
    while todo != {}
      invariant todo <= deps
      invariant forall d :: Succ(r, d) == Succ(dependents, d) + if d in deps - todo then {name} else {}
    {
      var dep :| dep in todo;
      ghost var before := r;
      r := r[dep := Succ(r, dep) + {name}];
      todo := todo - {dep};
      assert forall d :: Succ(r, d) == if d == dep then Succ(before, dep) + {name} else Succ(before, d);
    }
  }

  /** More edges reach no less. */
  lemma MoreEdges<N(!new)>(g: Graph<N>, h: Graph<N>, a: N, b: N)
    requires forall n, m :: m in Succ(g, n) ==> m in Succ(h, n)
    requires Reaches(g, a, b)
    ensures Reaches(h, a, b)
  {
    var p :| WalkBetween(g, p, a, b);
    assert WalkBetween(h, p, a, b);
  }
}
