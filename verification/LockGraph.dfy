/** The lock as a dependency graph: the forward closure behind a suite key, the difference of two
    locks, and the reverse cone of that difference. */
module LockGraph {
  import opened Text
  import opened Graph
  import opened CargoLock

  function Edges(lock: Lock): Graph<string> {
    map n | n in lock :: lock[n].deps
  }

  /** The lock entry of `n` is the same in both locks, or missing from both. */
  predicate SameEntry(base: Lock, head: Lock, n: string) {
    (n in base <==> n in head) && (n in base ==> base[n] == head[n])
  }

  method LockChangedNames(base: Lock, head: Lock) returns (changed: set<string>)
    ensures forall n :: n in changed <==> !SameEntry(base, head, n)
  {
    changed := {};
    var todo := head.Keys;
    while todo != {}
      invariant todo <= head.Keys
      invariant forall n :: n in changed <==> n in head.Keys - todo && !SameEntry(base, head, n)
    {
      var name :| name in todo;
      todo := todo - {name};
      if name !in base || base[name] != head[name] {
        changed := changed + {name};
      }
    }
    todo := base.Keys;
    while todo != {}
      invariant todo <= base.Keys
      invariant forall n :: n in changed <==> n in head.Keys + (base.Keys - todo) && !SameEntry(base, head, n)
    {
      var name :| name in todo;
      todo := todo - {name};
      if name !in head {
        changed := changed + {name};
      }
    }
  }

  // ---- The forward closure ----

  /** The names reachable from the given packages, those included. */
  ghost function ClosureOf(lock: Lock, packages: set<string>): set<string> {
    set x | x in Universe(Edges(lock), packages) && ReachedFrom(Edges(lock), packages, x)
  }

  lemma ClosureIsReach(lock: Lock, packages: set<string>, x: string)
    ensures x in ClosureOf(lock, packages) <==> ReachedFrom(Edges(lock), packages, x)
  {
    var g := Edges(lock);
    if ReachedFrom(g, packages, x) {
      var r :| r in packages && Reaches(g, r, x);
      ClosedHoldsReached(g, Universe(g, packages), r, x);
    }
  }

  /** An unknown package is an error; the caller then runs the suite unconditionally. */
  method Closure(lock: Lock, packages: set<string>) returns (r: Result<set<string>>)
    ensures r == if packages <= lock.Keys then Ok(ClosureOf(lock, packages)) else Err
  {
    if !(packages <= lock.Keys) {
      return Err;
    }
    var reached := Explore(Edges(lock), packages);
    forall x ensures x in reached <==> x in ClosureOf(lock, packages) { ClosureIsReach(lock, packages, x); }
    assert reached == ClosureOf(lock, packages);
    return Ok(reached);
  }

  // ---- The reverse cone of a lock delta ----

  /** The edges of either lock: the dependents of a removed package still felt it. */
  function UnionEdges(base: Lock, head: Lock): Graph<string> {
    map n | n in base.Keys + head.Keys :: Succ(Edges(base), n) + Succ(Edges(head), n)
  }

  /** `m` reaches a changed entry over the edges of either lock. */
  ghost predicate InCone(base: Lock, head: Lock, m: string) {
    exists c :: !SameEntry(base, head, c) && Reaches(UnionEdges(base, head), m, c)
  }

  method LockConeSeeds(baseText: string, headText: string, members: set<string>) returns (r: Result<set<string>>)
    ensures r.Err? <==> Parsed(baseText).Err? || Parsed(headText).Err?
    ensures r.Ok? ==> forall m ::
      m in r.value <==> m in members && InCone(Parsed(baseText).value, Parsed(headText).value, m)
  {
    var o := ParseCargoLock(baseText);
    if o.Err? { return Err; }
    var n := ParseCargoLock(headText);
    if n.Err? { return Err; }
    var cone := LockCone(o.value, n.value);
    return Ok(set m | m in members && m in cone);
  }

  method LockCone(base: Lock, head: Lock) returns (cone: set<string>)
    ensures forall m :: m in cone <==> InCone(base, head, m)
  {
    var changed := LockChangedNames(base, head);
    var dependents := AddDependents(map[], Edges(base));
    dependents := AddDependents(dependents, Edges(head));
    ReversedUnion(base, head, dependents);
    cone := Explore(dependents, changed);
    forall m ensures m in cone <==> InCone(base, head, m) {
      ConeBothWays(base, head, dependents, changed, m);
    }
  }

  ghost predicate Reversal(g: Graph<string>, h: Graph<string>) {
    forall n, d :: n in Succ(h, d) <==> d in Succ(g, n)
  }

  lemma ReversedUnion(base: Lock, head: Lock, dependents: Graph<string>)
    requires forall n, d :: n in Succ(dependents, d) <==> d in Succ(Edges(base), n) || d in Succ(Edges(head), n)
    ensures Reversal(UnionEdges(base, head), dependents)
  {
    forall n, d ensures n in Succ(dependents, d) <==> d in Succ(UnionEdges(base, head), n) {
      assert Succ(UnionEdges(base, head), n) == Succ(Edges(base), n) + Succ(Edges(head), n);
    }
  }

  lemma ConeBothWays(base: Lock, head: Lock, dependents: Graph<string>, changed: set<string>, m: string)
    requires Reversal(UnionEdges(base, head), dependents)
    requires forall n :: n in changed <==> !SameEntry(base, head, n)
    ensures ReachedFrom(dependents, changed, m) <==> InCone(base, head, m)
  {
    var g := UnionEdges(base, head);
    if ReachedFrom(dependents, changed, m) {
      var c :| c in changed && Reaches(dependents, c, m);
      ReachesReversed(dependents, g, c, m);
    }
    if InCone(base, head, m) {
      var c :| !SameEntry(base, head, c) && Reaches(g, m, c);
      ReachesReversed(g, dependents, m, c);
    }
  }

  // ---- The diff, the reverse walk and the forward closure agree ----

  /** Everything a name outside the cone reaches, in either lock, has the same entry in both. */
  lemma OutsideConeEntries(base: Lock, head: Lock, m: string, x: string)
    requires !InCone(base, head, m)
    requires Reaches(Edges(base), m, x) || Reaches(Edges(head), m, x)
    ensures SameEntry(base, head, x)
  {
    if Reaches(Edges(base), m, x) {
      MoreEdges(Edges(base), UnionEdges(base, head), m, x);
    } else {
      MoreEdges(Edges(head), UnionEdges(base, head), m, x);
    }
  }

  /** A name outside the cone has the same forward closure in both locks. */
  lemma OutsideConeReach(base: Lock, head: Lock, m: string, x: string)
    requires !InCone(base, head, m)
    ensures Reaches(Edges(base), m, x) <==> Reaches(Edges(head), m, x)
  {
    forall n | Reaches(Edges(base), m, n) || Reaches(Edges(head), m, n)
      ensures Succ(Edges(base), n) == Succ(Edges(head), n)
    {
      OutsideConeEntries(base, head, m, n);
    }
    if Reaches(Edges(base), m, x) {
      SameReach(Edges(base), Edges(head), m, x);
    }
    if Reaches(Edges(head), m, x) {
      SameReach(Edges(head), Edges(base), m, x);
    }
  }

  /** For any two locks, a package the cone leaves out is in both or in neither, and its closure and
      every lock entry in that closure are the same in both. */
  lemma OutsideConeUntouched(base: Lock, head: Lock, m: string)
    requires !InCone(base, head, m)
    ensures m in base <==> m in head
    ensures ClosureOf(base, {m}) == ClosureOf(head, {m})
    ensures forall x <- ClosureOf(head, {m}) :: SameEntry(base, head, x)
  {
    ReachesSelf(Edges(base), m);
    OutsideConeEntries(base, head, m, m);
    forall x
      ensures x in ClosureOf(base, {m}) <==> x in ClosureOf(head, {m})
      ensures x in ClosureOf(head, {m}) ==> SameEntry(base, head, x)
    {
      ClosureIsReach(base, {m}, x);
      ClosureIsReach(head, {m}, x);
      OutsideConeReach(base, head, m, x);
      if Reaches(Edges(head), m, x) { OutsideConeEntries(base, head, m, x); }
    }
  }

  /** The cone takes in nothing but the packages whose own closure changed: mixing the edges of both
      locks reaches a changed entry no earlier than the edges of one lock do. */
  lemma ConeIsExact(base: Lock, head: Lock, m: string)
    ensures InCone(base, head, m) <==> exists x :: x in ClosureOf(base, {m}) && !SameEntry(base, head, x)
  {
    if InCone(base, head, m) {
      var g := UnionEdges(base, head);
      var c :| !SameEntry(base, head, c) && Reaches(g, m, c);
      var p :| WalkBetween(g, p, m, c);
      var i := 0;
      while SameEntry(base, head, p[i])
        invariant 0 <= i < |p|
        invariant forall j :: 0 <= j < i ==> SameEntry(base, head, p[j])
        decreases |p| - i
      {
        i := i + 1;
      }
      FirstChanged(base, head, p, i);
      ClosureIsReach(base, {m}, p[i]);
    }
    if x :| x in ClosureOf(base, {m}) && !SameEntry(base, head, x) {
      ClosureIsReach(base, {m}, x);
      MoreEdges(Edges(base), UnionEdges(base, head), m, x);
    }
  }

  lemma FirstChanged(base: Lock, head: Lock, p: seq<string>, i: nat)
    requires Walk(UnionEdges(base, head), p) && i < |p|
    requires forall j :: 0 <= j < i ==> SameEntry(base, head, p[j])
    ensures Reaches(Edges(base), p[0], p[i])
  {
    var q := p[..i + 1];
    forall j | 0 <= j < i ensures q[j + 1] in Succ(Edges(base), q[j]) {
      assert p[j + 1] in Succ(UnionEdges(base, head), p[j]);
    }
    assert WalkBetween(Edges(base), q, p[0], p[i]);
  }
}
