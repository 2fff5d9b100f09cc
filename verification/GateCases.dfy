/** The gate at concrete workspaces and lock files. */
module GateCases {
  import opened Text
  import opened Graph
  import opened LockGraph
  import opened Gate
  import opened SuiteMemo
  import opened GateSoundness
  import L = CargoLock

  function Bare(name: string, version: string, deps: seq<L.DepRef>): L.Block {
    L.Block(name, Some(version), None, None, deps)
  }

  // ---- One name at two versions ----

  /** `b` needs version 1 of `d`, `c` needs version 2, and `a` either of them. */
  function TwoVersions(version: string): seq<L.Block> {
    [Bare("a", "1", [L.DepRef("d", Some(version))]),
     Bare("b", "1", [L.DepRef("d", Some("1"))]),
     Bare("c", "1", [L.DepRef("d", Some("2"))]),
     Bare("d", "1", []),
     Bare("d", "2", [])]
  }

  lemma OneDepUnversioned(b: L.Block, d: string, v: string, w: string)
    ensures L.Unversioned(b.(deps := [L.DepRef(d, Some(v))])) == L.Unversioned(b.(deps := [L.DepRef(d, Some(w))]))
  {
    assert L.Unversioned(b.(deps := [L.DepRef(d, Some(v))])).deps == [L.DepRef(d, None)];
    assert L.Unversioned(b.(deps := [L.DepRef(d, Some(w))])).deps == [L.DepRef(d, None)];
  }

  lemma VersionsForgotten(v: string, w: string)
    ensures L.SameButVersions(TwoVersions(v), TwoVersions(w))
  {
    OneDepUnversioned(Bare("a", "1", []), "d", v, w);
  }

  lemma VersionsWellFormed(v: string)
    requires L.OneLine(v)
    ensures forall b <- TwoVersions(v) :: L.WellFormed(b)
  {
    BareIsWellFormed("a", "1", "d", v);
    BareIsWellFormed("b", "1", "d", "1");
    BareIsWellFormed("c", "1", "d", "2");
  }

  lemma BareIsWellFormed(name: string, version: string, d: string, w: string)
    requires L.OneLine(name) && L.OneLine(version) && L.WellFormedDep(L.DepRef(d, Some(w)))
    ensures L.WellFormed(Bare(name, version, [L.DepRef(d, Some(w))]))
  {}

  lemma VersionsDiffer(v: string, w: string)
    requires v != w
    ensures TwoVersions(v) != TwoVersions(w)
  {
    assert TwoVersions(v)[0].deps[0].version != TwoVersions(w)[0].deps[0].version;
  }

  /** Moving `a` from version 1 of `d` to version 2 changes the lock, and neither gate nor keys see it. */
  lemma VersionSwitchIsUnseen(base: Tree, head: Tree, members: seq<Crate>, p: string, suite: Suite)
    requires base.lockText == L.Printed([], 4, TwoVersions("1"))
      && head == base.(lockText := L.Printed([], 4, TwoVersions("2")))
    ensures TwoVersions("1") != TwoVersions("2")
    ensures var d := DeltaOf(base, head, members, ["Cargo.lock"]); !Escalates(d) && !Affected(d, p)
    ensures SameKey(base, head, p, suite)
  {
    VersionsDiffer("1", "2");
    VersionsForgotten("1", "2");
    VersionsWellFormed("1");
    VersionsWellFormed("2");
    L.DepVersionsAreForgotten([], 4, TwoVersions("1"), TwoVersions("2"));
    L.RoundTrip([], 4, TwoVersions("1"));
    SameReadIsUnseen(base, head, members, p, suite);
  }

  // ---- Two members of a workspace ----

  function Two(a: Crate, b: Crate): map<string, string> {
    map[a.name := a.dir, b.name := b.dir]
  }

  lemma TwoAreDescribed(a: Crate, b: Crate)
    requires a.name != b.name && a.dir != b.dir && IsDir(a.dir) && IsDir(b.dir)
    ensures Describes([a, b], Two(a, b)) && AllDirs(Two(a, b)) && DistinctDirs(Two(a, b)) && a.name in Names([a, b])
  {
    assert [a, b][0] == a && [a, b][1] == b;
  }

  lemma NoDepsNoReach<N(!new)>(a: Member<N>, b: Member<N>)
    requires a.name != b.name && a.deps == []
    ensures !Reaches(Workspace([a, b]), a.name, b.name)
  {
    assert Succ(Workspace([a, b]), a.name) == {};
    if Reaches(Workspace([a, b]), a.name, b.name) { ClosedHoldsReached(Workspace([a, b]), {a.name}, a.name, b.name); }
  }

  /** A dependency that is no member leads nowhere. */
  lemma OutsideDepNoReach<N(!new)>(a: Member<N>, b: Member<N>, e: N)
    requires a.name != b.name && a.deps == [e] && e != a.name && e != b.name
    ensures !Reaches(Workspace([a, b]), a.name, b.name)
  {
    var g := Workspace([a, b]);
    forall n, m | n in {a.name, e} && m in Succ(g, n) ensures m in {a.name, e} {
      var i, j :| 0 <= i < 2 && 0 <= j < |[a, b][i].deps| && [a, b][i].name == n && [a, b][i].deps[j] == m;
    }
    if Reaches(g, a.name, b.name) { ClosedHoldsReached(g, {a.name, e}, a.name, b.name); }
  }

  lemma DepReached<N(!new)>(a: Member<N>, b: Member<N>)
    requires a.deps == [b.name]
    ensures Reaches(Workspace([a, b]), a.name, a.name) && Reaches(Workspace([a, b]), a.name, b.name)
  {
    ReachesSelf(Workspace([a, b]), a.name);
    WorkspaceEdge([a, b], 0, b.name);
    ReachesSelf(Workspace([a, b]), b.name);
    ReachesAfter(Workspace([a, b]), a.name, b.name, b.name);
  }

  lemma LockEdge(blocks: seq<L.Block>, i: nat, j: nat)
    requires L.DistinctNames(blocks) && i < |blocks| && j < |blocks[i].deps|
    ensures blocks[i].deps[j].name in Succ(Edges(L.Denoted(blocks)), blocks[i].name)
  {
    L.DepsOfBlock(blocks, i);
    assert blocks[i].name in L.Names(blocks) && blocks[i].deps[j].name in L.DepNames(blocks[i].deps);
  }

  /** `a` needs the outside package `e`, and `e` needs the member `b`. */
  const THROUGH_OUTSIDE := [Bare("a", "1", [L.DepRef("e", None)]), Bare("e", "1", [L.DepRef("b", None)]),
      Bare("b", "1", [])]

  lemma ThroughOutside()
    ensures var lock := L.Denoted(THROUGH_OUTSIDE); "a" in lock && Reaches(Edges(lock), "a", "b")
  {
    var lock := L.Denoted(THROUGH_OUTSIDE);
    assert THROUGH_OUTSIDE[0].name in L.Names(THROUGH_OUTSIDE);
    LockEdge(THROUGH_OUTSIDE, 0, 0);
    LockEdge(THROUGH_OUTSIDE, 1, 0);
    ReachesSelf(Edges(lock), "b");
    ReachesAfter(Edges(lock), "e", "b", "b");
    ReachesAfter(Edges(lock), "a", "e", "b");
  }

  /** A lock path through an outside package lets a change of `b` pass `a` by. */
  lemma OutsidePathIsMissed(a: Crate, b: Crate)
    requires a == Member("a", "a/", ["e"]) && b == Member("b", "b/", [])
    ensures !NeverMissed([a, b], Two(a, b), L.Printed([], 4, THROUGH_OUTSIDE), "a")
  {
    var lock, dirs := L.Denoted(THROUGH_OUTSIDE), Two(a, b);
    L.RoundTrip([], 4, THROUGH_OUTSIDE);
    TwoAreDescribed(a, b);
    ThroughOutside();
    OutsideDepNoReach(a, b, "e");
    LetterIsCharged("b/");
    assert ReadsThrough(dirs, lock, "a", "b", "b");
    GateIsSoundExactly([a, b], dirs, L.Printed([], 4, THROUGH_OUTSIDE), "a");
  }

  lemma LetterIsCharged(dir: string)
    requires dir != "" && dir[0] in {'a', 'b', 'o'}
    ensures Charged(dir) && Apart(dir, GUESTS_DIR) && !StartsWith(dir, ROOT_MANIFEST)
  {
    assert GUESTS_DIR[0] == 'c' && ROOT_MANIFEST[0] == 'C';
    forall prefix <- FULL_PREFIXES ensures !StartsWith(dir, prefix) { assert prefix[0] !in {'a', 'b', 'o'}; }
  }

  /** `o` needs `i`. */
  const OUTER_INNER := [Bare("o", "1", [L.DepRef("i", None)]), Bare("i", "1", [])]

  /** A crate nested in one that depends on it is never missed. */
  lemma NestedDependencyIsCovered(outer: Crate, inner: Crate)
    requires outer == Member("o", "o/", ["i"]) && inner == Member("i", "o/i/", [])
    ensures NeverMissed([outer, inner], Two(outer, inner), L.Printed([], 4, OUTER_INNER), "o")
  {
    var members, dirs := [outer, inner], Two(outer, inner);
    L.RoundTrip([], 4, OUTER_INNER);
    TwoAreDescribed(outer, inner);
    LetterIsCharged("o/");
    LetterIsCharged("o/i/");
    DepReached(outer, inner);
    AllReachedIsCovered(members, dirs, L.Denoted(OUTER_INNER), "o");
    GateIsSoundExactly(members, dirs, L.Printed([], 4, OUTER_INNER), "o");
  }

  const STRANGERS := [Bare("o", "1", []), Bare("i", "1", [])]

  lemma OuterReadsInner(outer: Crate, inner: Crate, lock: L.Lock)
    requires outer == Member("o", "o/", []) && inner == Member("i", "o/i/", [])
    ensures ReadsThrough(Two(outer, inner), lock, "o", "o", "i")
  {
    ReachesSelf(Edges(lock), "o");
    LetterIsCharged("o/i/");
    assert "o/i/"[..2] == "o/";
  }

  /** A crate nested in one that does not depend on it is. */
  lemma NestedStrangerIsMissed(outer: Crate, inner: Crate)
    requires outer == Member("o", "o/", []) && inner == Member("i", "o/i/", [])
    ensures !NeverMissed([outer, inner], Two(outer, inner), L.Printed([], 4, STRANGERS), "o")
  {
    L.RoundTrip([], 4, STRANGERS);
    TwoAreDescribed(outer, inner);
    assert STRANGERS[0].name in L.Names(STRANGERS);
    NoDepsNoReach(outer, inner);
    OuterReadsInner(outer, inner, L.Denoted(STRANGERS));
    GateIsSoundExactly([outer, inner], Two(outer, inner), L.Printed([], 4, STRANGERS), "o");
  }
}
