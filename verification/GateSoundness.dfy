/** The diff gate and the memo index agree: the suites the gate leaves out keep their keys, whatever the
    change, exactly when the gate feels every path that their keys read. */
module GateSoundness {
  import opened Text
  import opened Graph
  import opened PathRange
  import opened LockGraph
  import opened Gate
  import opened SuiteMemo
  import CargoLock

  // ---- What a key reads and what the gate feels ----

  /** The keys of the suites of `p` read this path. */
  ghost predicate Reads(dirs: map<string, string>, lock: CargoLock.Lock, p: string, path: string) {
    || StartsWith(path, ROOT_MANIFEST)
    || StartsWith(path, RUNNER_DIR)
    || (p in GUEST_LINKED && StartsWith(path, GUESTS_DIR))
    || exists q :: ReadsCrate(dirs, lock, p, q) && StartsWith(path, dirs[q])
  }

  /** By name: the root manifest, the runner, the guests for the five packages that load them, and the crates
      the lock makes the member depend on. */
  lemma ReadsByName(dirs: map<string, string>, lock: CargoLock.Lock, p: string, path: string)
    ensures Reads(dirs, lock, p, path) <==>
      || StartsWith(path, "Cargo.toml") || StartsWith(path, "xtask/")
      || (StartsWith(path, "crates/vhc/guests/") && p in {"daemon-vhc-host", "daemon-vhc-testkit",
           "daemon-vhc-session", "daemon-vhc-worker", "daemon-vhc-acceptance"})
      || exists q :: q in dirs && Reaches(Edges(lock), p, q) && StartsWith(path, dirs[q])
  {
    if Reads(dirs, lock, p, path) && exists q :: ReadsCrate(dirs, lock, p, q) && StartsWith(path, dirs[q]) {
      var q :| ReadsCrate(dirs, lock, p, q) && StartsWith(path, dirs[q]);
    }
    if exists q :: q in dirs && Reaches(Edges(lock), p, q) && StartsWith(path, dirs[q]) {
      var q :| q in dirs && Reaches(Edges(lock), p, q) && StartsWith(path, dirs[q]);
      assert ReadsCrate(dirs, lock, p, q);
    }
  }

  ghost predicate ReadsCrate(dirs: map<string, string>, lock: CargoLock.Lock, p: string, q: string) {
    q in dirs && Reaches(Edges(lock), p, q)
  }

  /** A change of this path makes the gate escalate or select the suites of `p`. */
  ghost predicate Felt(members: seq<Crate>, p: string, path: string) {
    match Classify(path, members)
    case FullGate => true
    case InCrate(r) => Reaches(Workspace(members), p, r)
    case Guests => p in GUEST_LINKED
    case LockFile => false
    case Ignored => false
  }

  /** The member list and the member directories say the same. */
  ghost predicate Describes(members: seq<Crate>, dirs: map<string, string>) {
    && (forall m <- members :: m.name in dirs && dirs[m.name] == m.dir)
    && (forall n :: n in dirs ==> n in Names(members))
  }

  ghost predicate DistinctDirs(dirs: map<string, string>) {
    forall n, m :: n in dirs && m in dirs && dirs[n] == dirs[m] ==> n == m
  }

  predicate Apart(a: string, b: string) {
    !StartsWith(a, b) && !StartsWith(b, a)
  }

  /** Changes below this directory are charged to a crate. */
  predicate Charged(dir: string) {
    !StartsWith(dir, GUESTS_DIR) && !StartsWithAny(dir, FULL_PREFIXES)
  }

  /** `r` lies in a crate that the keys of `p` read, and its changes are charged to it. */
  ghost predicate ReadsThrough(dirs: map<string, string>, lock: CargoLock.Lock, p: string, q: string, r: string) {
    ReadsCrate(dirs, lock, p, q) && r in dirs && StartsWith(dirs[r], dirs[q]) && Charged(dirs[r])
  }

  /** The declared dependencies of `p` cover what its keys read: every crate that lies in a crate the
      lock makes `p` depend on, that crate included; every crate named after the root manifest; and the
      guests, when such a crate overlaps them. */
  ghost predicate Covered(members: seq<Crate>, dirs: map<string, string>, lock: CargoLock.Lock, p: string) {
    && (forall q, r :: ReadsThrough(dirs, lock, p, q, r) ==> Reaches(Workspace(members), p, r))
    && (forall r :: r in dirs && StartsWith(dirs[r], ROOT_MANIFEST) ==> Reaches(Workspace(members), p, r))
    && (forall q :: ReadsCrate(dirs, lock, p, q) && !Apart(dirs[q], GUESTS_DIR) ==> p in GUEST_LINKED)
  }

  lemma BothPrefixes(path: string, a: string, b: string)
    requires StartsWith(path, a) && StartsWith(path, b)
    ensures StartsWith(a, b) || StartsWith(b, a)
    ensures |b| <= |a| ==> StartsWith(a, b)
  {
    if |a| <= |b| { assert b[..|a|] == path[..|a|] == a; } else { assert a[..|b|] == path[..|b|] == b; }
  }

  lemma PrefixOfPrefix(path: string, dir: string, prefix: string)
    requires StartsWith(path, dir) && StartsWith(dir, prefix)
    ensures StartsWith(path, prefix)
  {
    assert path[..|prefix|] == dir[..|prefix|];
  }

  /** A path in a crate has an owner in that crate. */
  lemma OwnerInside(members: seq<Crate>, dirs: map<string, string>, path: string, q: string)
    requires Describes(members, dirs) && q in dirs && StartsWith(path, dirs[q])
    ensures Owner(path, members).Some?
    ensures var r := Owner(path, members).value;
      r.name in dirs && dirs[r.name] == r.dir && StartsWith(path, r.dir) && StartsWith(r.dir, dirs[q])
  {
    var i :| 0 <= i < |members| && members[i].name == q;
    assert members[i] in members;
    BothPrefixes(path, Owner(path, members).value.dir, dirs[q]);
  }

  lemma OwnerIsCharged(path: string, dir: string)
    requires StartsWith(path, dir) && !StartsWith(path, GUESTS_DIR) && !StartsWithAny(path, FULL_PREFIXES)
    ensures Charged(dir)
  {
    if StartsWith(dir, GUESTS_DIR) { PrefixOfPrefix(path, dir, GUESTS_DIR); }
    if StartsWithAny(dir, FULL_PREFIXES) {
      var prefix :| prefix in FULL_PREFIXES && StartsWith(dir, prefix);
      PrefixOfPrefix(path, dir, prefix);
    }
  }

  lemma DirPathIsNoLock(path: string, dir: string)
    requires IsDir(dir) && StartsWith(path, dir)
    ensures path != "Cargo.lock"
  {
    assert path[|dir| - 1] == '/' && '/' !in "Cargo.lock";
  }

  lemma CratePathIsFelt(members: seq<Crate>, dirs: map<string, string>, lock: CargoLock.Lock, p: string, q: string,
      path: string)
    requires Describes(members, dirs) && AllDirs(dirs) && Covered(members, dirs, lock, p)
    requires ReadsCrate(dirs, lock, p, q) && StartsWith(path, dirs[q])
    ensures Felt(members, p, path)
  {
    DirPathIsNoLock(path, dirs[q]);
    if StartsWith(path, GUESTS_DIR) {
      BothPrefixes(path, dirs[q], GUESTS_DIR);
    } else if !StartsWithAny(path, FULL_PREFIXES) && path !in FULL_FILES {
      OwnerInside(members, dirs, path, q);
      var r := Owner(path, members).value;
      OwnerIsCharged(path, r.dir);
      assert ReadsThrough(dirs, lock, p, q, r.name);
    }
  }

  lemma RunnerPathEscalates(path: string, members: seq<Crate>)
    requires StartsWith(path, RUNNER_DIR)
    ensures Classify(path, members) == FullGate
  {
    assert path[0] == 'x' && GUESTS_DIR[0] == 'c' && "Cargo.lock"[0] == 'C';
    assert FULL_PREFIXES[0] == RUNNER_DIR && RUNNER_DIR in FULL_PREFIXES;
  }

  lemma NotIgnored(path: string)
    requires path != "" && path[0] == 'C'
    ensures !StartsWithAny(path, IGNORED_PREFIXES) && path !in IGNORED_FILES
  {
    forall p <- IGNORED_PREFIXES ensures !StartsWith(path, p) { assert p[0] != 'C'; }
    forall f <- IGNORED_FILES ensures path != f { assert f[0] != 'C'; }
  }

  /** A directory on the way to a path that starts like the root manifest starts like it too. */
  lemma ManifestDir(path: string, dir: string)
    requires StartsWith(path, ROOT_MANIFEST) && StartsWith(path, dir) && IsDir(dir)
    ensures StartsWith(dir, ROOT_MANIFEST)
  {
    BothPrefixes(path, dir, ROOT_MANIFEST);
    assert '/' !in ROOT_MANIFEST;
  }

  lemma ManifestPathIsFelt(members: seq<Crate>, dirs: map<string, string>, lock: CargoLock.Lock, p: string,
      path: string)
    requires Describes(members, dirs) && AllDirs(dirs) && Covered(members, dirs, lock, p)
      && StartsWith(path, ROOT_MANIFEST)
    ensures Felt(members, p, path)
  {
    assert path[0] == 'C' && path[6] == 't' && GUESTS_DIR[0] == 'c' && "Cargo.lock"[6] == 'l';
    NotIgnored(path);
    var owner := Owner(path, members);
    if owner.Some? { ManifestDir(path, owner.value.dir); }
  }

  lemma ReadIsFelt(members: seq<Crate>, dirs: map<string, string>, lock: CargoLock.Lock, p: string, path: string)
    requires Describes(members, dirs) && AllDirs(dirs) && Covered(members, dirs, lock, p) && Reads(dirs, lock, p, path)
    ensures Felt(members, p, path)
  {
    if StartsWith(path, ROOT_MANIFEST) {
      ManifestPathIsFelt(members, dirs, lock, p, path);
    } else if StartsWith(path, RUNNER_DIR) {
      RunnerPathEscalates(path, members);
    } else if !(p in GUEST_LINKED && StartsWith(path, GUESTS_DIR)) {
      var q :| ReadsCrate(dirs, lock, p, q) && StartsWith(path, dirs[q]);
      CratePathIsFelt(members, dirs, lock, p, q, path);
    }
  }

  /** A member that depends on all others, with the guests apart from all, is covered. */
  lemma AllReachedIsCovered(members: seq<Crate>, dirs: map<string, string>, lock: CargoLock.Lock, p: string)
    requires forall n :: n in dirs ==> Reaches(Workspace(members), p, n) && Apart(dirs[n], GUESTS_DIR)
    ensures Covered(members, dirs, lock, p)
  {}

  // ---- A path that is read and not felt ----

  /** A file directly in a directory. */
  function FileIn(dir: string): string {
    dir + "x"
  }

  /** A directory that holds the file holds the directory. */
  lemma DirOfFile(dir: string, outer: string)
    requires IsDir(outer)
    ensures StartsWith(FileIn(dir), outer) <==> StartsWith(dir, outer)
  {
    assert FileIn(dir)[|dir|] == 'x';
    if StartsWith(dir, outer) { PrefixOfPrefix(FileIn(dir), dir, outer); }
  }

  lemma DirPathIsNoFile(path: string, dir: string)
    requires IsDir(dir) && StartsWith(path, dir)
    ensures path !in FULL_FILES
  {
    assert path[|dir| - 1] == '/';
    forall f <- FULL_FILES ensures path != f { assert '/' !in f; }
  }

  lemma FileIsCharged(members: seq<Crate>, dirs: map<string, string>, r: string)
    requires Describes(members, dirs) && AllDirs(dirs) && DistinctDirs(dirs) && r in dirs && Charged(dirs[r])
    ensures Classify(FileIn(dirs[r]), members) == InCrate(r)
  {
    var path := FileIn(dirs[r]);
    DirOfFile(dirs[r], GUESTS_DIR);
    forall prefix <- FULL_PREFIXES ensures !StartsWith(path, prefix) { DirOfFile(dirs[r], prefix); }
    DirPathIsNoLock(path, dirs[r]);
    DirPathIsNoFile(path, dirs[r]);
    OwnerInside(members, dirs, path, r);
    var owner := Owner(path, members).value;
    DirOfFile(dirs[r], owner.dir);
    assert owner.dir == dirs[r];
  }

  /** Where `p` is not covered, some path is read and not felt. */
  lemma UncoveredIsUnfelt(members: seq<Crate>, dirs: map<string, string>, lock: CargoLock.Lock, p: string)
      returns (path: string)
    requires Describes(members, dirs) && AllDirs(dirs) && DistinctDirs(dirs) && !Covered(members, dirs, lock, p)
    ensures Reads(dirs, lock, p, path) && !Felt(members, p, path)
  {
    if q, r :| ReadsThrough(dirs, lock, p, q, r) && !Reaches(Workspace(members), p, r) {
      path := FileIn(dirs[r]);
      FileIsCharged(members, dirs, r);
      PrefixOfPrefix(path, dirs[r], dirs[q]);
    } else if r :| r in dirs && StartsWith(dirs[r], ROOT_MANIFEST) && !Reaches(Workspace(members), p, r) {
      path := FileIn(dirs[r]);
      ManifestIsCharged(dirs[r]);
      FileIsCharged(members, dirs, r);
      PrefixOfPrefix(path, dirs[r], ROOT_MANIFEST);
    } else {
      var q :| ReadsCrate(dirs, lock, p, q) && !Apart(dirs[q], GUESTS_DIR) && p !in GUEST_LINKED;
      var dir := if StartsWith(dirs[q], GUESTS_DIR) then dirs[q] else GUESTS_DIR;
      path := FileIn(dir);
      PrefixOfPrefix(path, dir, dirs[q]);
      PrefixOfPrefix(path, dir, GUESTS_DIR);
    }
  }

  lemma ManifestIsCharged(dir: string)
    requires StartsWith(dir, ROOT_MANIFEST)
    ensures Charged(dir)
  {
    assert dir[0] == 'C' && GUESTS_DIR[0] == 'c';
    forall prefix <- FULL_PREFIXES ensures !StartsWith(dir, prefix) { assert prefix[0] != 'C'; }
  }

  // ---- A gate run ----

  ghost predicate Listed(t: Tree) {
    ValidTree(t) && NoRepeats(t.index) && NoRepeats(t.dirty)
  }

  ghost predicate SameAt(base: Tree, head: Tree, e: Entry) {
    (e in base.index <==> e in head.index) && (e in base.dirty <==> e in head.dirty)
  }

  /** Whatever is not reported as changed is the same in both trees. */
  ghost predicate Covers(changed: seq<string>, base: Tree, head: Tree) {
    && (forall e: Entry :: e.path !in changed ==> SameAt(base, head, e))
    && ("Cargo.lock" !in changed ==> base.lockText == head.lockText)
  }

  predicate Stayed(base: Tree, head: Tree, q: string) {
    q in base.dirs && q in head.dirs && base.dirs[q] == head.dirs[q]
  }

  ghost predicate ChangedInside(changed: seq<string>, dir: string) {
    exists path <- changed :: StartsWith(path, dir)
  }

  /** The lock makes `p` depend on `q`. */
  ghost predicate Depends(lockText: string, p: string, q: string) {
    CargoLock.Parsed(lockText).Ok? && Reaches(Edges(CargoLock.Parsed(lockText).value), p, q)
  }

  /** A crate that `p` depends on and that comes or moves brings changed files. */
  ghost predicate MovesShow(base: Tree, head: Tree, changed: seq<string>, p: string) {
    forall q :: q in head.dirs && Depends(head.lockText, p, q) && !Stayed(base, head, q) ==>
      ChangedInside(changed, head.dirs[q])
  }

  /** `changed` tells the two trees apart, under one toolchain and environment. */
  ghost predicate Traced(base: Tree, head: Tree, changed: seq<string>, p: string) {
    && Listed(base) && Listed(head) && MovesShow(base, head, changed, p) && Covers(changed, base, head)
    && base.rustc == head.rustc && base.env == head.env
  }

  ghost predicate EntryChanged(base: Tree, head: Tree, q: string) {
    CargoLock.Parsed(base.lockText).Ok? && CargoLock.Parsed(head.lockText).Ok? ==>
      !SameEntry(CargoLock.Parsed(base.lockText).value, CargoLock.Parsed(head.lockText).value, q)
  }

  /** A directory apart from all crates, from the guests and from what the gate ignores. */
  ghost predicate Vacated(members: seq<Crate>, dir: string) {
    && Apart(dir, GUESTS_DIR)
    && (forall m <- members :: Apart(dir, m.dir))
    && (forall prefix <- IGNORED_PREFIXES :: Apart(dir, prefix))
  }

  /** A crate that stops being one changes its lock entry, or comes with a changed root manifest, or
      leaves changed files in a directory that is nobody's now. */
  ghost predicate GoesVisibly(base: Tree, head: Tree, members: seq<Crate>, changed: seq<string>, q: string)
    requires q in base.dirs
  {
    || EntryChanged(base, head, q)
    || ROOT_MANIFEST in changed
    || (ChangedInside(changed, base.dirs[q]) && Vacated(members, base.dirs[q]))
  }

  ghost predicate GoneShow(base: Tree, head: Tree, members: seq<Crate>, changed: seq<string>, p: string) {
    forall q :: q in base.dirs && q !in head.dirs && Depends(base.lockText, p, q) ==>
      GoesVisibly(base, head, members, changed, q)
  }

  function DeltaOf(base: Tree, head: Tree, members: seq<Crate>, changed: seq<string>): Delta {
    Delta(changed, members, base.lockText, head.lockText)
  }

  /** The gate at `head` against `base` neither escalates nor selects the suites of the member `p`. */
  ghost predicate Unselected(base: Tree, head: Tree, members: seq<Crate>, changed: seq<string>, p: string) {
    && Traced(base, head, changed, p) && Describes(members, head.dirs) && p in Names(members)
    && !Escalates(DeltaOf(base, head, members, changed)) && !Affected(DeltaOf(base, head, members, changed), p)
  }

  ghost predicate LeftOut(base: Tree, head: Tree, members: seq<Crate>, changed: seq<string>, p: string) {
    Unselected(base, head, members, changed, p) && GoneShow(base, head, members, changed, p)
  }

  lemma TouchedBy(d: Delta, path: string)
    requires path in d.changed
    ensures Touches(d, Classify(path, d.members))
  {
    var i :| 0 <= i < |d.changed| && d.changed[i] == path;
    assert Inputs(d)[i] == Classify(path, d.members);
  }

  lemma FeltIsTaken(d: Delta, path: string, p: string)
    requires path in d.changed && Felt(d.members, p, path)
    ensures Escalates(d) || Affected(d, p)
  {
    TouchedBy(d, path);
    var input := Classify(path, d.members);
    if input.InCrate? { assert Seed(d, input.name); }
  }

  // ---- Unread changes keep the key ----

  ghost predicate Unread(dirs: map<string, string>, lock: CargoLock.Lock, p: string, changed: seq<string>) {
    forall path <- changed :: !Reads(dirs, lock, p, path)
  }

  /** Both locks say the same about everything `p` depends on. */
  ghost predicate SameLockFor(a: CargoLock.Lock, b: CargoLock.Lock, p: string) {
    && (p in a <==> p in b)
    && ClosureOf(a, {p}) == ClosureOf(b, {p})
    && forall n <- ClosureOf(b, {p}) :: SameEntry(a, b, n)
  }

  /** Nothing changed under the prefix: the listings under it are the same. */
  lemma QuietPrefix(base: Tree, head: Tree, changed: seq<string>, prefix: string)
    requires Listed(base) && Listed(head) && Covers(changed, base, head) && !ChangedInside(changed, prefix)
    ensures SamePrefix(base, head, prefix)
  {
    forall e: Entry | StartsWith(e.path, prefix) ensures SameAt(base, head, e) { assert e.path !in changed; }
    UnderCongruent(base.index, head.index, prefix);
    UnderCongruent(base.dirty, head.dirty, prefix);
  }

  lemma UntouchedCrate(base: Tree, head: Tree, changed: seq<string>, p: string, q: string)
    requires Traced(base, head, changed, p) && Depends(head.lockText, p, q)
    requires q in head.dirs && !ChangedInside(changed, head.dirs[q])
    ensures Stayed(base, head, q) && SamePrefix(base, head, head.dirs[q])
  {
    QuietPrefix(base, head, changed, head.dirs[q]);
  }

  /** No crate that `p` depends on stops being one. */
  ghost predicate Kept(base: Tree, head: Tree, p: string) {
    forall q :: q in base.dirs && Depends(base.lockText, p, q) ==> q in head.dirs
  }

  /** Nothing that the keys of `p` read has changed. */
  ghost predicate Untouched(base: Tree, head: Tree, changed: seq<string>, p: string) {
    && Traced(base, head, changed, p) && Kept(base, head, p) && Compute(base).Some? && Compute(head).Some?
    && SameLockFor(Compute(base).value.lock, Compute(head).value.lock, p)
    && Unread(head.dirs, Compute(head).value.lock, p, changed)
  }

  /** Both ends say the same about every name the keys of `p` name. */
  lemma UnreadName(base: Tree, head: Tree, changed: seq<string>, p: string, n: string)
    requires Untouched(base, head, changed, p) && n in ClosureOf(Compute(head).value.lock, {p})
    ensures SameName(Compute(base).value, Compute(head).value, n)
  {
    var a, b := Compute(base).value, Compute(head).value;
    ClosureIsReach(b.lock, {p}, n);
    ClosureIsReach(a.lock, {p}, n);
    if n in head.dirs {
      assert ReadsCrate(head.dirs, b.lock, p, n);
      UntouchedCrate(base, head, changed, p, n);
    } else {
      assert SameEntry(a.lock, b.lock, n) && Depends(base.lockText, p, n);
    }
  }

  lemma UnreadGlobals(base: Tree, head: Tree, changed: seq<string>, lock: CargoLock.Lock, p: string)
    requires Traced(base, head, changed, p) && Unread(head.dirs, lock, p, changed)
    ensures Globals(base) == Globals(head)
    ensures p in GUEST_LINKED ==> HashPrefix(base, GUESTS_DIR) == HashPrefix(head, GUESTS_DIR)
  {
    QuietPrefix(base, head, changed, ROOT_MANIFEST);
    QuietPrefix(base, head, changed, RUNNER_DIR);
    GlobalsAreExact(base, head);
    if p in GUEST_LINKED {
      QuietPrefix(base, head, changed, GUESTS_DIR);
      PrefixDigestIsExact(base, head, GUESTS_DIR);
    }
  }

  ghost predicate SameKey(base: Tree, head: Tree, p: string, suite: Suite) {
    Compute(base).Some? && Compute(head).Some?
      && KeyOf(Compute(base).value, {p}, suite) == KeyOf(Compute(head).value, {p}, suite)
  }

  lemma UnreadInputs(base: Tree, head: Tree, changed: seq<string>, p: string)
    requires Untouched(base, head, changed, p)
    ensures SameInputs(Compute(base).value, {p}, Compute(head).value, {p})
  {
    var a, b := Compute(base).value, Compute(head).value;
    forall n <- ClosureOf(a.lock, {p}) ensures SameName(a, b, n) { UnreadName(base, head, changed, p, n); }
    UnreadGlobals(base, head, changed, b.lock, p);
  }

  lemma ComputeIsValid(t: Tree)
    requires ValidTree(t) && Compute(t).Some?
    ensures Valid(Compute(t).value)
  {}

  lemma SameInputsSameKey(a: Memo, b: Memo, p: string, suite: Suite)
    requires Valid(a) && Valid(b) && (p in a.lock <==> p in b.lock) && SameInputs(a, {p}, b, {p})
    ensures KeyOf(a, {p}, suite) == KeyOf(b, {p}, suite)
  {
    if p in a.lock { KeyIsExact(a, {p}, suite, b, {p}, suite); }
  }

  /** Whatever changes outside what the keys of `p` read leaves them alone. */
  lemma UnreadKeepsKey(base: Tree, head: Tree, changed: seq<string>, p: string, suite: Suite)
    requires Untouched(base, head, changed, p)
    ensures SameKey(base, head, p, suite)
  {
    UnreadInputs(base, head, changed, p);
    ComputeIsValid(base);
    ComputeIsValid(head);
    SameInputsSameKey(Compute(base).value, Compute(head).value, p, suite);
  }

  // ---- The suites the gate leaves out ----

  lemma LockPathIsLock(members: seq<Crate>)
    ensures Classify("Cargo.lock", members) == LockFile
  {
    assert "Cargo.lock"[0] == 'C' && GUESTS_DIR[0] == 'c';
  }

  lemma LeftOutLock(base: Tree, head: Tree, members: seq<Crate>, changed: seq<string>, p: string)
    requires Unselected(base, head, members, changed, p) && Compute(head).Some?
    ensures Compute(base).Some? && SameLockFor(Compute(base).value.lock, Compute(head).value.lock, p)
  {
    if "Cargo.lock" in changed {
      TouchedBy(DeltaOf(base, head, members, changed), "Cargo.lock");
      LockPathIsLock(members);
      ReachesSelf(Workspace(members), p);
      OutsideConeUntouched(Compute(base).value.lock, Compute(head).value.lock, p);
    }
  }

  /** Below a vacated directory every change escalates. */
  lemma VacatedEscalates(members: seq<Crate>, dir: string, path: string)
    requires IsDir(dir) && Vacated(members, dir) && StartsWith(path, dir)
    ensures Classify(path, members) == FullGate
  {
    DirPathIsNoLock(path, dir);
    if StartsWith(path, GUESTS_DIR) { BothPrefixes(path, dir, GUESTS_DIR); }
    forall m <- members ensures !StartsWith(path, m.dir) {
      if StartsWith(path, m.dir) { BothPrefixes(path, dir, m.dir); }
    }
    NotIgnoredIn(path, dir);
  }

  lemma NotIgnoredIn(path: string, dir: string)
    requires IsDir(dir) && StartsWith(path, dir) && forall prefix <- IGNORED_PREFIXES :: Apart(dir, prefix)
    ensures !StartsWithAny(path, IGNORED_PREFIXES) && path !in IGNORED_FILES
  {
    forall prefix <- IGNORED_PREFIXES ensures !StartsWith(path, prefix) {
      if StartsWith(path, prefix) { BothPrefixes(path, dir, prefix); }
    }
    assert path[|dir| - 1] == '/';
    forall f <- IGNORED_FILES ensures path != f { assert '/' !in f; }
  }

  lemma RootManifestEscalates(members: seq<Crate>)
    ensures Classify(ROOT_MANIFEST, members) == FullGate
  {
    assert ROOT_MANIFEST[0] == 'C' && GUESTS_DIR[0] == 'c' && ROOT_MANIFEST[6] == 't' && "Cargo.lock"[6] == 'l';
    assert FULL_FILES[0] == ROOT_MANIFEST;
  }

  /** A crate that went escalated the gate or changed its lock entry. */
  lemma GoneIsSeen(base: Tree, head: Tree, members: seq<Crate>, changed: seq<string>, q: string)
    requires ValidTree(base) && q in base.dirs && GoesVisibly(base, head, members, changed, q)
    ensures EntryChanged(base, head, q) || Escalates(DeltaOf(base, head, members, changed))
  {
    if !EntryChanged(base, head, q) {
      var path := ROOT_MANIFEST;
      if ROOT_MANIFEST in changed {
        RootManifestEscalates(members);
      } else {
        path :| path in changed && StartsWith(path, base.dirs[q]);
        VacatedEscalates(members, base.dirs[q], path);
      }
      TouchedBy(DeltaOf(base, head, members, changed), path);
    }
  }

  lemma LeftOutKeeps(base: Tree, head: Tree, members: seq<Crate>, changed: seq<string>, p: string)
    requires LeftOut(base, head, members, changed, p) && Compute(base).Some? && Compute(head).Some?
    requires SameLockFor(Compute(base).value.lock, Compute(head).value.lock, p)
    ensures Kept(base, head, p)
  {
    forall q | q in base.dirs && Depends(base.lockText, p, q) ensures q in head.dirs {
      if q !in head.dirs {
        GoneIsSeen(base, head, members, changed, q);
        ClosureIsReach(Compute(base).value.lock, {p}, q);
      }
    }
  }

  lemma LeftOutIsUnread(base: Tree, head: Tree, members: seq<Crate>, changed: seq<string>, lock: CargoLock.Lock,
      p: string)
    requires Unselected(base, head, members, changed, p) && Covered(members, head.dirs, lock, p)
    ensures Unread(head.dirs, lock, p, changed)
  {
    forall path <- changed ensures !Reads(head.dirs, lock, p, path) {
      if Reads(head.dirs, lock, p, path) {
        ReadIsFelt(members, head.dirs, lock, p, path);
        FeltIsTaken(DeltaOf(base, head, members, changed), path, p);
      }
    }
  }

  lemma OtherInputsOtherKey(a: Memo, b: Memo, p: string, suite: Suite)
    requires Valid(a) && Valid(b) && p in a.lock && p in b.lock && !SameInputs(a, {p}, b, {p})
    ensures KeyOf(a, {p}, suite) != KeyOf(b, {p}, suite)
  {
    KeyIsExact(a, {p}, suite, b, {p}, suite);
  }

  lemma GoneChangesInputs(a: Memo, b: Memo, p: string, q: string)
    requires q in a.dirs && q !in b.dirs && Reaches(Edges(a.lock), p, q)
    ensures !SameInputs(a, {p}, b, {p})
  {
    ClosureIsReach(a.lock, {p}, q);
    assert !SameName(a, b, q);
  }

  /** A crate that `p` depends on and that stops being one changes the keys of `p`. */
  lemma GoneChangesKey(base: Tree, head: Tree, p: string, q: string, suite: Suite)
    requires ValidTree(base) && ValidTree(head) && Compute(base).Some? && Compute(head).Some?
    requires p in Compute(base).value.lock && p in Compute(head).value.lock
    requires q in base.dirs && q !in head.dirs && Depends(base.lockText, p, q)
    ensures !SameKey(base, head, p, suite)
  {
    GoneChangesInputs(Compute(base).value, Compute(head).value, p, q);
    ComputeIsValid(base);
    ComputeIsValid(head);
    OtherInputsOtherKey(Compute(base).value, Compute(head).value, p, suite);
  }

  /** A suite of a covered member that the gate does not select keeps its key if and only if no crate the
      member depends on stopped being one. */
  lemma UnselectedKeepsKeyExactly(base: Tree, head: Tree, members: seq<Crate>, changed: seq<string>, p: string,
      suite: Suite)
    requires Unselected(base, head, members, changed, p) && Compute(head).Some?
    requires p in Compute(head).value.lock && Covered(members, head.dirs, Compute(head).value.lock, p)
    ensures Compute(base).Some? && (SameKey(base, head, p, suite) <==> Kept(base, head, p))
  {
    LeftOutLock(base, head, members, changed, p);
    if Kept(base, head, p) {
      LeftOutIsUnread(base, head, members, changed, Compute(head).value.lock, p);
      UnreadKeepsKey(base, head, changed, p, suite);
    } else {
      var q :| q in base.dirs && Depends(base.lockText, p, q) && q !in head.dirs;
      GoneChangesKey(base, head, p, q, suite);
    }
  }

  /** The gate does not under-select a covered member: a suite it leaves out has, at the head, the key
      it had at the base. */
  lemma UnselectedKeepsKey(base: Tree, head: Tree, members: seq<Crate>, changed: seq<string>, p: string, suite: Suite)
    requires LeftOut(base, head, members, changed, p) && Compute(head).Some?
    requires p !in Compute(head).value.lock || Covered(members, head.dirs, Compute(head).value.lock, p)
    ensures SameKey(base, head, p, suite)
  {
    LeftOutLock(base, head, members, changed, p);
    if p in Compute(head).value.lock {
      LeftOutKeeps(base, head, members, changed, p);
      UnselectedKeepsKeyExactly(base, head, members, changed, p, suite);
    }
  }

  // ---- One edited path ----

  /** Two trees that differ in what they list for one path, and in nothing else. */
  ghost predicate OneEdit(base: Tree, head: Tree, path: string) {
    && Listed(base) && Listed(head) && Covers([path], base, head) && !SameAtPath(base, head, path)
    && head == base.(index := head.index, dirty := head.dirty)
  }

  ghost predicate SameAtPath(base: Tree, head: Tree, path: string) {
    forall e: Entry :: e.path == path ==> SameAt(base, head, e)
  }

  lemma EditShows(base: Tree, head: Tree, path: string, prefix: string)
    requires OneEdit(base, head, path) && StartsWith(path, prefix)
    ensures !SamePrefix(base, head, prefix)
  {
    var e: Entry :| e.path == path && !SameAt(base, head, e);
    assert (e in base.index <==> e in Under(base.index, prefix))
      && (e in head.index <==> e in Under(head.index, prefix));
    assert (e in base.dirty <==> e in Under(base.dirty, prefix))
      && (e in head.dirty <==> e in Under(head.dirty, prefix));
  }

  lemma ReadEditChangesInputs(base: Tree, head: Tree, path: string, p: string)
    requires OneEdit(base, head, path) && Compute(base).Some? && Reads(base.dirs, Compute(base).value.lock, p, path)
    ensures !SameInputs(Compute(base).value, {p}, Compute(head).value, {p})
  {
    var a, b := Compute(base).value, Compute(head).value;
    if StartsWith(path, ROOT_MANIFEST) || StartsWith(path, RUNNER_DIR) {
      EditShows(base, head, path, if StartsWith(path, ROOT_MANIFEST) then ROOT_MANIFEST else RUNNER_DIR);
      GlobalsAreExact(base, head);
    } else if p in GUEST_LINKED && StartsWith(path, GUESTS_DIR) {
      EditShows(base, head, path, GUESTS_DIR);
      PrefixDigestIsExact(base, head, GUESTS_DIR);
    } else {
      var q :| ReadsCrate(base.dirs, a.lock, p, q) && StartsWith(path, base.dirs[q]);
      EditShows(base, head, path, base.dirs[q]);
      ClosureIsReach(a.lock, {p}, q);
      assert !SameName(a, b, q);
    }
  }

  lemma SameLockIsSame(lock: CargoLock.Lock, p: string)
    ensures SameLockFor(lock, lock, p)
  {}

  lemma UnreadEditKeepsKey(base: Tree, head: Tree, path: string, p: string, suite: Suite)
    requires OneEdit(base, head, path) && Compute(base).Some? && !Reads(base.dirs, Compute(base).value.lock, p, path)
    ensures SameKey(base, head, p, suite)
  {
    SameLockIsSame(Compute(base).value.lock, p);
    UnreadKeepsKey(base, head, [path], p, suite);
  }

  /** Editing one path changes the keys of `p` exactly when they read it. */
  lemma EditChangesKeyExactly(base: Tree, head: Tree, path: string, p: string, suite: Suite)
    requires OneEdit(base, head, path) && Compute(base).Some? && p in Compute(base).value.lock
    ensures SameKey(base, head, p, suite) <==> !Reads(base.dirs, Compute(base).value.lock, p, path)
  {
    if Reads(base.dirs, Compute(base).value.lock, p, path) {
      ReadEditChangesInputs(base, head, path, p);
      KeyIsExact(Compute(base).value, {p}, suite, Compute(head).value, {p}, suite);
    } else {
      UnreadEditKeepsKey(base, head, path, p, suite);
    }
  }

  /** An edit of a path that is read and not felt is missed: the keys change, the suites are left out. */
  lemma UnfeltEditIsMissed(base: Tree, head: Tree, members: seq<Crate>, path: string, p: string, suite: Suite)
    requires OneEdit(base, head, path) && Describes(members, base.dirs) && p in Names(members)
    requires Compute(base).Some? && p in Compute(base).value.lock
    requires Reads(base.dirs, Compute(base).value.lock, p, path) && !Felt(members, p, path)
    ensures LeftOut(base, head, members, [path], p) && !SameKey(base, head, p, suite)
  {
    EditChangesKeyExactly(base, head, path, p, suite);
    ReadIsNoLock(base.dirs, Compute(base).value.lock, p, path);
    UnfeltIsLeft(DeltaOf(base, head, members, [path]), path, p);
  }

  lemma ReadIsNoLock(dirs: map<string, string>, lock: CargoLock.Lock, p: string, path: string)
    requires AllDirs(dirs) && Reads(dirs, lock, p, path)
    ensures path != "Cargo.lock"
  {
    assert "Cargo.lock"[6] == 'l' && ROOT_MANIFEST[6] == 't' && "Cargo.lock"[0] == 'C' && RUNNER_DIR[0] == 'x'
      && GUESTS_DIR[0] == 'c';
    assert '/' !in "Cargo.lock";
  }

  lemma OneInput(d: Delta, path: string)
    requires d.changed == [path]
    ensures Inputs(d) == [Classify(path, d.members)]
  {}

  lemma SoleInput(d: Delta, input: GateInput, p: string)
    requires Inputs(d) == [input] && input != FullGate && input != LockFile
    requires input.InCrate? ==> !Reaches(Workspace(d.members), p, input.name)
    requires input == Guests ==> p !in GUEST_LINKED
    ensures !Escalates(d) && !Affected(d, p)
  {
    forall i: GateInput ensures Touches(d, i) <==> i == input { assert [input][0] == input; }
    forall s | Seed(d, s) ensures !Reaches(Workspace(d.members), p, s) { assert Touches(d, InCrate(s)); }
  }

  lemma UnfeltIsLeft(d: Delta, path: string, p: string)
    requires d.changed == [path] && path != "Cargo.lock" && !Felt(d.members, p, path)
    ensures !Escalates(d) && !Affected(d, p)
  {
    OneInput(d, path);
    SoleInput(d, Classify(path, d.members), p);
  }

  // ---- Locks that read the same ----

  lemma SameReadSeedsNothing(d: Delta, p: string)
    requires Inputs(d) == [LockFile] && CargoLock.Parsed(d.baseLock) == CargoLock.Parsed(d.headLock)
      && CargoLock.Parsed(d.baseLock).Ok?
    ensures !Escalates(d) && !Affected(d, p)
  {
    assert !Touches(d, FullGate) && !Touches(d, Guests);
    forall s ensures !Seed(d, s) { assert !Touches(d, InCrate(s)); }
  }

  lemma SameReadSameMemo(base: Tree, head: Tree)
    requires head == base.(lockText := head.lockText)
      && CargoLock.Parsed(base.lockText) == CargoLock.Parsed(head.lockText)
    ensures Compute(base) == Compute(head)
  {
    forall prefix: string ensures HashPrefix(base, prefix) == HashPrefix(head, prefix) {}
  }

  /** A new lock text that reads like the old one seeds nothing and changes no key. */
  lemma SameReadIsUnseen(base: Tree, head: Tree, members: seq<Crate>, p: string, suite: Suite)
    requires head == base.(lockText := head.lockText) && Compute(base).Some?
    requires CargoLock.Parsed(base.lockText) == CargoLock.Parsed(head.lockText)
    ensures var d := DeltaOf(base, head, members, ["Cargo.lock"]); !Escalates(d) && !Affected(d, p)
    ensures SameKey(base, head, p, suite)
  {
    OneInput(DeltaOf(base, head, members, ["Cargo.lock"]), "Cargo.lock");
    LockPathIsLock(members);
    SameReadSeedsNothing(DeltaOf(base, head, members, ["Cargo.lock"]), p);
    SameReadSameMemo(base, head);
  }

  // ---- The exact condition ----

  /** Whatever the base and whatever changed, suites of `p` that are left out keep their keys. */
  ghost predicate NeverMissed(members: seq<Crate>, dirs: map<string, string>, lockText: string, p: string) {
    forall base: Tree, head: Tree, changed: seq<string>, suite: Suite ::
      LeftOut(base, head, members, changed, p) && head.dirs == dirs && head.lockText == lockText ==>
        SameKey(base, head, p, suite)
  }

  lemma CoveredIsNeverMissed(members: seq<Crate>, dirs: map<string, string>, lockText: string, p: string)
    requires CargoLock.Parsed(lockText).Ok?
    requires p !in CargoLock.Parsed(lockText).value || Covered(members, dirs, CargoLock.Parsed(lockText).value, p)
    ensures NeverMissed(members, dirs, lockText, p)
  {
    forall base: Tree, head: Tree, changed: seq<string>, suite: Suite
      | LeftOut(base, head, members, changed, p) && head.dirs == dirs && head.lockText == lockText
      ensures SameKey(base, head, p, suite)
    {
      UnselectedKeepsKey(base, head, members, changed, p, suite);
    }
  }

  lemma UncoveredIsMissed(members: seq<Crate>, dirs: map<string, string>, lockText: string, p: string)
    requires Describes(members, dirs) && AllDirs(dirs) && DistinctDirs(dirs) && p in Names(members)
      && CargoLock.Parsed(lockText).Ok?
    requires p in CargoLock.Parsed(lockText).value && !Covered(members, dirs, CargoLock.Parsed(lockText).value, p)
    ensures !NeverMissed(members, dirs, lockText, p)
  {
    var path := UncoveredIsUnfelt(members, dirs, CargoLock.Parsed(lockText).value, p);
    var base := Tree(lockText, dirs, [], [], "", Env("", "", "", ""));
    var head := base.(dirty := [Entry(path, "")]);
    EditFromNothing(base, head, path);
    UnfeltEditIsMissed(base, head, members, path, p, Suite("", []));
  }

  /** The gate never under-selects the suites of a member if and only if they have no key, or the
      member's declared dependencies cover what their keys read. */
  lemma GateIsSoundExactly(members: seq<Crate>, dirs: map<string, string>, lockText: string, p: string)
    requires Describes(members, dirs) && AllDirs(dirs) && DistinctDirs(dirs) && p in Names(members)
      && CargoLock.Parsed(lockText).Ok?
    ensures var lock := CargoLock.Parsed(lockText).value;
      NeverMissed(members, dirs, lockText, p) <==> p !in lock || Covered(members, dirs, lock, p)
  {
    var lock := CargoLock.Parsed(lockText).value;
    if p !in lock || Covered(members, dirs, lock, p) {
      CoveredIsNeverMissed(members, dirs, lockText, p);
    } else {
      UncoveredIsMissed(members, dirs, lockText, p);
    }
  }

  lemma EditFromNothing(base: Tree, head: Tree, path: string)
    requires ValidTree(base) && base.index == base.dirty == [] && head == base.(dirty := [Entry(path, "")])
    ensures OneEdit(base, head, path)
  {
    assert Entry(path, "") in head.dirty && Entry(path, "") !in base.dirty;
    assert path in [path];
  }
}
