/** The per-suite memo index of a working tree and the key it gives each suite. */
module SuiteMemo {
  import opened Text
  import opened PathRange
  import opened KeyFormat
  import opened Flatten
  import opened Sorting
  import CargoLock
  import opened LockGraph
  import opened Gate

  /** The variables that reach code generation. */
  datatype Env = Env(rustflags: string, encodedRustflags: string, buildRustflags: string, buildId: string)

  /** The inputs of the index: lock text, member directories, tracked and divergent paths, toolchain. */
  datatype Tree = Tree(lockText: string, dirs: map<string, string>, index: seq<Entry>, dirty: seq<Entry>,
      rustc: string, env: Env)

  datatype Memo = Memo(lock: CargoLock.Lock, dirs: map<string, string>, index: seq<Entry>, dirty: seq<Entry>,
      globals: Fragment, guests: Fragment)

  /** A directory carries its trailing slash. */
  predicate IsDir(dir: string) {
    dir != "" && dir[|dir| - 1] == '/'
  }

  ghost predicate AllDirs(dirs: map<string, string>) {
    forall n :: n in dirs ==> IsDir(dirs[n])
  }

  /** Listings are sorted and crate directories are directories. */
  ghost predicate ValidListings(dirs: map<string, string>, index: seq<Entry>, dirty: seq<Entry>) {
    PathSorted(index) && PathSorted(dirty) && AllDirs(dirs)
  }

  ghost predicate Valid(m: Memo) {
    ValidListings(m.dirs, m.index, m.dirty)
  }

  ghost predicate ValidTree(t: Tree) {
    ValidListings(t.dirs, t.index, t.dirty)
  }

  function HashPrefix(t: Tree, prefix: string): Fragment {
    Hex(IndexFragments(Under(t.index, prefix)) + (DirtyFragments(Under(t.dirty, prefix)) + []))
  }

  function EnvFragments(e: Env): seq<Fragment> {
    [Bytes("RUSTFLAGS"), Bytes("="), Bytes(e.rustflags), Bytes(";"),
     Bytes("CARGO_ENCODED_RUSTFLAGS"), Bytes("="), Bytes(e.encodedRustflags), Bytes(";"),
     Bytes("CARGO_BUILD_RUSTFLAGS"), Bytes("="), Bytes(e.buildRustflags), Bytes(";"),
     Bytes("DAEMON_BUILD_ID"), Bytes("="), Bytes(e.buildId), Bytes(";")]
  }

  const ROOT_MANIFEST := "Cargo.toml"
  const RUNNER_DIR := "xtask/"

  /** The fragment present in every key. */
  function Globals(t: Tree): Fragment {
    Hex([Bytes(t.rustc)] + EnvFragments(t.env) + [HashPrefix(t, ROOT_MANIFEST), HashPrefix(t, RUNNER_DIR)])
  }

  /** Build the index; an unreadable lock disables memoization. */
  function Compute(t: Tree): Option<Memo> {
    match CargoLock.Parsed(t.lockText)
    case Err => None
    case Ok(lock) => Some(Memo(lock, t.dirs, t.index, t.dirty, Globals(t), HashPrefix(t, GUESTS_DIR)))
  }

  // ---- The key ----

  function MetaOf(lock: CargoLock.Lock, n: string): string {
    if n in lock then lock[n].meta else ""
  }

  function BlockOf(m: Memo, n: string): Block {
    if n in m.dirs then CrateBlock(n, Under(m.index, m.dirs[n]), Under(m.dirty, m.dirs[n]))
    else ExternBlock(n, MetaOf(m.lock, n))
  }

  function BlocksOf(m: Memo, names: seq<string>): seq<Block> {
    seq(|names|, i requires 0 <= i < |names| => BlockOf(m, names[i]))
  }

  predicate GuestLinked(packages: set<string>) {
    exists p <- packages :: p in GUEST_LINKED
  }

  /** What the key says, given the closure's names in order. */
  function ViewWith(m: Memo, names: seq<string>, linked: bool, suite: Suite): KeyView {
    KeyView(m.globals, BlocksOf(m, names), if linked then Some(m.guests) else None, suite.title, Join(suite.args, " "))
  }

  ghost function ViewOf(m: Memo, packages: set<string>, suite: Suite): KeyView {
    ViewWith(m, InOrder(ClosureOf(m.lock, packages)), GuestLinked(packages), suite)
  }

  /** `None`: the suite cannot be keyed and runs. */
  ghost function KeyOf(m: Memo, packages: set<string>, suite: Suite): Option<Fragment> {
    if packages <= m.lock.Keys then Some(Hex(KeyFragments(ViewOf(m, packages, suite)))) else None
  }

  method SuiteKey(m: Memo, packages: set<string>, suite: Suite) returns (key: Option<Fragment>)
    requires Valid(m)
    ensures key == KeyOf(m, packages, suite)
  {
    var closure := Closure(m.lock, packages);
    if closure.Err? {
      return None;
    }
    var names := IterateNames(closure.value);
    var h := Feed(m, names, GuestLinked(packages), suite);
    return Some(Hex(h));
  }

  /** Feed the hasher as the code does, fragment by fragment. */
  method Feed(m: Memo, names: seq<string>, linked: bool, suite: Suite) returns (h: seq<Fragment>)
    requires Valid(m)
    ensures h == KeyFragments(ViewWith(m, names, linked, suite))
  {
    var blocks := FindBlocks(m, names);
    h := Update([Bytes("globals="), m.globals], blocks, BlockFragments);
    ghost var v := ViewWith(m, names, linked, suite);
    if linked {
      h := h + [Bytes("guests="), m.guests];
    }
    h := h + [Bytes("suite="), Bytes(suite.title), Bytes(" "), Bytes(Join(suite.args, " "))];
    assert h == [Bytes("globals="), m.globals] + (BlocksFragments(v.blocks) + TailFragments(v));
  }

  method FindBlocks(m: Memo, names: seq<string>) returns (blocks: seq<Block>)
    requires Valid(m)
    ensures blocks == BlocksOf(m, names)
  {
    blocks := [];
    for i := 0 to |names|
      invariant |blocks| == i && forall k :: 0 <= k < i ==> blocks[k] == BlockOf(m, names[k])
    {
      var name := names[i];
      if name in m.dirs {
        var index := RangeOf(m.index, m.dirs[name]);
        var dirty := RangeOf(m.dirty, m.dirs[name]);
        blocks := blocks + [CrateBlock(name, index, dirty)];
      } else {
        blocks := blocks + [ExternBlock(name, MetaOf(m.lock, name))];
      }
    }
  }

  // ---- What equal keys mean ----

  /** Both indexes say the same about a closure name: a crate with the same tracked and divergent
      entries, or an external package with the same lock identity. */
  ghost predicate SameName(a: Memo, b: Memo, n: string) {
    && (n in a.dirs <==> n in b.dirs)
    && (if n in a.dirs then Under(a.index, a.dirs[n]) == Under(b.index, b.dirs[n])
      && Under(a.dirty, a.dirs[n]) == Under(b.dirty, b.dirs[n])
        else (if n in a.lock then a.lock[n].meta else "") == (if n in b.lock then b.lock[n].meta else ""))
  }

  /** The suite inputs the memo vouches for. */
  ghost predicate SameInputs(a: Memo, p: set<string>, b: Memo, q: set<string>) {
    && ClosureOf(a.lock, p) == ClosureOf(b.lock, q)
    && (forall n <- ClosureOf(a.lock, p) :: SameName(a, b, n))
    && a.globals == b.globals
    && GuestLinked(p) == GuestLinked(q)
    && (GuestLinked(p) ==> a.guests == b.guests)
  }

  lemma PathsUnderDirArePlain(es: seq<Entry>, dir: string)
    requires IsDir(dir)
    ensures AllPlain(Under(es, dir))
  {
    var r := Under(es, dir);
    forall i | 0 <= i < |r| ensures Plain(r[i].path) {
      assert r[i] in r;
      assert r[i].path[|dir| - 1] == '/';
      assert '/' !in "dirty:" && '/' !in "\n";
    }
  }

  lemma BlocksArePlain(m: Memo, names: seq<string>)
    requires Valid(m)
    ensures forall b <- BlocksOf(m, names) :: PlainBlock(b)
  {
    forall i | 0 <= i < |names| ensures PlainBlock(BlocksOf(m, names)[i]) {
      if names[i] in m.dirs {
        PathsUnderDirArePlain(m.index, m.dirs[names[i]]);
      }
    }
  }

  lemma SameBlocks(a: Memo, b: Memo, n: string)
    ensures SameName(a, b, n) <==> BlockOf(a, n) == BlockOf(b, n)
  {}

  ghost predicate SameNames(a: Memo, x: seq<string>, b: Memo, y: seq<string>) {
    x == y && forall n <- x :: SameName(a, b, n)
  }

  lemma SameNamesSameBlocks(a: Memo, x: seq<string>, b: Memo, y: seq<string>)
    ensures BlocksOf(a, x) == BlocksOf(b, y) <==> SameNames(a, x, b, y)
  {
    if BlocksOf(a, x) == BlocksOf(b, y) {
      SameNamesInBlocks(a, b, x, y);
    }
    if SameNames(a, x, b, y) {
      forall i | 0 <= i < |x| ensures BlocksOf(a, x)[i] == BlocksOf(b, x)[i] {
        assert x[i] in x;
        SameBlocks(a, b, x[i]);
      }
    }
  }

  lemma KeyViewIsExact(a: Memo, x: seq<string>, linked: bool, s: Suite, b: Memo, y: seq<string>, linked': bool,
      t: Suite)
    requires Valid(a) && Valid(b)
    ensures KeyFragments(ViewWith(a, x, linked, s)) == KeyFragments(ViewWith(b, y, linked', t))
       <==> SameNames(a, x, b, y) && a.globals == b.globals && linked == linked' && (linked ==> a.guests == b.guests)
            && s.title == t.title && Join(s.args, " ") == Join(t.args, " ")
  {
    SameNamesSameBlocks(a, x, b, y);
    if KeyFragments(ViewWith(a, x, linked, s)) == KeyFragments(ViewWith(b, y, linked', t)) {
      BlocksArePlain(a, x);
      BlocksArePlain(b, y);
      KeyIsUnambiguous(ViewWith(a, x, linked, s), ViewWith(b, y, linked', t));
    }
  }

  lemma SameSetSameOrder(s: set<string>, t: set<string>)
    ensures s == t <==> InOrder(s) == InOrder(t)
  {
    if InOrder(s) == InOrder(t) {
      forall n ensures n in s <==> n in t { assert n in InOrder(s) <==> n in InOrder(t); }
    }
  }

  /** Two keys are equal exactly when the suites share title, arguments joined by spaces, and all their inputs. */
  lemma KeyIsExact(a: Memo, p: set<string>, s: Suite, b: Memo, q: set<string>, t: Suite)
    requires Valid(a) && Valid(b)
    requires p <= a.lock.Keys && q <= b.lock.Keys
    ensures KeyOf(a, p, s) == KeyOf(b, q, t)
       <==> SameInputs(a, p, b, q) && s.title == t.title && Join(s.args, " ") == Join(t.args, " ")
  {
    var c, d := ClosureOf(a.lock, p), ClosureOf(b.lock, q);
    SameSetSameOrder(c, d);
    KeyViewIsExact(a, InOrder(c), GuestLinked(p), s, b, InOrder(d), GuestLinked(q), t);
    assert (forall n <- InOrder(c) :: SameName(a, b, n)) <==> (forall n <- c :: SameName(a, b, n));
  }

  /** Arguments that hold no space are told apart by the key, too. */
  lemma ArgumentsAreExact(s: seq<string>, t: seq<string>)
    requires s != [] && t != [] && (forall x <- s :: ' ' !in x) && (forall x <- t :: ' ' !in x)
    ensures Join(s, " ") == Join(t, " ") <==> s == t
  {
    SplitJoin(s, ' ');
    SplitJoin(t, ' ');
  }

  /** The listings hold the same entries under the directory of crate `n`. */
  ghost predicate SameInside(a: Memo, b: Memo, n: string)
    requires n in a.dirs
  {
    forall e: Entry :: StartsWith(e.path, a.dirs[n]) ==>
      (e in a.index <==> e in b.index) && (e in a.dirty <==> e in b.dirty)
  }

  /** All but the listings agree. */
  predicate SameAround(a: Memo, b: Memo) {
    a.lock == b.lock && a.dirs == b.dirs && a.globals == b.globals && a.guests == b.guests
  }

  /** Whatever changes outside the directories of the closure's crates leaves the key alone. */
  lemma OutsideEditsKeepKey(a: Memo, b: Memo, packages: set<string>, suite: Suite)
    requires Valid(a) && NoRepeats(a.index) && NoRepeats(a.dirty)
    requires Valid(b) && NoRepeats(b.index) && NoRepeats(b.dirty)
    requires SameAround(a, b) && forall n <- ClosureOf(a.lock, packages) :: n in a.dirs ==> SameInside(a, b, n)
    ensures KeyOf(a, packages, suite) == KeyOf(b, packages, suite)
  {
    if packages <= a.lock.Keys {
      forall n <- ClosureOf(a.lock, packages) ensures SameName(a, b, n) {
        if n in a.dirs {
          UnderCongruent(a.index, b.index, a.dirs[n]);
          UnderCongruent(a.dirty, b.dirty, a.dirs[n]);
        }
      }
      KeyIsExact(a, packages, suite, b, packages, suite);
    }
  }

  lemma SameNamesInBlocks(a: Memo, b: Memo, x: seq<string>, y: seq<string>)
    requires BlocksOf(a, x) == BlocksOf(b, y)
    ensures x == y && forall n <- x :: SameName(a, b, n)
  {
    assert |x| == |BlocksOf(a, x)| == |y|;
    forall i | 0 <= i < |x| ensures x[i] == y[i] && SameName(a, b, x[i]) {
      assert BlocksOf(a, x)[i] == BlocksOf(b, y)[i];
      SameBlocks(a, b, x[i]);
    }
  }

  // ---- The digests inside the key ----

  ghost predicate SamePrefix(s: Tree, t: Tree, prefix: string) {
    Under(s.index, prefix) == Under(t.index, prefix) && Under(s.dirty, prefix) == Under(t.dirty, prefix)
  }

  /** The digest of a prefix pins the entries under it. */
  lemma PrefixDigestIsExact(s: Tree, t: Tree, prefix: string)
    requires prefix in {ROOT_MANIFEST, RUNNER_DIR, GUESTS_DIR}
    ensures HashPrefix(s, prefix) == HashPrefix(t, prefix) <==> SamePrefix(s, t, prefix)
  {
    NamedPrefixIsPlain(s.index, prefix);
    NamedPrefixIsPlain(t.index, prefix);
    ReadListingBack(Under(s.index, prefix), Under(s.dirty, prefix), []);
    ReadListingBack(Under(t.index, prefix), Under(t.dirty, prefix), []);
  }

  lemma NamedPrefixIsPlain(es: seq<Entry>, prefix: string)
    requires prefix in {ROOT_MANIFEST, RUNNER_DIR, GUESTS_DIR}
    ensures AllPlain(Under(es, prefix))
  {
    var r := Under(es, prefix);
    forall i | 0 <= i < |r| ensures Plain(r[i].path) {
      assert r[i] in r;
      assert r[i].path[0] == prefix[0];
      assert ROOT_MANIFEST[0] == 'C' && RUNNER_DIR[0] == 'x' && GUESTS_DIR[0] == 'c';
    }
  }

  ghost predicate SameGlobals(s: Tree, t: Tree) {
    s.rustc == t.rustc && s.env == t.env && SamePrefix(s, t, "Cargo.toml") && SamePrefix(s, t, "xtask/")
  }

  lemma EnvIsExact(e: Env, f: Env)
    requires EnvFragments(e) == EnvFragments(f)
    ensures e == f
  {
    var a, b := EnvFragments(e), EnvFragments(f);
    assert a[2] == b[2] && a[6] == b[6] && a[10] == b[10] && a[14] == b[14];
  }

  lemma FlankedListIsExact(x: Fragment, e: seq<Fragment>, p: Fragment, q: Fragment, x': Fragment, e': seq<Fragment>,
      p': Fragment, q': Fragment)
    requires |e| == |e'|
    requires [x] + e + [p, q] == [x'] + e' + [p', q']
    ensures x == x' && e == e' && p == p' && q == q'
  {
    var a, b := [x] + e + [p, q], [x'] + e' + [p', q'];
    assert a[0] == b[0] && a[|e| + 1] == b[|e| + 1] && a[|e| + 2] == b[|e| + 2];
    assert a[1..|e| + 1] == e && b[1..|e| + 1] == e';
  }

  lemma GlobalsAreExact(s: Tree, t: Tree)
    ensures Globals(s) == Globals(t) <==> SameGlobals(s, t)
  {
    PrefixDigestIsExact(s, t, ROOT_MANIFEST);
    PrefixDigestIsExact(s, t, RUNNER_DIR);
    var p, q, p', q' := HashPrefix(s, ROOT_MANIFEST), HashPrefix(s, RUNNER_DIR), HashPrefix(t, ROOT_MANIFEST),
      HashPrefix(t, RUNNER_DIR);
    var e, e' := EnvFragments(s.env), EnvFragments(t.env);
    if Globals(s) == Globals(t) {
      assert |e| == |e'| == 16;
      FlankedListIsExact(Bytes(s.rustc), e, p, q, Bytes(t.rustc), e', p', q');
      EnvIsExact(s.env, t.env);
    }
  }
}
