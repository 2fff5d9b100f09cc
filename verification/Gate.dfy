/** The diff-scoped gate: how changed paths map to crates, how crates expand to their dependents, and
    which suites of the battery are selected. */
module Gate {
  import opened Text
  import opened Flatten
  import opened Graph
  import opened CargoLock
  import opened LockGraph

  /** A workspace member: its name, its directory with a trailing slash, its declared dependencies. */
  datatype Member<N> = Member(name: N, dir: string, deps: seq<N>)

  type Crate = Member<string>

  const GUESTS_DIR := "crates/vhc/guests/"
  const GUEST_LINKED := ["daemon-vhc-host", "daemon-vhc-testkit", "daemon-vhc-session", "daemon-vhc-worker",
      "daemon-vhc-acceptance"]
  const FULL_PREFIXES := ["xtask/", ".cargo/", "vendor/"]
  const FULL_FILES := ["Cargo.toml", "flake.nix", "flake.lock", "rust-toolchain.toml"]
  const IGNORED_PREFIXES := ["docs/", ".plans/", "LICENSES/"]
  const IGNORED_FILES := ["README.md", "AGENTS.md", "NOTICE", "LICENSE-APACHE", "LICENSE-MIT", "REUSE.toml",
      ".gitignore", ".gitleaks.toml", "typos.toml", "deny.toml", "clippy.toml", "rustfmt.toml"]

  datatype GateInput = Ignored | Guests | InCrate(name: string) | LockFile | FullGate

  predicate StartsWithAny(path: string, prefixes: seq<string>) {
    exists p <- prefixes :: StartsWith(path, p)
  }

  /** The member with the longest directory that holds the path; the last one among equals. */
  function Owner<N(==)>(path: string, members: seq<Member<N>>): (r: Option<Member<N>>)
    ensures r.None? <==> forall m <- members :: !StartsWith(path, m.dir)
    ensures r.Some? ==> r.value in members && StartsWith(path, r.value.dir)
    ensures r.Some? ==> forall m <- members :: StartsWith(path, m.dir) ==> |m.dir| <= |r.value.dir|
  {
    if members == [] then None
    else
      var front, last := members[..|members| - 1], members[|members| - 1];
      assert members == front + [last];
      var best := Owner(path, front);
      if StartsWith(path, last.dir) && (best.None? || |best.value.dir| <= |last.dir|) then Some(last) else best
  }

  function Classify(path: string, members: seq<Crate>): GateInput {
    if StartsWith(path, GUESTS_DIR) then Guests
    else if path == "Cargo.lock" then LockFile
    else if StartsWithAny(path, FULL_PREFIXES) || path in FULL_FILES then FullGate
    else
      match Owner(path, members)
      case Some(m) => InCrate(m.name)
      case None => if StartsWithAny(path, IGNORED_PREFIXES) || path in IGNORED_FILES then Ignored else FullGate
  }

  // ---- The paths, name by name ----

  /** What no crate bounds: the runner, the cargo configuration, vendored sources, the root manifest and
      what pins the toolchain. */
  predicate Global(path: string) {
    || StartsWith(path, "xtask/") || StartsWith(path, ".cargo/") || StartsWith(path, "vendor/")
    || path in {"Cargo.toml", "flake.nix", "flake.lock", "rust-toolchain.toml"}
  }

  /** What cannot alter a test: documentation, licences and the settings of the lints. */
  predicate Harmless(path: string) {
    || StartsWith(path, "docs/") || StartsWith(path, ".plans/") || StartsWith(path, "LICENSES/")
    || path in {"README.md", "AGENTS.md", "NOTICE", "LICENSE-APACHE", "LICENSE-MIT", "REUSE.toml", ".gitignore",
      ".gitleaks.toml", "typos.toml", "deny.toml", "clippy.toml", "rustfmt.toml"}
  }

  predicate OfGuests(path: string) {
    StartsWith(path, "crates/vhc/guests/")
  }

  /** A path of the crate `n` and of no crate further in. */
  predicate ChargedTo(path: string, members: seq<Crate>, n: string) {
    && !OfGuests(path) && path != "Cargo.lock" && !Global(path)
    && Owner(path, members).Some? && Owner(path, members).value.name == n
  }

  /** A global path, or one that nothing accounts for. */
  predicate NeedsAll(path: string, members: seq<Crate>) {
    || Global(path)
    || !(OfGuests(path) || path == "Cargo.lock" || Harmless(path) || exists m <- members :: StartsWith(path, m.dir))
  }

  lemma GlobalIsListed(path: string)
    ensures Global(path) <==> StartsWithAny(path, FULL_PREFIXES) || path in FULL_FILES
  {
    assert FULL_PREFIXES[0] == "xtask/" && FULL_PREFIXES[1] == ".cargo/" && FULL_PREFIXES[2] == "vendor/";
  }

  lemma HarmlessIsListed(path: string)
    ensures Harmless(path) <==> StartsWithAny(path, IGNORED_PREFIXES) || path in IGNORED_FILES
  {
    assert IGNORED_PREFIXES[0] == "docs/" && IGNORED_PREFIXES[1] == ".plans/" && IGNORED_PREFIXES[2] == "LICENSES/";
  }

  lemma GlobalStart(path: string)
    requires Global(path)
    ensures |path| > 4 && (path[0] in {'x', 'v', 'C', 'f'} || (path[0] == '.' && path[1] == 'c')
      || (path[0] == 'r' && path[4] == '-'))
  {}

  lemma HarmlessStart(path: string)
    requires Harmless(path)
    ensures |path| > 4 && (path[0] in {'d', 'L', 'R', 'A', 'N', 't'} || (path[0] == '.' && path[1] in {'p', 'g'})
      || (path[0] == 'r' && path[4] == 'f') || (path[0] == 'c' && path[1] == 'l'))
  {}

  lemma ListsAreApart(path: string)
    ensures OfGuests(path) ==> !Global(path) && !Harmless(path) && path != "Cargo.lock"
    ensures path == "Cargo.lock" ==> !Global(path) && !Harmless(path)
    ensures Global(path) ==> !Harmless(path)
  {
    if Global(path) { GlobalStart(path); }
    if Harmless(path) { HarmlessStart(path); }
    if OfGuests(path) { assert path[0] == 'c' && path[1] == 'r'; }
  }

  /** What each class holds: the guests by their directory, the lock by its name, the global paths whoever
      owns them; of the others those of a crate, the harmless ones no crate owns, and full the rest. */
  lemma ClassifyExactly(path: string, members: seq<Crate>)
    ensures Classify(path, members) == Guests <==> OfGuests(path)
    ensures Classify(path, members) == LockFile <==> path == "Cargo.lock"
    ensures Global(path) ==> Classify(path, members) == FullGate
    ensures forall n :: Classify(path, members) == InCrate(n) <==> ChargedTo(path, members, n)
    ensures Classify(path, members) == Ignored <==> Harmless(path) && forall m <- members :: !StartsWith(path, m.dir)
    ensures Classify(path, members) == FullGate <==> NeedsAll(path, members)
  {
    GlobalIsListed(path);
    HarmlessIsListed(path);
    ListsAreApart(path);
  }

  // ---- Expansion through the workspace graph ----

  function Declared<N(==)>(members: seq<Member<N>>, n: N): set<N> {
    set i, j | 0 <= i < |members| && 0 <= j < |members[i].deps| && members[i].name == n :: members[i].deps[j]
  }

  function Names<N(==)>(members: seq<Member<N>>): set<N> {
    set i | 0 <= i < |members| :: members[i].name
  }

  /** The declared dependency graph of the workspace. */
  function Workspace<N(!new)>(members: seq<Member<N>>): Graph<N> {
    map n | n in Names(members) :: Declared(members, n)
  }

  /** `p` is a seed or depends, through members, on one. */
  ghost predicate DependsOnSeed<N(!new)>(members: seq<Member<N>>, seeds: set<N>, p: N) {
    exists s :: s in seeds && Reaches(Workspace(members), p, s)
  }

  lemma WorkspaceEdge<N(!new)>(members: seq<Member<N>>, i: nat, d: N)
    requires i < |members| && d in members[i].deps
    ensures d in Succ(Workspace(members), members[i].name)
  {
    var j :| 0 <= j < |members[i].deps| && members[i].deps[j] == d;
    assert members[i].name in Names(members);
    assert d in Declared(members, members[i].name);
  }

  /** One pass over the members, adding those that depend on something already affected. */
  method Pass<N(==,!new)>(members: seq<Member<N>>, affected: set<N>, ghost target: iset<N>) returns (r: set<N>)
    requires forall n :: n in affected ==> n in target
    requires forall n, m :: m in target && m in Succ(Workspace(members), n) ==> n in target
    ensures affected <= r <= affected + Names(members)
    ensures forall n :: n in r ==> n in target
    ensures r == affected ==> Settled(members, r)
  {
    r := affected;
    for i := 0 to |members|
      invariant affected <= r <= affected + Names(members)
      invariant forall n :: n in r ==> n in target
      invariant r == affected ==> forall k :: 0 <= k < i && members[k].name !in r ==>
        forall d <- members[k].deps :: d !in r
    {
      var m := members[i];
      if m.name !in r && exists d <- m.deps :: d in r {
        ghost var d :| d in m.deps && d in r;
        WorkspaceEdge(members, i, d);
        assert m.name in Names(members);
        r := r + {m.name};
      }
    }
  }

  /** No member outside the set depends on a member of it. */
  ghost predicate Settled<N(!new)>(members: seq<Member<N>>, affected: set<N>) {
    forall i :: 0 <= i < |members| && members[i].name !in affected ==> forall d <- members[i].deps :: d !in affected
  }

  /** Repeat the pass until nothing grows. */
  method Settle<N(==,!new)>(members: seq<Member<N>>, seeds: set<N>, ghost target: iset<N>) returns (affected: set<N>)
    requires forall n :: n in seeds ==> n in target
    requires forall n, m :: m in target && m in Succ(Workspace(members), n) ==> n in target
    ensures seeds <= affected && Settled(members, affected)
    ensures forall n :: n in affected ==> n in target
  {
    affected := seeds;
    ghost var all := Names(members);
    while true
      invariant seeds <= affected
      invariant forall n :: n in affected ==> n in target
      decreases |all - affected|
    {
      var grown := Pass(members, affected, target);
      if grown == affected {
        return;
      }
      Grew(all, affected, grown);
      affected := grown;
    }
  }

  method ReverseDependents<N(==,!new)>(members: seq<Member<N>>, seeds: set<N>) returns (affected: set<N>)
    ensures forall p :: p in affected <==> DependsOnSeed(members, seeds, p)
  {
    DependentsClosed(members, seeds);
    affected := Settle(members, seeds, Dependents(members, seeds));
    SettledIsAll(members, seeds, affected);
  }

  ghost function Dependents<N(!new)>(members: seq<Member<N>>, seeds: set<N>): iset<N> {
    iset p | DependsOnSeed(members, seeds, p)
  }

  lemma DependentsClosed<N(!new)>(members: seq<Member<N>>, seeds: set<N>)
    ensures forall n :: n in seeds ==> n in Dependents(members, seeds)
    ensures forall n, m :: m in Dependents(members, seeds) && m in Succ(Workspace(members), n) ==>
      n in Dependents(members, seeds)
  {
    var g := Workspace(members);
    forall n | n in seeds ensures n in Dependents(members, seeds) { ReachesSelf(g, n); }
    forall n, m | m in Dependents(members, seeds) && m in Succ(g, n) ensures n in Dependents(members, seeds) {
      var s :| s in seeds && Reaches(g, m, s);
      ReachesAfter(g, n, m, s);
    }
  }

  lemma Grew<N(!new)>(all: set<N>, before: set<N>, after: set<N>)
    requires before <= after <= before + all && before != after
    ensures |all - after| < |all - before|
  {
    var added := after - before;
    assert added != {};
    Shrinks(all, before, added);
    assert before + added == after;
  }

  lemma SettledIsAll<N(!new)>(members: seq<Member<N>>, seeds: set<N>, affected: set<N>)
    requires seeds <= affected
    requires forall n :: n in affected ==> n in Dependents(members, seeds)
    requires Settled(members, affected)
    ensures forall p :: p in affected <==> DependsOnSeed(members, seeds, p)
  {
    forall p | DependsOnSeed(members, seeds, p) ensures p in affected {
      var s :| s in seeds && Reaches(Workspace(members), p, s);
      LeastContains(members, affected, p, s);
    }
    forall p | p in affected ensures DependsOnSeed(members, seeds, p) {
      assert p in Dependents(members, seeds);
    }
  }

  /** Any set that holds `s` and every member that depends on one of its elements holds `p`, if `p`
      reaches `s`. */
  lemma LeastContains<N(!new)>(members: seq<Member<N>>, cone: set<N>, p: N, s: N)
    requires s in cone && Reaches(Workspace(members), p, s)
    requires Settled(members, cone)
    ensures p in cone
  {
    var g := Workspace(members);
    var w :| WalkBetween(g, w, p, s);
    var k := |w| - 1;
    while k > 0
      invariant 0 <= k < |w| && w[k] in cone
    {
      assert w[k] in Succ(g, w[k - 1]);
      var i, j :| 0 <= i < |members| && 0 <= j < |members[i].deps| && members[i].name == w[k - 1]
        && members[i].deps[j] == w[k];
      k := k - 1;
    }
  }

  // ---- Selection ----

  datatype Suite = Suite(title: string, args: seq<string>)

  predicate NamesPackage(args: seq<string>) {
    args != [] && (if args[0] == "-p" then |args| > 1 else NamesPackage(args[1..]))
  }

  /** The value after the first `-p`; every pinned suite has one. */
  function SuitePackage(args: seq<string>): string
    requires NamesPackage(args)
  {
    if args[0] == "-p" then args[1] else SuitePackage(args[1..])
  }

  /** The package is the argument after the first `-p`. */
  lemma {:induction false} PackageIsAfterFirst(args: seq<string>, i: nat)
    requires i < |args| && args[i] == "-p" && "-p" !in args[..i]
    ensures NamesPackage(args) <==> i + 1 < |args|
    ensures i + 1 < |args| ==> SuitePackage(args) == args[i + 1]
  {
    if i > 0 {
      assert args[..i][0] == args[0] && args[1..][..i - 1] == args[..i][1..];
      PackageIsAfterFirst(args[1..], i - 1);
    }
  }

  /** What one gate run looks at. */
  datatype Delta = Delta(changed: seq<string>, members: seq<Crate>, baseLock: string, headLock: string)

  function Inputs(d: Delta): seq<GateInput> {
    seq(|d.changed|, i requires 0 <= i < |d.changed| => Classify(d.changed[i], d.members))
  }

  /** Some changed path is classified as `input`. */
  predicate Touches(d: Delta, input: GateInput) {
    input in Inputs(d)
  }

  /** A global or unmapped path, or a lock that changed and cannot be read at both ends. */
  ghost predicate Escalates(d: Delta) {
    Touches(d, FullGate) || (Touches(d, LockFile) && (Parsed(d.baseLock).Err? || Parsed(d.headLock).Err?))
  }

  ghost predicate LockSeed(d: Delta, n: string) {
    && Touches(d, LockFile) && Parsed(d.baseLock).Ok? && Parsed(d.headLock).Ok?
    && n in Names(d.members) && InCone(Parsed(d.baseLock).value, Parsed(d.headLock).value, n)
  }

  ghost predicate Seed(d: Delta, n: string) {
    Touches(d, InCrate(n)) || LockSeed(d, n)
  }

  ghost predicate InAffectedCone(d: Delta, p: string) {
    exists s :: Seed(d, s) && Reaches(Workspace(d.members), p, s)
  }

  /** The packages whose suites must run. */
  ghost predicate Affected(d: Delta, p: string) {
    InAffectedCone(d, p) || (Touches(d, Guests) && p in GUEST_LINKED)
  }

  lemma TouchesExactly(d: Delta, input: GateInput)
    ensures Touches(d, input) <==> exists path <- d.changed :: Classify(path, d.members) == input
  {
    if Touches(d, input) {
      var i :| 0 <= i < |d.changed| && Inputs(d)[i] == input;
      assert d.changed[i] in d.changed;
    }
    if exists path <- d.changed :: Classify(path, d.members) == input {
      var path :| path in d.changed && Classify(path, d.members) == input;
      var i :| 0 <= i < |d.changed| && d.changed[i] == path;
      assert Inputs(d)[i] == input;
    }
  }

  /** The whole battery runs exactly for a path that needs all of it, or a changed lock that cannot be read. */
  lemma EscalatesExactly(d: Delta)
    ensures Escalates(d) <==>
      || (exists path <- d.changed :: NeedsAll(path, d.members))
      || ("Cargo.lock" in d.changed && (Parsed(d.baseLock).Err? || Parsed(d.headLock).Err?))
  {
    TouchesExactly(d, FullGate);
    TouchesExactly(d, LockFile);
    forall path <- d.changed { ClassifyExactly(path, d.members); }
  }

  /** The lock changed, and with it what the member `n` reaches. */
  ghost predicate LockChanged(d: Delta, n: string) {
    && "Cargo.lock" in d.changed && Parsed(d.baseLock).Ok? && Parsed(d.headLock).Ok?
    && n in Names(d.members) && InCone(Parsed(d.baseLock).value, Parsed(d.headLock).value, n)
  }

  /** Otherwise a package is affected exactly when it depends on a crate with a changed path, or on a member
      whose part of the lock changed, or when the guests changed and it is one of the five that load them. */
  lemma AffectedExactly(d: Delta, p: string)
    requires !Escalates(d)
    ensures Affected(d, p) <==>
      || (exists n :: Reaches(Workspace(d.members), p, n) && exists path <- d.changed :: ChargedTo(path, d.members, n))
      || (exists n :: Reaches(Workspace(d.members), p, n) && LockChanged(d, n))
      || ((exists path <- d.changed :: OfGuests(path)) && p in {"daemon-vhc-host", "daemon-vhc-testkit",
           "daemon-vhc-session", "daemon-vhc-worker", "daemon-vhc-acceptance"})
  {
    forall path <- d.changed { ClassifyExactly(path, d.members); }
    TouchesExactly(d, Guests);
    TouchesExactly(d, LockFile);
    forall n ensures Touches(d, InCrate(n)) <==> exists path <- d.changed :: ChargedTo(path, d.members, n) {
      TouchesExactly(d, InCrate(n));
    }
  }

  /** `None` stands for the full battery. */
  method AffectedPackages(d: Delta) returns (r: Option<set<string>>)
    ensures r.None? <==> Escalates(d)
    ensures r.Some? ==> forall p :: p in r.value <==> Affected(d, p)
  {
    var seeds, guests, lock, full := ScanInputs(Inputs(d));
    if full {
      return None;
    }
    if lock {
      var names := Names(d.members);
      var lockSeeds := LockConeSeeds(d.baseLock, d.headLock, names);
      if lockSeeds.Err? {
        return None;
      }
      seeds := seeds + lockSeeds.value;
    }
    assert forall n :: n in seeds <==> Seed(d, n);
    var affected := ReverseDependents(d.members, seeds);
    if guests {
      affected := affected + set p | p in GUEST_LINKED;
    }
    return Some(affected);
  }

  /** Sort the classified paths, stopping at the first that needs the full battery. */
  method ScanInputs(inputs: seq<GateInput>) returns (seeds: set<string>, guests: bool, lock: bool, full: bool)
    ensures full <==> FullGate in inputs
    ensures !full ==> (guests <==> Guests in inputs) && (lock <==> LockFile in inputs)
    ensures !full ==> forall n :: n in seeds <==> InCrate(n) in inputs
  {
    seeds, guests, lock, full := {}, false, false, false;
    for i := 0 to |inputs|
      invariant !full && FullGate !in inputs[..i]
      invariant guests <==> Guests in inputs[..i]
      invariant lock <==> LockFile in inputs[..i]
      invariant forall n :: n in seeds <==> InCrate(n) in inputs[..i]
    {
      assert inputs[..i + 1] == inputs[..i] + [inputs[i]];
      match inputs[i]
      case Ignored =>
      case Guests => guests := true;
      case LockFile => lock := true;
      case InCrate(name) => seeds := seeds + {name};
      case FullGate =>
        full := true;
        return;
    }
    assert inputs[..|inputs|] == inputs;
  }

  function InAffected(affected: set<string>): Suite -> bool {
    (s: Suite) => NamesPackage(s.args) && SuitePackage(s.args) in affected
  }

  function Keep(battery: seq<Suite>, affected: set<string>): (r: seq<Suite>)
    requires forall s <- battery :: NamesPackage(s.args)
    ensures forall s :: s in r <==> s in battery && SuitePackage(s.args) in affected
  {
    Filter(battery, InAffected(affected))
  }

  /** Drop the suites of unaffected packages from the end of a battery on. */
  ghost function Chosen(d: Delta, battery: seq<Suite>): seq<Suite>
    requires forall s <- battery :: NamesPackage(s.args)
  {
    if battery == [] then []
    else
      var last := battery[|battery| - 1];
      Chosen(d, battery[..|battery| - 1]) + if Affected(d, SuitePackage(last.args)) then [last] else []
  }

  /** The suites kept are the chosen ones: in battery order, each as often as the battery has it. */
  lemma {:induction false} KeepIsChosen(d: Delta, battery: seq<Suite>, affected: set<string>)
    requires forall s <- battery :: NamesPackage(s.args)
    requires forall p :: p in affected <==> Affected(d, p)
    ensures Keep(battery, affected) == Chosen(d, battery)
  {
    if battery != [] {
      var front, last := battery[..|battery| - 1], battery[|battery| - 1];
      assert front + [last] == battery;
      FilterSnoc(front, last, InAffected(affected));
      KeepIsChosen(d, front, affected);
    }
  }

  ghost predicate IsAffected(d: Delta, suite: Suite) {
    NamesPackage(suite.args) && Affected(d, SuitePackage(suite.args))
  }

  /** The selection part of the diff gate: the full battery, or exactly the suites of affected packages,
      in battery order. */
  method SelectSuites(d: Delta, battery: seq<Suite>) returns (selected: seq<Suite>)
    requires forall s <- battery :: NamesPackage(s.args)
    ensures selected == if Escalates(d) then battery else Chosen(d, battery)
    ensures (exists path <- d.changed :: Global(path)) ==> selected == battery
    ensures !Escalates(d) ==> Sifted(battery, s => IsAffected(d, s), selected)
    ensures !Escalates(d) ==> forall s :: s in selected <==> s in battery && Affected(d, SuitePackage(s.args))
  {
    EscalatesExactly(d);
    var affected := AffectedPackages(d);
    if affected.None? {
      return battery;
    }
    selected := Keep(battery, affected.value);
    KeepIsChosen(d, battery, affected.value);
    FilterIsSifted(battery, InAffected(affected.value));
    SiftedAlike(battery, InAffected(affected.value), s => IsAffected(d, s), selected);
  }

  /** The affected cone is the least set that holds the seeds and every member depending on it. */
  lemma ConeIsLeast(d: Delta, cone: set<string>, p: string)
    requires forall n :: Seed(d, n) ==> n in cone
    requires Settled(d.members, cone)
    requires InAffectedCone(d, p)
    ensures p in cone
  {
    var s :| Seed(d, s) && Reaches(Workspace(d.members), p, s);
    LeastContains(d.members, cone, p, s);
  }

  lemma ConeHoldsSeedsAndDependents(d: Delta, p: string, i: nat)
    ensures Seed(d, p) ==> InAffectedCone(d, p)
    ensures i < |d.members| && p in d.members[i].deps && InAffectedCone(d, p) ==> InAffectedCone(d, d.members[i].name)
  {
    var g := Workspace(d.members);
    ReachesSelf(g, p);
    if i < |d.members| && p in d.members[i].deps && InAffectedCone(d, p) {
      var s :| Seed(d, s) && Reaches(g, p, s);
      WorkspaceEdge(d.members, i, p);
      ReachesAfter(g, d.members[i].name, p, s);
    }
  }

  // ---- Member order ----

  predicate OneNamePerDir(members: seq<Crate>) {
    forall a <- members, b <- members :: a.dir == b.dir ==> a.name == b.name
  }

  /** Listing the same members in another order changes no classification, when no two of them share
      a directory under different names. */
  lemma ClassifyIgnoresOrder(path: string, members: seq<Crate>, members': seq<Crate>)
    requires OneNamePerDir(members) && forall m :: m in members <==> m in members'
    ensures Classify(path, members) == Classify(path, members')
  {
    var a, b := Owner(path, members), Owner(path, members');
    if a.Some? && b.Some? {
      assert |a.value.dir| == |b.value.dir|;
      assert a.value.dir == path[..|a.value.dir|] == b.value.dir;
    }
  }

  /** When two do share one, the order decides: the last one listed is charged with the change. */
  lemma SharedDirFollowsOrder(path: string, a: Crate, b: Crate)
    requires a.dir == b.dir && a.name != b.name && StartsWith(path, a.dir)
    requires !StartsWith(path, GUESTS_DIR) && path != "Cargo.lock" && !StartsWithAny(path, FULL_PREFIXES)
      && path !in FULL_FILES
    ensures Classify(path, [a, b]) == InCrate(b.name) && Classify(path, [b, a]) == InCrate(a.name)
  {
    OwnerOfTwo(path, a, b);
    OwnerOfTwo(path, b, a);
  }

  lemma OwnerOfTwo(path: string, a: Crate, b: Crate)
    requires a.dir == b.dir && StartsWith(path, a.dir)
    ensures Owner(path, [a, b]) == Some(b)
  {
    assert [a, b][..1] == [a] && [a][..0] == [];
  }

  lemma WorkspaceIgnoresOrder(members: seq<Crate>, members': seq<Crate>)
    requires forall m :: m in members <==> m in members'
    ensures Workspace(members) == Workspace(members') && Names(members) == Names(members')
  {
    DeclaredSubset(members, members');
    DeclaredSubset(members', members);
    forall n | n in Names(members) ensures Declared(members, n) == Declared(members', n) {}
  }

  lemma DeclaredSubset<N(!new)>(members: seq<Member<N>>, members': seq<Member<N>>)
    requires forall m :: m in members ==> m in members'
    ensures Names(members) <= Names(members') && forall n :: Declared(members, n) <= Declared(members', n)
  {
    forall n | n in Names(members) ensures n in Names(members') {
      var i :| 0 <= i < |members| && members[i].name == n;
      assert members[i] in members';
    }
    forall n, d | d in Declared(members, n) ensures d in Declared(members', n) {
      var i, j :| 0 <= i < |members| && 0 <= j < |members[i].deps| && members[i].name == n && members[i].deps[j] == d;
      assert members[i] in members';
      var k :| 0 <= k < |members'| && members'[k] == members[i];
      assert members'[k].deps[j] == d;
    }
  }

  /** The whole decision ignores the order in which the members are listed. */
  lemma SelectionIgnoresOrder(d: Delta, members': seq<Crate>, p: string)
    requires OneNamePerDir(d.members) && forall m :: m in d.members <==> m in members'
    ensures var d' := d.(members := members');
      (Escalates(d) <==> Escalates(d')) && (Affected(d, p) <==> Affected(d', p))
  {
    var d' := d.(members := members');
    WorkspaceIgnoresOrder(d.members, members');
    forall i | 0 <= i < |d.changed| ensures Inputs(d)[i] == Inputs(d')[i] {
      ClassifyIgnoresOrder(d.changed[i], d.members, members');
    }
    assert Inputs(d) == Inputs(d');
    forall n ensures Seed(d, n) <==> Seed(d', n) {}
  }
}
