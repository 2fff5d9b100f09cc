/** What the ledger makes of a change that sends the gate into the full battery. */
module Escalation {
  import opened Text
  import opened PathRange
  import opened Gate
  import opened SuiteMemo
  import opened Ledger
  import opened GateSoundness
  import CargoLock

  lemma EditKeepsMemoExactly(base: Tree, head: Tree, path: string, files: Files, fileOf: string -> string, suite: Suite)
    requires OneEdit(base, head, path) && NamesPackage(suite.args)
      && IsMemoized(Setting(base, true, fileOf), files, suite)
    ensures Compute(base).Some?
    ensures IsMemoized(Setting(head, true, fileOf), files, suite)
       <==> !Reads(base.dirs, Compute(base).value.lock, SuitePackage(suite.args), path)
  {
    EditChangesKeyExactly(base, head, path, SuitePackage(suite.args), suite);
  }

  /** After one edited path, a lane runs a suite it would have skipped before if and only if the suite's
      key reads the path; otherwise it reports it as skipped, whatever the gate selects. */
  lemma EditReRunsExactly(base: Tree, head: Tree, path: string, files: Files, fileOf: string -> string,
      suites: seq<Suite>, suite: Suite, after: nat)
    requires OneEdit(base, head, path) && AllNamed(suites)
    requires suite in suites && suite !in ToRun(Setting(base, true, fileOf), files, suites)
    ensures NamesPackage(suite.args) && Compute(base).Some?
    ensures suite in ToRun(Setting(head, true, fileOf), files, suites)
       <==> Reads(base.dirs, Compute(base).value.lock, SuitePackage(suite.args), path)
    ensures suite in SuitesSkipped(Skipped(Setting(head, true, fileOf), files, suites, after))
       <==> !Reads(base.dirs, Compute(base).value.lock, SuitePackage(suite.args), path)
  {
    RunsOrSkips(Setting(base, true, fileOf), files, suites, suite, after);
    RunsOrSkips(Setting(head, true, fileOf), files, suites, suite, after);
    EditKeepsMemoExactly(base, head, path, files, fileOf, suite);
  }

  /** Vendored sources and the cargo configuration, outside every crate. */
  predicate Unkeyed(path: string, members: seq<Crate>) {
    (StartsWith(path, ".cargo/") || StartsWith(path, "vendor/")) && Owner(path, members).None?
  }

  lemma UnkeyedStart(path: string, members: seq<Crate>)
    requires Unkeyed(path, members)
    ensures path != "" && path[0] in {'.', 'v'} && StartsWithAny(path, FULL_PREFIXES)
  {
    assert FULL_PREFIXES[1] == ".cargo/" && FULL_PREFIXES[2] == "vendor/";
  }

  lemma UnkeyedEscalates(path: string, members: seq<Crate>)
    requires Unkeyed(path, members)
    ensures Classify(path, members) == FullGate
  {
    UnkeyedStart(path, members);
    assert GUESTS_DIR[0] == 'c' && "Cargo.lock"[0] == 'C';
  }

  lemma UnkeyedIsUnread(path: string, members: seq<Crate>, dirs: map<string, string>, lock: CargoLock.Lock, p: string)
    requires Unkeyed(path, members) && Describes(members, dirs)
    ensures !Reads(dirs, lock, p, path)
  {
    UnkeyedStart(path, members);
    assert GUESTS_DIR[0] == 'c' && ROOT_MANIFEST[0] == 'C' && RUNNER_DIR[0] == 'x';
    forall q | q in dirs ensures !StartsWith(path, dirs[q]) {
      if StartsWith(path, dirs[q]) { OwnerInside(members, dirs, path, q); }
    }
  }

  lemma UnkeyedEditEscalates(base: Tree, head: Tree, members: seq<Crate>, path: string)
    requires Unkeyed(path, members)
    ensures Escalates(DeltaOf(base, head, members, [path]))
  {
    UnkeyedEscalates(path, members);
    OneInput(DeltaOf(base, head, members, [path]), path);
  }

  lemma UnkeyedEditSkips(base: Tree, head: Tree, members: seq<Crate>, path: string, files: Files,
      fileOf: string -> string, suites: seq<Suite>, suite: Suite)
    requires OneEdit(base, head, path) && Describes(members, base.dirs) && Unkeyed(path, members) && AllNamed(suites)
    requires suite in suites && suite !in ToRun(Setting(base, true, fileOf), files, suites)
    ensures suite !in ToRun(Setting(head, true, fileOf), files, suites)
  {
    EditReRunsExactly(base, head, path, files, fileOf, suites, suite, 0);
    UnkeyedIsUnread(path, members, base.dirs, Compute(base).value.lock, SuitePackage(suite.args));
  }

  /** Such an edit demands the full battery, and the lane then skips every suite it would have skipped
      before it; with the whole battery recorded green, it runs nothing. */
  lemma UnkeyedEditIsSkipped(base: Tree, head: Tree, members: seq<Crate>, path: string, files: Files,
      fileOf: string -> string, battery: seq<Suite>)
    requires OneEdit(base, head, path) && Describes(members, base.dirs) && Unkeyed(path, members) && AllNamed(battery)
    ensures Escalates(DeltaOf(base, head, members, [path]))
    ensures forall suite <- battery :: suite !in ToRun(Setting(base, true, fileOf), files, battery) ==>
      suite !in ToRun(Setting(head, true, fileOf), files, battery)
    ensures ToRun(Setting(base, true, fileOf), files, battery) == [] ==>
      ToRun(Setting(head, true, fileOf), files, battery) == []
  {
    UnkeyedEditEscalates(base, head, members, path);
    var now := ToRun(Setting(head, true, fileOf), files, battery);
    forall suite <- battery | suite !in ToRun(Setting(base, true, fileOf), files, battery) ensures suite !in now {
      UnkeyedEditSkips(base, head, members, path, files, fileOf, battery, suite);
    }
    ToRunExactly(Setting(head, true, fileOf), files, battery);
    if now != [] { assert now[0] in now; }
  }

  // ---- A workspace of one crate ----

  /** The crate `a` in the directory `a/`, locked, with nothing listed. */
  function OneCrate(): Tree {
    var block := CargoLock.Block("a", Some("1"), None, None, []);
    Tree(CargoLock.Printed([], 4, [block]), map["a" := "a/"], [], [], "", Env("", "", "", ""))
  }

  lemma OneCrateIsLocked()
    ensures Compute(OneCrate()).Some? && "a" in Compute(OneCrate()).value.lock
    ensures ValidTree(OneCrate()) && Describes([Member("a", "a/", [])], OneCrate().dirs)
  {
    var blocks := [CargoLock.Block("a", Some("1"), None, None, [])];
    CargoLock.RoundTrip([], 4, blocks);
    assert blocks[0].name in CargoLock.Names(blocks);
    assert [Member("a", "a/", [])][0].name == "a";
  }

  lemma NamesA(suite: Suite)
    requires suite == Suite("a", ["-p", "a"])
    ensures NamesPackage(suite.args) && SuitePackage(suite.args) == "a"
  {}

  lemma RecordedIsSkipped(tree: Tree, suite: Suite, file: string)
    requires NamesPackage(suite.args) && KeyAt(tree, suite).Some?
    ensures ToRun(Setting(tree, true, _ => file), map[file := Recorded(KeyAt(tree, suite).value)], [suite]) == []
  {
    var t, files := Setting(tree, true, _ => file), map[file := Recorded(KeyAt(tree, suite).value)];
    assert IsMemoized(t, files, suite) && [suite][1..] == [];
  }

  lemma LockedHasKey(tree: Tree, suite: Suite)
    requires NamesPackage(suite.args) && Compute(tree).Some? && SuitePackage(suite.args) in Compute(tree).value.lock
    ensures KeyAt(tree, suite).Some?
  {}

  lemma VendorIsUnkeyed()
    ensures Unkeyed("vendor/x", [Member("a", "a/", [])])
  {
    assert "vendor/x"[..7] == "vendor/" && "vendor/x"[0] != "a/"[0];
  }

  /** In that workspace a suite has a key, and recorded under it as green it is skipped by the full battery
      after an edit of `vendor/x`. */
  lemma VendorEditIsSkipped(base: Tree, head: Tree, suite: Suite)
    requires base == OneCrate() && head == base.(dirty := [Entry("vendor/x", "")]) && suite == Suite("a", ["-p", "a"])
    ensures NamesPackage(suite.args) && KeyAt(base, suite).Some?
    ensures Escalates(DeltaOf(base, head, [Member("a", "a/", [])], ["vendor/x"]))
    ensures ToRun(Setting(head, true, _ => "a"), map["a" := Recorded(KeyAt(base, suite).value)], [suite]) == []
  {
    OneCrateIsLocked();
    NamesA(suite);
    LockedHasKey(base, suite);
    EditFromNothing(base, head, "vendor/x");
    VendorIsUnkeyed();
    SkippedInOneFile(base, head, [Member("a", "a/", [])], "vendor/x", suite, "a");
  }

  lemma SkippedInOneFile(base: Tree, head: Tree, members: seq<Crate>, path: string, suite: Suite, file: string)
    requires OneEdit(base, head, path) && Describes(members, base.dirs) && Unkeyed(path, members)
    requires NamesPackage(suite.args) && KeyAt(base, suite).Some?
    ensures Escalates(DeltaOf(base, head, members, [path]))
    ensures ToRun(Setting(head, true, _ => file), map[file := Recorded(KeyAt(base, suite).value)], [suite]) == []
  {
    var files, fileOf := map[file := Recorded(KeyAt(base, suite).value)], (_: string) => file;
    RecordedIsSkipped(base, suite, file);
    assert ToRun(Setting(base, true, fileOf), files, [suite]) == [];
    UnkeyedEditIsSkipped(base, head, members, path, files, fileOf, [suite]);
  }
}
