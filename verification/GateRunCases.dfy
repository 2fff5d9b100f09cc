/** Two gate runs over a workspace of one crate: a full run that starts the record, and a run that leaves
    the suite out. */
module GateRunCases {
  import opened Text
  import opened Flatten
  import opened Graph
  import opened PathRange
  import opened Gate
  import opened SuiteMemo
  import opened GateSoundness
  import opened Lane
  import opened Scheduler
  import opened Ledger
  import opened LaneSchedule
  import opened Escalation
  import opened GateRun
  import CargoLock

  const A := Member("a", "a/", [])
  const BATTERY := [Suite("a", ["-p", "a"])]

  /** One green suite, run serially and recorded. */
  const GREEN_LANE := LaneRun(BATTERY, SERIAL, Plan(["a"], [Group("a", [0])]),
      [Started(0), Finished(0, Green), Banked(0, Stored)])

  function Vendored(): Tree {
    OneCrate().(dirty := [Entry("vendor/x", "")])
  }

  function Documented(): Tree {
    OneCrate().(dirty := [Entry("docs/x", ""), Entry("vendor/x", "")])
  }

  const FULL := GateStep(Vendored(), [A], ["vendor/x"], true, [GREEN_LANE])
  const NOTHING := GateStep(Documented(), [A], ["docs/x"], true, [])

  function FileOf(title: string): string {
    title
  }

  lemma BatteryIsNamed()
    ensures AllNamed(BATTERY) && SuitePackage(BATTERY[0].args) == "a" && Packages(BATTERY) == ["a"]
  {
    NamesA(BATTERY[0]);
  }

  lemma GreenLanePasses()
    ensures PlanOk(GREEN_LANE.plan) && Passes(SERIAL, GREEN_LANE.plan, GREEN_LANE.events)
  {
    var outcome, write := (_: nat) => Green, (_: nat) => Stored;
    assert SerialFrom(1, 1, outcome, write) == (true, []);
    assert GREEN_LANE.events + [] == GREEN_LANE.events;
    assert SerialFrom(1, 0, outcome, write) == (true, GREEN_LANE.events + []);
    assert Holds(GREEN_LANE.plan.groups, 0) by { assert GREEN_LANE.plan.groups[0].entries[0] == 0; }
  }

  lemma NothingRecordedRunsAll(w: World)
    requires w.files == map[] && AllNamed(BATTERY)
    ensures ToRun(Setting(w.tree, true, FileOf), w.files, BATTERY) == BATTERY
  {
    var t := Setting(w.tree, true, FileOf);
    assert !IsMemoized(t, w.files, BATTERY[0]) && BATTERY[1..] == [];
    assert ToRun(t, w.files, BATTERY[1..]) == [];
  }

  lemma FullEscalates(w: World)
    ensures Escalates(DeltaAt(w, FULL))
  {
    VendorIsUnkeyed();
    UnkeyedEscalates("vendor/x", [A]);
    OneInput(DeltaAt(w, FULL), "vendor/x");
  }

  lemma FullLanesPass(w: World)
    requires w.files == map[] && AllNamed(BATTERY)
    ensures LanesPass(w, FileOf, true, FULL.lanes)
  {
    BatteryIsNamed();
    GreenLanePasses();
    NothingRecordedRunsAll(w);
    assert LanePasses(w, FileOf, true, GREEN_LANE);
    assert [GREEN_LANE][1..] == [];
  }

  lemma NothingRecordedIsOk(w: World)
    requires w == World(OneCrate(), map[], [], [])
    ensures WorldOk(w) && ValidTree(FULL.head)
  {
    OneCrateIsLocked();
  }

  lemma FullRunIsBattery()
    ensures Flat(FULL.lanes, SuitesOf) == BATTERY
  {
    assert [GREEN_LANE][1..] == [] && BATTERY + [] == BATTERY;
  }

  /** From nothing on record, an edit under `vendor/` makes the whole battery run, and it passes. */
  lemma FullRunPasses(w: World)
    requires w == World(OneCrate(), map[], [], [])
    ensures AllNamed(BATTERY) && WorldOk(w) && Passing(w, FileOf, BATTERY, FULL) && Escalates(DeltaAt(w, FULL))
  {
    BatteryIsNamed();
    NothingRecordedIsOk(w);
    FullLanesPass(w.(tree := FULL.head));
    FullEscalates(w);
    FullRunIsBattery();
  }

  lemma DocsAreIgnored()
    ensures Classify("docs/x", [A]) == Ignored
  {
    assert "docs/x"[0] == 'd' && GUESTS_DIR[0] == 'c' && "a/"[0] == 'a' && "Cargo.lock"[0] == 'C';
    assert forall m <- [A] :: !StartsWith("docs/x", m.dir);
    assert Owner("docs/x", [A]).None?;
    forall prefix <- FULL_PREFIXES ensures !StartsWith("docs/x", prefix) { assert prefix[0] != 'd'; }
    forall f <- FULL_FILES ensures "docs/x" != f { assert f[0] != 'd'; }
    assert "docs/x"[..5] == "docs/" == IGNORED_PREFIXES[0] && IGNORED_PREFIXES[0] in IGNORED_PREFIXES;
    assert StartsWithAny("docs/x", IGNORED_PREFIXES);
  }

  lemma DocsAreListed()
    ensures Listed(Vendored()) && Listed(Documented()) && Covers(["docs/x"], Vendored(), Documented())
  {
    assert Leq("docs/x", "vendor/x");
    assert "docs/x" in ["docs/x"];
    var d := Documented().dirty;
    assert d[0] == Entry("docs/x", "") && d[1] == Vendored().dirty[0];
  }

  lemma AIsCovered(lock: CargoLock.Lock)
    ensures Covered([A], map["a" := "a/"], lock, "a")
  {
    ReachesSelf(Workspace([A]), "a");
    assert "a/"[0] == 'a' && GUESTS_DIR[0] == 'c';
    AllReachedIsCovered([A], map["a" := "a/"], lock, "a");
  }

  lemma DocsAreTraced()
    ensures Traced(Vendored(), Documented(), ["docs/x"], "a")
    ensures GoneShow(Vendored(), Documented(), [A], ["docs/x"], "a")
  {
    DocsAreListed();
    assert Vendored().dirs == Documented().dirs;
  }

  /** The member `a` is accountable when only the documentation changes. */
  lemma DocsAreAccountable()
    ensures Accountable(Vendored(), Documented(), [A], ["docs/x"], "a")
  {
    OneCrateIsLocked();
    DocsAreTraced();
    assert [A][0].name == "a";
    if Compute(Documented()).Some? { AIsCovered(Compute(Documented()).value.lock); }
  }

  lemma SelectsNothing(w: World)
    requires AllNamed(BATTERY) && w.tree == Vendored()
    ensures Passing(w, FileOf, BATTERY, NOTHING)
  {
    var d := DeltaAt(w, NOTHING);
    DocsAreIgnored();
    OneInput(d, "docs/x");
    SoleInput(d, Ignored, "a");
    BatteryIsNamed();
    OneCrateIsLocked();
    DocsAreListed();
    assert forall s <- BATTERY :: NamesPackage(s.args);
    ChosenIsPart(d, BATTERY);
    assert Chosen(d, BATTERY) == [];
  }

  lemma NothingFollows(w: World)
    requires AllNamed(BATTERY) && w.tree == Vendored()
    ensures Chain(w, FileOf, BATTERY, [NOTHING])
  {
    SelectsNothing(w);
    DocsAreAccountable();
    BatteryIsNamed();
    assert [NOTHING][1..] == [];
  }

  /** After the full run a change of the documentation selects nothing, and both runs make a chain. */
  lemma RecordOutlivesDocs(w: World)
    requires w == World(OneCrate(), map[], [], [])
    ensures AllNamed(BATTERY) && Chain(w, FileOf, BATTERY, [FULL, NOTHING])
    ensures AllGreened(AfterChain(w, FileOf, BATTERY, [FULL, NOTHING]), BATTERY)
  {
    FullRunPasses(w);
    MovedIsOk(w, FULL.head);
    LanesKeep(w.(tree := FULL.head), FileOf, true, FULL.lanes);
    NothingFollows(Gated(w, FileOf, BATTERY, FULL));
    assert [FULL, NOTHING][1..] == [NOTHING];
    GreenFromFullRunOn(w, FileOf, BATTERY, [FULL, NOTHING]);
  }
}
