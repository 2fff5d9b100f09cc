/** What the gate is for: after a passing run every suite of the battery has a green run behind its key,
    if the suites it left out had one at the base. */
module GateRun {
  import opened Text
  import opened Flatten
  import opened KeyFormat
  import opened Gate
  import opened SuiteMemo
  import opened GateSoundness
  import opened Lane
  import opened Scheduler
  import opened Ledger
  import opened LaneSchedule

  /** The suite has no key on this tree, or a real green run with that key is on record. */
  ghost predicate Greened(runs: seq<TestRun>, tree: Tree, suite: Suite)
    requires NamesPackage(suite.args)
  {
    KeyAt(tree, suite).Some? ==> Earned(runs, |runs|, KeyAt(tree, suite).value)
  }

  /** What the gate relies on to leave out the suites of the member `p`. */
  ghost predicate Accountable(base: Tree, head: Tree, members: seq<Crate>, changed: seq<string>, p: string) {
    && Traced(base, head, changed, p) && GoneShow(base, head, members, changed, p)
    && Describes(members, head.dirs) && p in Names(members)
    && (Compute(head).Some? ==>
      p !in Compute(head).value.lock || Covered(members, head.dirs, Compute(head).value.lock, p))
  }

  /** A green run at the base still counts for a suite the gate leaves out. */
  lemma GreenCarries(base: Tree, head: Tree, members: seq<Crate>, changed: seq<string>, runs: seq<TestRun>,
      suite: Suite)
    requires NamesPackage(suite.args) && Greened(runs, base, suite)
    requires Accountable(base, head, members, changed, SuitePackage(suite.args))
    requires var d := DeltaOf(base, head, members, changed); !Escalates(d) && !Affected(d, SuitePackage(suite.args))
    ensures Greened(runs, head, suite)
  {
    if Compute(head).Some? {
      UnselectedKeepsKey(base, head, members, changed, SuitePackage(suite.args), suite);
    }
  }

  // ---- The lane of a gate run ----

  lemma PassIsLane(schedule: Schedule, plan: Plan<string>, suites: seq<Suite>, events: seq<Event>)
    requires AllNamed(suites) && PlanOk(plan) && plan.pkgs == Packages(suites) && Passes(schedule, plan, events)
    ensures LaneEvents(suites, events)
  {
    if IsSerial(schedule) {
      PassedSerially(events, |suites|);
      assert Stands(events, Positions(|suites|), |suites|, Check);
    } else {
      var moves :| EndsWell(plan, WorkerCount(schedule, plan), moves, events);
    }
  }

  /** A suite the lane ran is on record as green. */
  lemma RanIsGreened(t: Setting, suites: seq<Suite>, events: seq<Event>, runs: seq<TestRun>, i: nat)
    requires AllNamed(suites) && ValidTree(t.tree) && Honest(|suites|, events) && i < |suites|
      && Finished(i, Green) in events
    ensures Greened(runs + Runs'(t, suites, events), t.tree, suites[i])
  {
    var ran, all := Runs'(t, suites, events), runs + Runs'(t, suites, events);
    var c :| 0 <= c < |events| && events[c] == Finished(i, Green);
    FinishedIsRun(t, suites, events, c);
    var j :| 0 <= j < |ran| && ran[j] == TestRun(t.tree, suites[i], Green);
    if KeyAt(t.tree, suites[i]).Some? {
      assert all[|runs| + j] == ran[j] && EarnedBy(all[|runs| + j], KeyAt(t.tree, suites[i]).value);
    }
  }

  /** A suite the lane skipped was on record already. */
  lemma SkippedIsGreened(t: Setting, files: Files, suite: Suite, runs: seq<TestRun>, more: seq<TestRun>)
    requires NamesPackage(suite.args) && FilesEarned(files, runs) && IsMemoized(t, files, suite)
    ensures Greened(runs + more, t.tree, suite)
  {
    EarnedStays(runs, more, |runs|, |runs + more|, KeyAt(t.tree, suite).value);
  }

  lemma GreenedStays(runs: seq<TestRun>, all: seq<TestRun>, tree: Tree, suite: Suite)
    requires NamesPackage(suite.args) && Greened(runs, tree, suite) && runs <= all
    ensures Greened(all, tree, suite)
  {
    if KeyAt(tree, suite).Some? {
      EarnedStays(runs, all[|runs|..], |runs|, |all|, KeyAt(tree, suite).value);
      assert runs + all[|runs|..] == all;
    }
  }

  /** A lane that passes leaves every one of its suites on record. */
  lemma PassingLaneGreens(t: Setting, files: Files, runs: seq<TestRun>, suites: seq<Suite>,
                          schedule: Schedule, plan: Plan<string>, events: seq<Event>, suite: Suite)
    requires AllNamed(suites) && ValidTree(t.tree) && FilesEarned(files, runs) && suite in suites
      && NamesPackage(suite.args)
    requires Built(schedule) && PlanOk(plan) && plan.pkgs == Packages(ToRun(t, files, suites))
      && Passes(schedule, plan, events)
    ensures Honest(|ToRun(t, files, suites)|, events)
    ensures Greened(runs + Runs'(t, ToRun(t, files, suites), events), t.tree, suite)
  {
    var run := ToRun(t, files, suites);
    PassIsLane(schedule, plan, run, events);
    LaneIsHonest(run, events);
    ToRunExactly(t, files, suites);
    if suite in run {
      var i :| 0 <= i < |run| && run[i] == suite;
      PassingRanEverything(schedule, plan, events, i);
      RanIsGreened(t, run, events, runs, i);
    } else {
      SkippedIsGreened(t, files, suite, runs, Runs'(t, run, events));
    }
  }

  // ---- The next lane ----

  ghost predicate AllStored(events: seq<Event>) {
    forall b :: 0 <= b < |events| && events[b].Banked? ==> events[b].write == Stored
  }

  /** The ledger files after these events, when suite `i` has its file at `at[i]` and the key `keys[i]`. */
  function Written(files: Files, at: seq<string>, keys: seq<Option<Fragment>>, events: seq<Event>): Files
    requires |at| == |keys| && forall b :: 0 <= b < |events| ==> events[b].suite < |at|
  {
    if events == [] then files
    else
      var before, e := Written(files, at, keys, events[..|events| - 1]), events[|events| - 1];
      if e.Banked? then RecordGreen(before, at[e.suite], keys[e.suite], e.write) else before
  }

  ghost predicate Banks(events: seq<Event>, i: nat) {
    exists b :: 0 <= b < |events| && events[b].Banked? && events[b].suite == i
  }

  /** A stored write of a key, to a file that no other suite has, stays; nothing later takes it back. */
  lemma {:induction false} StoredStays(files: Files, at: seq<string>, keys: seq<Option<Fragment>>, events: seq<Event>,
      file: string, key: Option<Fragment>)
    requires |at| == |keys| && (forall b :: 0 <= b < |events| ==> events[b].suite < |at|) && AllStored(events)
    requires key.Some? && forall i :: 0 <= i < |at| && at[i] == file ==> keys[i] == key
    requires MemoGreen(files, file, key) || exists i :: 0 <= i < |at| && at[i] == file && Banks(events, i)
    ensures MemoGreen(Written(files, at, keys, events), file, key)
  {
    if events != [] {
      var front, e := events[..|events| - 1], events[|events| - 1];
      if !(e.Banked? && at[e.suite] == file) {
        if !MemoGreen(files, file, key) {
          var i :| 0 <= i < |at| && at[i] == file && Banks(events, i);
          var b :| 0 <= b < |events| && events[b].Banked? && events[b].suite == i;
          assert front[b] == events[b];
          assert Banks(front, i);
        }
        StoredStays(files, at, keys, front, file, key);
      }
    }
  }

  ghost function FilesAt(t: Setting, run: seq<Suite>): seq<string> {
    seq(|run|, i requires 0 <= i < |run| => t.fileOf(run[i].title))
  }

  ghost function KeysAt(t: Setting, run: seq<Suite>): seq<Option<Fragment>>
    requires AllNamed(run)
  {
    seq(|run|, i requires 0 <= i < |run| => LaneKey(t, run[i]))
  }

  lemma {:induction false} FilesAreWritten(t: Setting, run: seq<Suite>, files: Files, events: seq<Event>)
    requires AllNamed(run) && Honest(|run|, events)
    ensures Files'(t, run, files, events) == Written(files, FilesAt(t, run), KeysAt(t, run), events)
  {
    if events != [] { FilesAreWritten(t, run, files, events[..|events| - 1]); }
  }

  lemma OwnKey(t: Setting, run: seq<Suite>, suite: Suite)
    requires AllNamed(run) && NamesPackage(suite.args)
    requires forall i :: 0 <= i < |run| && t.fileOf(run[i].title) == t.fileOf(suite.title) ==> run[i] == suite
    ensures forall i :: 0 <= i < |run| && FilesAt(t, run)[i] == t.fileOf(suite.title) ==>
      KeysAt(t, run)[i] == LaneKey(t, suite)
  {}

  /** A stored write for a suite, to a file of its own, memoizes it, and no later write takes that back. */
  lemma StoredIsMemoized(t: Setting, run: seq<Suite>, files: Files, events: seq<Event>, suite: Suite)
    requires AllNamed(run) && Honest(|run|, events) && AllStored(events)
    requires NamesPackage(suite.args) && LaneKey(t, suite).Some?
    requires forall i :: 0 <= i < |run| && t.fileOf(run[i].title) == t.fileOf(suite.title) ==> run[i] == suite
    requires IsMemoized(t, files, suite) || exists i :: 0 <= i < |run| && run[i] == suite && Banks(events, i)
    ensures IsMemoized(t, Files'(t, run, files, events), suite)
  {
    var at, keys := FilesAt(t, run), KeysAt(t, run);
    FilesAreWritten(t, run, files, events);
    OwnKey(t, run, suite);
    if !IsMemoized(t, files, suite) {
      var i :| 0 <= i < |run| && run[i] == suite && Banks(events, i);
      assert at[i] == t.fileOf(suite.title);
    }
    StoredStays(files, at, keys, events, t.fileOf(suite.title), LaneKey(t, suite));
  }

  /** Every suite has a ledger file of its own. */
  ghost predicate OwnFiles(t: Setting, suites: seq<Suite>) {
    forall a <- suites, b <- suites :: t.fileOf(a.title) == t.fileOf(b.title) ==> a == b
  }

  lemma PassedIsMemoized(t: Setting, files: Files, suites: seq<Suite>, schedule: Schedule, plan: Plan<string>,
      events: seq<Event>, suite: Suite)
    requires AllNamed(suites) && suite in suites && OwnFiles(t, suites) && AllStored(events)
    requires NamesPackage(suite.args) && LaneKey(t, suite).Some?
    requires Built(schedule) && PlanOk(plan) && plan.pkgs == Packages(ToRun(t, files, suites))
      && Passes(schedule, plan, events) && Honest(|ToRun(t, files, suites)|, events)
    ensures IsMemoized(t, Files'(t, ToRun(t, files, suites), files, events), suite)
  {
    var run := ToRun(t, files, suites);
    ToRunExactly(t, files, suites);
    forall i | 0 <= i < |run| && t.fileOf(run[i].title) == t.fileOf(suite.title) ensures run[i] == suite {
      assert run[i] in run;
    }
    if suite in run {
      var i :| 0 <= i < |run| && run[i] == suite;
      PassingBankedEverything(schedule, plan, events, i);
      assert Banks(events, i);
    }
    StoredIsMemoized(t, run, files, events, suite);
  }

  /** After a memoizing lane that passes with every write stored, each to a file of its own, the same lane on
      the same tree runs exactly the suites that have no key. */
  lemma PassedIsNotRunAgain(t: Setting, files: Files, suites: seq<Suite>, schedule: Schedule, plan: Plan<string>,
      events: seq<Event>, suite: Suite)
    requires t.memo && AllNamed(suites) && suite in suites && OwnFiles(t, suites) && AllStored(events)
    requires Built(schedule) && PlanOk(plan) && plan.pkgs == Packages(ToRun(t, files, suites))
      && Passes(schedule, plan, events)
    ensures NamesPackage(suite.args) && Honest(|ToRun(t, files, suites)|, events)
    ensures suite in ToRun(t, Files'(t, ToRun(t, files, suites), files, events), suites) <==> KeyAt(t.tree, suite).None?
  {
    var run := ToRun(t, files, suites);
    PassIsLane(schedule, plan, run, events);
    LaneIsHonest(run, events);
    RunsOrSkips(t, files, suites, suite, 0);
    RunsOrSkips(t, Files'(t, run, files, events), suites, suite, 0);
    if KeyAt(t.tree, suite).Some? { PassedIsMemoized(t, files, suites, schedule, plan, events, suite); }
  }

  // ---- Lanes, one after the other ----

  /** One lane of a gate run: its suites, how they are scheduled, and what happens. */
  datatype LaneRun = LaneRun(suites: seq<Suite>, schedule: Schedule, plan: Plan<string>, events: seq<Event>)

  ghost predicate LanePasses(w: World, fileOf: string -> string, memo: bool, lane: LaneRun) {
    && AllNamed(lane.suites) && Built(lane.schedule) && PlanOk(lane.plan)
    && lane.plan.pkgs == Packages(ToRun(Setting(w.tree, memo, fileOf), w.files, lane.suites))
    && Passes(lane.schedule, lane.plan, lane.events)
  }

  /** The world after a lane that passes. */
  ghost function AfterLane(w: World, fileOf: string -> string, memo: bool, lane: LaneRun): World
    requires LanePasses(w, fileOf, memo, lane)
  {
    PassIsLane(lane.schedule, lane.plan, ToRun(Setting(w.tree, memo, fileOf), w.files, lane.suites), lane.events);
    Ledger.Next(w, fileOf, RunLane(lane.suites, memo, lane.events))
  }

  lemma LaneKeeps(w: World, fileOf: string -> string, memo: bool, lane: LaneRun)
    requires LanePasses(w, fileOf, memo, lane)
    ensures var w' := AfterLane(w, fileOf, memo, lane); w'.tree == w.tree && w.runs <= w'.runs
    ensures WorldOk(w) ==> WorldOk(AfterLane(w, fileOf, memo, lane))
  {
    PassIsLane(lane.schedule, lane.plan, ToRun(Setting(w.tree, memo, fileOf), w.files, lane.suites), lane.events);
    if WorldOk(w) { StepKeepsWorld(w, fileOf, RunLane(lane.suites, memo, lane.events)); }
  }

  lemma LaneGreens(w: World, fileOf: string -> string, memo: bool, lane: LaneRun, suite: Suite)
    requires WorldOk(w) && LanePasses(w, fileOf, memo, lane) && suite in lane.suites && NamesPackage(suite.args)
    ensures Greened(AfterLane(w, fileOf, memo, lane).runs, w.tree, suite)
  {
    var t := Setting(w.tree, memo, fileOf);
    PassingLaneGreens(t, w.files, w.runs, lane.suites, lane.schedule, lane.plan, lane.events, suite);
  }

  ghost predicate LanesPass(w: World, fileOf: string -> string, memo: bool, lanes: seq<LaneRun>)
    decreases lanes
  {
    lanes == [] ||
      (LanePasses(w, fileOf, memo, lanes[0])
       && LanesPass(AfterLane(w, fileOf, memo, lanes[0]), fileOf, memo, lanes[1..]))
  }

  ghost function AfterLanes(w: World, fileOf: string -> string, memo: bool, lanes: seq<LaneRun>): World
    requires LanesPass(w, fileOf, memo, lanes)
    decreases lanes
  {
    if lanes == [] then w else AfterLanes(AfterLane(w, fileOf, memo, lanes[0]), fileOf, memo, lanes[1..])
  }

  lemma {:induction false} LanesKeep(w: World, fileOf: string -> string, memo: bool, lanes: seq<LaneRun>)
    requires WorldOk(w) && LanesPass(w, fileOf, memo, lanes)
    ensures var w' := AfterLanes(w, fileOf, memo, lanes); w'.tree == w.tree && w.runs <= w'.runs && WorldOk(w')
    decreases lanes
  {
    if lanes != [] {
      LaneKeeps(w, fileOf, memo, lanes[0]);
      LanesKeep(AfterLane(w, fileOf, memo, lanes[0]), fileOf, memo, lanes[1..]);
    }
  }

  function SuitesOf(lane: LaneRun): seq<Suite> {
    lane.suites
  }

  /** Lanes that pass one after the other leave all their suites on record. */
  lemma {:induction false} PassingLanesGreen(w: World, fileOf: string -> string, memo: bool, lanes: seq<LaneRun>,
      suite: Suite)
    requires WorldOk(w) && LanesPass(w, fileOf, memo, lanes)
    requires suite in Flat(lanes, SuitesOf) && NamesPackage(suite.args)
    ensures Greened(AfterLanes(w, fileOf, memo, lanes).runs, w.tree, suite)
    decreases lanes
  {
    var next := AfterLane(w, fileOf, memo, lanes[0]);
    LaneKeeps(w, fileOf, memo, lanes[0]);
    if suite in lanes[0].suites {
      LaneGreens(w, fileOf, memo, lanes[0], suite);
      LanesKeep(next, fileOf, memo, lanes[1..]);
      GreenedStays(next.runs, AfterLanes(w, fileOf, memo, lanes).runs, w.tree, suite);
    } else {
      PassingLanesGreen(next, fileOf, memo, lanes[1..], suite);
    }
  }

  // ---- The whole gate ----

  lemma {:induction false} ChosenIsPart(d: Delta, battery: seq<Suite>)
    requires forall s <- battery :: NamesPackage(s.args)
    ensures forall s :: s in Chosen(d, battery) <==> s in battery && Affected(d, SuitePackage(s.args))
  {
    if battery != [] {
      var front, last := battery[..|battery| - 1], battery[|battery| - 1];
      ChosenIsPart(d, front);
      assert battery == front + [last];
    }
  }

  ghost function Selected(d: Delta, battery: seq<Suite>): seq<Suite>
    requires AllNamed(battery)
  {
    assert forall s <- battery :: NamesPackage(s.args);
    if Escalates(d) then battery else Chosen(d, battery)
  }

  lemma SelectedIs(d: Delta, battery: seq<Suite>, i: nat)
    requires AllNamed(battery) && i < |battery|
    ensures battery[i] in Selected(d, battery) <==> Escalates(d) || Affected(d, SuitePackage(battery[i].args))
  {
    assert forall s <- battery :: NamesPackage(s.args);
    ChosenIsPart(d, battery);
  }

  /** One gate run: where the tree moves, what is reported as changed, and the lanes that run. */
  datatype GateStep = GateStep(head: Tree, members: seq<Crate>, changed: seq<string>, memo: bool, lanes: seq<LaneRun>)

  function DeltaAt(w: World, g: GateStep): Delta {
    DeltaOf(w.tree, g.head, g.members, g.changed)
  }

  /** The tree moves to the head, and the selected suites run to a pass, in one lane or in several. */
  ghost predicate Passing(w: World, fileOf: string -> string, battery: seq<Suite>, g: GateStep)
    requires AllNamed(battery)
  {
    && ValidTree(g.head) && Flat(g.lanes, SuitesOf) == Selected(DeltaAt(w, g), battery)
    && LanesPass(w.(tree := g.head), fileOf, g.memo, g.lanes)
  }

  /** The world after a passing gate run. */
  ghost function Gated(w: World, fileOf: string -> string, battery: seq<Suite>, g: GateStep): World
    requires AllNamed(battery) && Passing(w, fileOf, battery, g)
  {
    AfterLanes(w.(tree := g.head), fileOf, g.memo, g.lanes)
  }

  ghost predicate LeavesOut(w: World, g: GateStep, suite: Suite)
    requires NamesPackage(suite.args)
  {
    !Escalates(DeltaAt(w, g)) && !Affected(DeltaAt(w, g), SuitePackage(suite.args))
  }

  ghost predicate AllGreened(w: World, battery: seq<Suite>)
    requires AllNamed(battery)
  {
    forall i :: 0 <= i < |battery| ==> Greened(w.runs, w.tree, battery[i])
  }

  /** The suites left out are on record at the base. */
  ghost predicate RestGreened(w: World, battery: seq<Suite>, g: GateStep)
    requires AllNamed(battery)
  {
    forall i :: 0 <= i < |battery| && LeavesOut(w, g, battery[i]) ==> Greened(w.runs, w.tree, battery[i])
  }

  /** ... and are rightly left out. */
  ghost predicate RestAccountable(w: World, battery: seq<Suite>, g: GateStep)
    requires AllNamed(battery)
  {
    forall i :: 0 <= i < |battery| && LeavesOut(w, g, battery[i]) ==>
      Accountable(w.tree, g.head, g.members, g.changed, SuitePackage(battery[i].args))
  }

  lemma MovedIsOk(w: World, head: Tree)
    requires WorldOk(w) && ValidTree(head)
    ensures WorldOk(w.(tree := head))
  {
    var w' := w.(tree := head);
    assert w'.files == w.files && w'.runs == w.runs && w'.skips == w.skips;
  }

  lemma PassingGateGreens(w: World, fileOf: string -> string, battery: seq<Suite>, g: GateStep, i: nat)
    requires AllNamed(battery) && WorldOk(w) && Passing(w, fileOf, battery, g) && i < |battery|
    requires RestGreened(w, battery, g) && RestAccountable(w, battery, g)
    ensures Greened(Gated(w, fileOf, battery, g).runs, g.head, battery[i])
  {
    var moved, suite := w.(tree := g.head), battery[i];
    MovedIsOk(w, g.head);
    SelectedIs(DeltaAt(w, g), battery, i);
    if LeavesOut(w, g, suite) {
      GreenCarries(w.tree, g.head, g.members, g.changed, w.runs, suite);
      LanesKeep(moved, fileOf, g.memo, g.lanes);
      GreenedStays(w.runs, Gated(w, fileOf, battery, g).runs, g.head, suite);
    } else {
      PassingLanesGreen(moved, fileOf, g.memo, g.lanes, suite);
    }
  }

  /** If the suites it left out were on record at the base and rightly left out, a passing gate run leaves
      the whole battery on record at the head, whether a suite ran, was skipped or was not selected. */
  lemma PassingGateGreensBattery(w: World, fileOf: string -> string, battery: seq<Suite>, g: GateStep)
    requires AllNamed(battery) && WorldOk(w) && Passing(w, fileOf, battery, g)
    requires RestGreened(w, battery, g) && RestAccountable(w, battery, g)
    ensures WorldOk(Gated(w, fileOf, battery, g)) && AllGreened(Gated(w, fileOf, battery, g), battery)
  {
    var w' := Gated(w, fileOf, battery, g);
    MovedIsOk(w, g.head);
    LanesKeep(w.(tree := g.head), fileOf, g.memo, g.lanes);
    forall i | 0 <= i < |battery| ensures Greened(w'.runs, w'.tree, battery[i]) {
      PassingGateGreens(w, fileOf, battery, g, i);
    }
  }

  /** The record begins with any passing run of the full battery, whatever was on record before. */
  lemma FullRunGreensBattery(w: World, fileOf: string -> string, battery: seq<Suite>, g: GateStep)
    requires AllNamed(battery) && WorldOk(w) && Passing(w, fileOf, battery, g) && Escalates(DeltaAt(w, g))
    ensures WorldOk(Gated(w, fileOf, battery, g)) && AllGreened(Gated(w, fileOf, battery, g), battery)
  {
    PassingGateGreensBattery(w, fileOf, battery, g);
  }

  /** A sequence of passing gate runs, each against the tree the one before it moved to. */
  ghost predicate Chain(w: World, fileOf: string -> string, battery: seq<Suite>, gates: seq<GateStep>)
    requires AllNamed(battery)
    decreases gates
  {
    gates == [] ||
      (Passing(w, fileOf, battery, gates[0]) && RestAccountable(w, battery, gates[0])
       && Chain(Gated(w, fileOf, battery, gates[0]), fileOf, battery, gates[1..]))
  }

  ghost function AfterChain(w: World, fileOf: string -> string, battery: seq<Suite>, gates: seq<GateStep>): World
    requires AllNamed(battery) && Chain(w, fileOf, battery, gates)
    decreases gates
  {
    if gates == [] then w else AfterChain(Gated(w, fileOf, battery, gates[0]), fileOf, battery, gates[1..])
  }

  /** However many gate runs pass one after the other, the battery stays on record. */
  lemma {:induction false} BatteryStaysGreen(w: World, fileOf: string -> string, battery: seq<Suite>,
      gates: seq<GateStep>)
    requires AllNamed(battery) && WorldOk(w) && AllGreened(w, battery) && Chain(w, fileOf, battery, gates)
    ensures AllGreened(AfterChain(w, fileOf, battery, gates), battery)
    decreases gates
  {
    if gates != [] {
      PassingGateGreensBattery(w, fileOf, battery, gates[0]);
      BatteryStaysGreen(Gated(w, fileOf, battery, gates[0]), fileOf, battery, gates[1..]);
    }
  }

  /** From the first passing full run on, over any world, the battery is on record after every gate run. */
  lemma GreenFromFullRunOn(w: World, fileOf: string -> string, battery: seq<Suite>, gates: seq<GateStep>)
    requires AllNamed(battery) && WorldOk(w) && Chain(w, fileOf, battery, gates)
    requires gates != [] && Escalates(DeltaAt(w, gates[0]))
    ensures AllGreened(AfterChain(w, fileOf, battery, gates), battery)
  {
    FullRunGreensBattery(w, fileOf, battery, gates[0]);
    BatteryStaysGreen(Gated(w, fileOf, battery, gates[0]), fileOf, battery, gates[1..]);
  }
}
