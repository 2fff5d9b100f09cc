/** The persistent green ledger over whole histories: edits, lanes run to any point of any
    interleaving, ledger writes that get lost or cut short, ledger files that disappear. */
module Ledger {
  import opened Text
  import opened Flatten
  import opened KeyFormat
  import opened LockGraph
  import opened Gate
  import opened SuiteMemo
  import opened Lane
  import opened Scheduler

  /** The first line of a suite's ledger file: a key, or something that is no key. */
  datatype Line = Recorded(key: Fragment) | Unreadable

  type Files = map<string, Line>

  /** A real `cargo test` run of a suite. */
  datatype TestRun = TestRun(tree: Tree, suite: Suite, outcome: Outcome)

  /** A suite reported green without running, and how many real runs there had been before. */
  datatype Skip = Skip(tree: Tree, suite: Suite, after: nat)

  datatype World = World(tree: Tree, files: Files, runs: seq<TestRun>, skips: seq<Skip>)

  datatype Action =
    | Edit(tree: Tree)
    | Forget(file: string)
    | RunLane(suites: seq<Suite>, memo: bool, events: seq<Event>)

  ghost function KeyAt(tree: Tree, suite: Suite): Option<Fragment>
    requires NamesPackage(suite.args)
  {
    match Compute(tree)
    case None => None
    case Some(m) => KeyOf(m, {SuitePackage(suite.args)}, suite)
  }

  /** Does the file record a green run for exactly this key? */
  predicate MemoGreen(files: Files, file: string, key: Option<Fragment>) {
    key.Some? && file in files && files[file] == Recorded(key.value)
  }

  function RecordGreen(files: Files, file: string, key: Option<Fragment>, write: Write): Files {
    if key.None? then files
    else
      match write
      case Stored => files[file := Recorded(key.value)]
      case Lost => files
      case Torn => files[file := Unreadable]
  }

  /** One lane run: the tree it runs on, whether it memoizes, and where ledger files live by title.
      Nothing is assumed about the file names; different titles may even share one. */
  datatype Setting = Setting(tree: Tree, memo: bool, fileOf: string -> string)

  ghost function LaneKey(t: Setting, suite: Suite): Option<Fragment>
    requires NamesPackage(suite.args)
  {
    if t.memo then KeyAt(t.tree, suite) else None
  }

  ghost predicate IsMemoized(t: Setting, files: Files, suite: Suite)
    requires NamesPackage(suite.args)
  {
    MemoGreen(files, t.fileOf(suite.title), LaneKey(t, suite))
  }

  ghost predicate AllNamed(suites: seq<Suite>) {
    forall i :: 0 <= i < |suites| ==> NamesPackage(suites[i].args)
  }

  /** The suites the lane runs, and those it skips. */
  ghost function ToRun(t: Setting, files: Files, suites: seq<Suite>): (r: seq<Suite>)
    requires AllNamed(suites)
    ensures AllNamed(r)
  {
    if suites == [] then []
    else (if IsMemoized(t, files, suites[0]) then [] else [suites[0]]) + ToRun(t, files, suites[1..])
  }

  ghost function Skipped(t: Setting, files: Files, suites: seq<Suite>, after: nat): (r: seq<Skip>)
    requires AllNamed(suites)
    ensures forall i :: 0 <= i < |r| ==>
      r[i].tree == t.tree && r[i].after == after && NamesPackage(r[i].suite.args) && IsMemoized(t, files, r[i].suite)
  {
    if suites == [] then []
    else (if IsMemoized(t, files, suites[0]) then [Skip(t.tree, suites[0], after)]
      else []) + Skipped(t, files, suites[1..], after)
  }

  ghost predicate Runs(t: Setting, files: Files, suite: Suite) {
    NamesPackage(suite.args) && !IsMemoized(t, files, suite)
  }

  ghost predicate Skips(t: Setting, files: Files, suite: Suite) {
    NamesPackage(suite.args) && IsMemoized(t, files, suite)
  }

  lemma {:induction false} ToRunIsFilter(t: Setting, files: Files, suites: seq<Suite>)
    requires AllNamed(suites)
    ensures ToRun(t, files, suites) == Filter(suites, s => Runs(t, files, s))
  {
    if suites != [] { ToRunIsFilter(t, files, suites[1..]); }
  }

  function SuitesSkipped(skips: seq<Skip>): seq<Suite> {
    seq(|skips|, i requires 0 <= i < |skips| => skips[i].suite)
  }

  lemma SkippedCons(first: Skip, rest: seq<Skip>)
    ensures SuitesSkipped([first] + rest) == [first.suite] + SuitesSkipped(rest)
  {}

  lemma {:induction false} SkippedIsFilter(t: Setting, files: Files, suites: seq<Suite>, after: nat)
    requires AllNamed(suites)
    ensures SuitesSkipped(Skipped(t, files, suites, after)) == Filter(suites, s => Skips(t, files, s))
  {
    if suites != [] {
      SkippedIsFilter(t, files, suites[1..], after);
      var first, rest := Skip(t.tree, suites[0], after), Skipped(t, files, suites[1..], after);
      SkippedCons(first, rest);
      assert [] + rest == rest;
      assert Skipped(t, files, suites, after) == if IsMemoized(t, files, suites[0]) then [first] + rest else rest;
    }
  }

  /** A lane runs exactly those of its suites that are not memoized, in list order. */
  lemma ToRunExactly(t: Setting, files: Files, suites: seq<Suite>)
    requires AllNamed(suites)
    ensures Sifted(suites, s => Runs(t, files, s), ToRun(t, files, suites))
    ensures forall s :: s in ToRun(t, files, suites) <==> s in suites && Runs(t, files, s)
    ensures !t.memo ==> ToRun(t, files, suites) == suites
  {
    ToRunIsFilter(t, files, suites);
    if !t.memo { FilterTake(suites, s => Runs(t, files, s), |suites|); }
    FilterIsSifted(suites, s => Runs(t, files, s));
  }

  /** ... and reports exactly the others as skipped, in list order, on the tree it runs on. */
  lemma SkippedExactly(t: Setting, files: Files, suites: seq<Suite>, after: nat)
    requires AllNamed(suites)
    ensures var skips := Skipped(t, files, suites, after);
      && Sifted(suites, s => Skips(t, files, s), SuitesSkipped(skips))
      && (forall i :: 0 <= i < |skips| ==> skips[i].tree == t.tree && skips[i].after == after)
      && (forall s :: s in SuitesSkipped(skips) <==> s in suites && s !in ToRun(t, files, suites))
  {
    SkippedIsFilter(t, files, suites, after);
    FilterIsSifted(suites, s => Skips(t, files, s));
    ToRunIsFilter(t, files, suites);
  }

  lemma RunsOrSkips(t: Setting, files: Files, suites: seq<Suite>, suite: Suite, after: nat)
    requires AllNamed(suites) && suite in suites
    ensures NamesPackage(suite.args) && (suite in ToRun(t, files, suites) <==> !IsMemoized(t, files, suite))
    ensures suite in SuitesSkipped(Skipped(t, files, suites, after)) <==> IsMemoized(t, files, suite)
  {
    ToRunExactly(t, files, suites);
    SkippedExactly(t, files, suites, after);
  }

  // ---- What a lane may do ----

  function Packages(suites: seq<Suite>): seq<string>
    requires forall i :: 0 <= i < |suites| ==> NamesPackage(suites[i].args)
  {
    seq(|suites|, i requires 0 <= i < |suites| => SuitePackage(suites[i].args))
  }

  function Positions(n: nat): seq<nat> {
    seq(n, i => i)
  }

  ghost predicate Overlapped(pkgs: seq<string>, events: seq<Event>) {
    exists plan: Plan<string>, workers: nat, moves ::
      plan.pkgs == pkgs && PlanOk(plan) && Run(plan, workers, moves).Some?
        && Run(plan, workers, moves).value.events == events
  }

  /** The events of a lane: those of some interleaving of workers, or of the serial loop, up to any point. */
  ghost predicate LaneEvents(suites: seq<Suite>, events: seq<Event>)
    requires AllNamed(suites)
  {
    Overlapped(Packages(suites), events) || Serial(events, Positions(|suites|))
  }

  /** What the serial loop does from suite `i` on: run it, record it when green and go on, or stop. */
  function SerialFrom(n: nat, i: nat, outcome: nat -> Outcome, write: nat -> Write): (bool, seq<Event>)
    requires i <= n
    decreases n - i
  {
    if i == n then (true, [])
    else if outcome(i) != Green then (false, [Started(i), Finished(i, outcome(i))])
    else
      var (ok, rest) := SerialFrom(n, i + 1, outcome, write);
      (ok, [Started(i), Finished(i, Green), Banked(i, write(i))] + rest)
  }

  /** One suite of the serial loop, green and recorded. */
  lemma GreenSuite(events: seq<Event>, n: nat, i: nat, write: Write)
    requires Stands(events, Positions(n), i, Check) && i < n
    ensures Stands(events + [Started(i), Finished(i, Green), Banked(i, write)], Positions(n), i + 1, Check)
  {}

  lemma {:induction false} SerialPassIsGreen(n: nat, i: nat, outcome: nat -> Outcome, write: nat -> Write,
      events: seq<Event>)
    requires i <= n && Stands(events, Positions(n), i, Check) && SerialFrom(n, i, outcome, write).0
    ensures AllGreen(events + SerialFrom(n, i, outcome, write).1, Positions(n))
    decreases n - i
  {
    if i == n {
      assert events + [] == events;
    } else {
      var suite := [Started(i), Finished(i, Green), Banked(i, write(i))];
      GreenSuite(events, n, i, write(i));
      SerialPassIsGreen(n, i + 1, outcome, write, events + suite);
      var rest := SerialFrom(n, i + 1, outcome, write).1;
      assert events + suite + rest == events + (suite + rest);
    }
  }

  /** The serial schedule: one suite after the other, stopping at the first that is not green. */
  method RunSerially(n: nat, outcome: nat -> Outcome, write: nat -> Write) returns (ok: bool, events: seq<Event>)
    ensures (ok, events) == SerialFrom(n, 0, outcome, write) && Serial(events, Positions(n))
    ensures ok <==> forall i :: 0 <= i < n ==> outcome(i) == Green
    ensures ok ==> AllGreen(events, Positions(n))
  {
    events := [];
    ghost var all := SerialFrom(n, 0, outcome, write);
    ghost var rest := all;
    assert [] + all.1 == all.1;
    for i := 0 to n
      invariant Stands(events, Positions(n), i, Check)
      invariant forall k :: 0 <= k < i ==> outcome(k) == Green
      invariant rest == SerialFrom(n, i, outcome, write) && all == (rest.0, events + rest.1)
    {
      if outcome(i) != Green {
        RedSuite(events, n, i, outcome(i));
        return false, events + [Started(i), Finished(i, outcome(i))];
      }
      GreenSuite(events, n, i, write(i));
      rest := SerialFrom(n, i + 1, outcome, write);
      Regrouped(events, [Started(i), Finished(i, Green), Banked(i, write(i))], rest.1);
      events := events + [Started(i), Finished(i, Green), Banked(i, write(i))];
    }
    assert Stands(events, Positions(n), n, Check) && events + [] == events;
    ok := true;
  }

  lemma Regrouped<T>(a: seq<T>, b: seq<T>, c: seq<T>)
    ensures a + (b + c) == a + b + c
  {}

  lemma RedSuite(events: seq<Event>, n: nat, i: nat, outcome: Outcome)
    requires Stands(events, Positions(n), i, Check) && i < n
    ensures Serial(events + [Started(i), Finished(i, outcome)], Positions(n))
  {
    assert Stands(events + [Started(i), Finished(i, outcome)], Positions(n), i, Ended(outcome));
  }

  /** A green is recorded only after the suite finished green. */
  ghost predicate Honest(n: nat, events: seq<Event>) {
    && (forall b :: 0 <= b < |events| ==> events[b].suite < n)
    && (forall b :: 0 <= b < |events| && events[b].Banked? ==>
      exists c :: 0 <= c < b && events[c] == Finished(events[b].suite, Green))
  }

  lemma BankedIndex(v: seq<Event>, entries: seq<nat>, i: nat, phase: Phase, b: nat)
    requires Stands(v, entries, i, phase) && b < |v| && v[b].Banked?
    ensures b >= 1 && v[b - 1] == Finished(v[b].suite, Green)
  {
    var k := b / 3;
    if k < i {
      assert v[3 * k] == Started(entries[k]) && v[3 * k + 1] == Finished(entries[k], Green)
        && v[3 * k + 2].suite == entries[k];
    }
  }

  lemma SuiteIndex(v: seq<Event>, entries: seq<nat>, i: nat, phase: Phase, b: nat)
    requires Stands(v, entries, i, phase) && b < |v|
    ensures v[b].suite in entries
  {
    var k := b / 3;
    if k < i {
      assert v[3 * k] == Started(entries[k]) && v[3 * k + 1] == Finished(entries[k], Green)
        && v[3 * k + 2].suite == entries[k];
    }
  }

  lemma SerialIsHonest(n: nat, events: seq<Event>)
    requires Serial(events, Positions(n))
    ensures Honest(n, events)
  {
    var i, phase :| Stands(events, Positions(n), i, phase);
    forall b | 0 <= b < |events|
      ensures events[b].suite < n
      ensures events[b].Banked? ==> exists c :: 0 <= c < b && events[c] == Finished(events[b].suite, Green)
    {
      SuiteIndex(events, Positions(n), i, phase, b);
      if events[b].Banked? { BankedIndex(events, Positions(n), i, phase, b); }
    }
  }

  lemma OverlappedIsHonest(pkgs: seq<string>, events: seq<Event>)
    requires Overlapped(pkgs, events)
    ensures Honest(|pkgs|, events)
  {
    var plan: Plan<string>, workers: nat, moves :|
      plan.pkgs == pkgs && PlanOk(plan) && Run(plan, workers, moves).Some?
        && Run(plan, workers, moves).value.events == events;
    EventsInPlan(plan, workers, moves);
    forall b | 0 <= b < |events| && events[b].Banked?
      ensures exists c :: 0 <= c < b && events[c] == Finished(events[b].suite, Green)
    {
      BankedAfterGreen(plan, workers, moves, b);
    }
  }

  lemma {:induction false} EventsInPlan<P>(plan: Plan<P>, workers: nat, moves: seq<Move>)
    requires PlanOk(plan) && Run(plan, workers, moves).Some?
    ensures forall b :: 0 <= b < |Run(plan, workers, moves).value.events| ==>
      Run(plan, workers, moves).value.events[b].suite < |plan.pkgs|
  {
    if moves != [] {
      var m, front := moves[|moves| - 1], moves[..|moves| - 1];
      EventsInPlan(plan, workers, front);
      var w := Run(plan, workers, front).value.workers[m.k];
      if w.At? {
        assert GroupOf(plan.pkgs, plan.groups[w.g], |plan.pkgs|);
      }
    }
  }

  lemma BankedAfterGreen<P>(plan: Plan<P>, workers: nat, moves: seq<Move>, b: nat)
    requires PlanOk(plan) && Run(plan, workers, moves).Some?
    requires b < |Run(plan, workers, moves).value.events| && Run(plan, workers, moves).value.events[b].Banked?
    ensures var events := Run(plan, workers, moves).value.events; exists c ::
      0 <= c < b && events[c] == Finished(events[b].suite, Green)
  {
    var events := Run(plan, workers, moves).value.events;
    EventsInPlan(plan, workers, moves);
    var g := GroupOfSuite(plan, events[b].suite);
    var p := plan.groups[g].pkg;
    PackageIsSerial(plan, workers, moves, g);
    var v, entries := View(plan.pkgs, p, events), plan.groups[g].entries;
    var i, phase :| Stands(v, entries, i, phase);
    ViewAt(plan.pkgs, p, events, b);
    var y := Place(plan.pkgs, p, events, b);
    BankedIndex(v, entries, i, phase, y);
    var c := ViewSource(plan.pkgs, p, events, y - 1);
    if b <= c { PlaceGrows(plan.pkgs, p, events, b, c); }
  }

  lemma LaneIsHonest(suites: seq<Suite>, events: seq<Event>)
    requires AllNamed(suites) && LaneEvents(suites, events)
    ensures Honest(|suites|, events)
  {
    if Overlapped(Packages(suites), events) {
      OverlappedIsHonest(Packages(suites), events);
    } else {
      SerialIsHonest(|suites|, events);
    }
  }

  // ---- Histories ----

  /** The effect of a lane's events on the ledger files and on the record of real runs. */
  ghost function Files'(t: Setting, suites: seq<Suite>, files: Files, events: seq<Event>): Files
    requires AllNamed(suites) && Honest(|suites|, events)
  {
    if events == [] then files
    else
      var front, e := events[..|events| - 1], events[|events| - 1];
      var before := Files'(t, suites, files, front);
      if e.Banked? then RecordGreen(before, t.fileOf(suites[e.suite].title), LaneKey(t, suites[e.suite]), e.write)
        else before
  }

  ghost function Runs'(t: Setting, suites: seq<Suite>, events: seq<Event>): seq<TestRun>
    requires Honest(|suites|, events)
  {
    if events == [] then []
    else
      var front, e := events[..|events| - 1], events[|events| - 1];
      Runs'(t, suites, front) + if e.Finished? then [TestRun(t.tree, suites[e.suite], e.outcome)] else []
  }

  ghost predicate Possible(w: World, fileOf: string -> string, a: Action) {
    match a
    case Edit(tree) => ValidTree(tree)
    case Forget(_) => true
    case RunLane(suites, memo, events) =>
      AllNamed(suites) && LaneEvents(ToRun(Setting(w.tree, memo, fileOf), w.files, suites), events)
  }

  ghost function Next(w: World, fileOf: string -> string, a: Action): World
    requires Possible(w, fileOf, a)
  {
    match a
    case Edit(tree) => w.(tree := tree)
    case Forget(file) => w.(files := w.files - {file})
    case RunLane(suites, memo, events) =>
      var t := Setting(w.tree, memo, fileOf);
      var run := ToRun(t, w.files, suites);
      LaneIsHonest(run, events);
      World(w.tree, Files'(t, run, w.files, events), w.runs + Runs'(t, run, events),
        w.skips + Skipped(t, w.files, suites, |w.runs|))
  }

  /** The world after a history that starts with an empty ledger. */
  ghost function After(tree: Tree, fileOf: string -> string, history: seq<Action>): Option<World> {
    if history == [] then Some(World(tree, map[], [], []))
    else
      match After(tree, fileOf, history[..|history| - 1])
      case None => None
      case Some(w) =>
        var a := history[|history| - 1];
        if Possible(w, fileOf, a) then Some(Next(w, fileOf, a)) else None
  }

  /** A real green run under this key is among the first `upTo` runs. */
  ghost predicate Earned(runs: seq<TestRun>, upTo: nat, key: Fragment) {
    SomeBefore(runs, upTo, run => EarnedBy(run, key))
  }

  ghost predicate EarnedBy(run: TestRun, key: Fragment) {
    run.outcome == Green && ValidTree(run.tree) && NamesPackage(run.suite.args)
      && KeyAt(run.tree, run.suite) == Some(key)
  }

  ghost predicate FilesEarned(files: Files, runs: seq<TestRun>) {
    forall f :: f in files && files[f].Recorded? ==> Earned(runs, |runs|, files[f].key)
  }

  ghost predicate SkipEarned(s: Skip, runs: seq<TestRun>) {
    ValidTree(s.tree) && NamesPackage(s.suite.args) && KeyAt(s.tree, s.suite).Some?
      && Earned(runs, s.after, KeyAt(s.tree, s.suite).value)
  }

  ghost predicate WorldOk(w: World) {
    ValidTree(w.tree) && FilesEarned(w.files, w.runs) && forall i :: 0 <= i < |w.skips| ==>
      SkipEarned(w.skips[i], w.runs)
  }

  ghost predicate SomeBefore<T(!new)>(s: seq<T>, upTo: nat, p: T -> bool) {
    exists r :: 0 <= r < upTo && r < |s| && p(s[r])
  }

  lemma SomeBeforeStays<T(!new)>(s: seq<T>, more: seq<T>, upTo: nat, upTo': nat, p: T -> bool)
    requires SomeBefore(s, upTo, p) && upTo <= upTo'
    ensures SomeBefore(s + more, upTo', p)
  {
    var r :| 0 <= r < upTo && r < |s| && p(s[r]);
    assert (s + more)[r] == s[r];
  }

  lemma EarnedStays(runs: seq<TestRun>, more: seq<TestRun>, upTo: nat, upTo': nat, key: Fragment)
    requires Earned(runs, upTo, key) && upTo <= upTo'
    ensures Earned(runs + more, upTo', key)
  {
    SomeBeforeStays(runs, more, upTo, upTo', run => EarnedBy(run, key));
  }

  /** Every finished suite of the lane is among its runs. */
  lemma {:induction false} FinishedIsRun(t: Setting, suites: seq<Suite>, events: seq<Event>, c: nat)
    requires Honest(|suites|, events) && c < |events| && events[c].Finished?
    ensures TestRun(t.tree, suites[events[c].suite], events[c].outcome) in Runs'(t, suites, events)
  {
    var front := events[..|events| - 1];
    if c < |front| {
      assert front[c] == events[c];
      FinishedIsRun(t, suites, front, c);
    }
  }

  lemma GreenEarns(t: Setting, suites: seq<Suite>, events: seq<Event>, runs: seq<TestRun>, c: nat)
    requires AllNamed(suites) && ValidTree(t.tree) && Honest(|suites|, events)
    requires c < |events| && events[c].Finished? && events[c].outcome == Green
      && LaneKey(t, suites[events[c].suite]).Some?
    ensures var all := runs + Runs'(t, suites, events); Earned(all, |all|, LaneKey(t, suites[events[c].suite]).value)
  {
    var all := runs + Runs'(t, suites, events);
    FinishedIsRun(t, suites, events, c);
    var j :| 0 <= j < |Runs'(t, suites, events)|
      && Runs'(t, suites, events)[j] == TestRun(t.tree, suites[events[c].suite], Green);
    assert all[|runs| + j] == Runs'(t, suites, events)[j];
  }

  lemma FilesStayEarned(files: Files, runs: seq<TestRun>, more: seq<TestRun>)
    requires FilesEarned(files, runs)
    ensures FilesEarned(files, runs + more)
  {
    forall f | f in files && files[f].Recorded? ensures Earned(runs + more, |runs + more|, files[f].key) {
      EarnedStays(runs, more, |runs|, |runs + more|, files[f].key);
    }
  }

  lemma RecordStaysEarned(files: Files, runs: seq<TestRun>, file: string, key: Option<Fragment>, write: Write)
    requires FilesEarned(files, runs) && (key.Some? ==> Earned(runs, |runs|, key.value))
    ensures FilesEarned(RecordGreen(files, file, key, write), runs)
  {
    var now := RecordGreen(files, file, key, write);
    forall f | f in now && now[f].Recorded? ensures Earned(runs, |runs|, now[f].key) {
      if f == file && now != files { } else { assert f in files && files[f] == now[f]; }
    }
  }

  lemma RunsSnoc(t: Setting, suites: seq<Suite>, front: seq<Event>, e: Event, runs: seq<TestRun>)
    requires Honest(|suites|, front) && Honest(|suites|, front + [e]) && e.suite < |suites|
    ensures runs + Runs'(t, suites, front + [e])
         == runs + Runs'(t, suites, front) + if e.Finished? then [TestRun(t.tree, suites[e.suite], e.outcome)] else []
  {
    assert (front + [e])[..|front|] == front;
  }

  lemma FilesSnoc(t: Setting, suites: seq<Suite>, files: Files, front: seq<Event>, e: Event)
    requires AllNamed(suites) && Honest(|suites|, front) && Honest(|suites|, front + [e]) && e.suite < |suites|
    ensures Files'(t, suites, files, front + [e])
         == var before := Files'(t, suites, files, front);
            if e.Banked? then RecordGreen(before, t.fileOf(suites[e.suite].title), LaneKey(t, suites[e.suite]),
              e.write) else before
  {
    assert (front + [e])[..|front|] == front;
  }

  /** A lane that does not memoize leaves the ledger alone. */
  lemma {:induction false} UnmemoizedWritesNothing(t: Setting, suites: seq<Suite>, files: Files, events: seq<Event>)
    requires !t.memo && AllNamed(suites) && Honest(|suites|, events)
    ensures Files'(t, suites, files, events) == files
  {
    if events != [] { UnmemoizedWritesNothing(t, suites, files, events[..|events| - 1]); }
  }

  lemma {:induction false} LaneKeepsFiles(t: Setting, suites: seq<Suite>, files: Files, events: seq<Event>,
      runs: seq<TestRun>)
    requires AllNamed(suites) && ValidTree(t.tree) && Honest(|suites|, events) && FilesEarned(files, runs)
    ensures FilesEarned(Files'(t, suites, files, events), runs + Runs'(t, suites, events))
  {
    if events == [] {
      assert runs + [] == runs;
    } else {
      var front, e := events[..|events| - 1], events[|events| - 1];
      assert events == front + [e];
      LaneKeepsFiles(t, suites, files, front, runs);
      var more := if e.Finished? then [TestRun(t.tree, suites[e.suite], e.outcome)] else [];
      FilesStayEarned(Files'(t, suites, files, front), runs + Runs'(t, suites, front), more);
      RunsSnoc(t, suites, front, e, runs);
      FilesSnoc(t, suites, files, front, e);
      if e.Banked? {
        var key := LaneKey(t, suites[e.suite]);
        if key.Some? {
          var c :| 0 <= c < |events| - 1 && events[c] == Finished(e.suite, Green);
          GreenEarns(t, suites, events, runs, c);
        }
        RecordStaysEarned(Files'(t, suites, files, front), runs + Runs'(t, suites, events),
          t.fileOf(suites[e.suite].title), key, e.write);
      }
    }
  }

  lemma StepKeepsWorld(w: World, fileOf: string -> string, a: Action)
    requires WorldOk(w) && Possible(w, fileOf, a)
    ensures WorldOk(Next(w, fileOf, a))
  {
    match a
    case Edit(_) =>
    case Forget(_) =>
    case RunLane(suites, memo, events) =>
      var t := Setting(w.tree, memo, fileOf);
      var run := ToRun(t, w.files, suites);
      LaneIsHonest(run, events);
      LaneKeepsFiles(t, run, w.files, events, w.runs);
      var more := Runs'(t, run, events);
      var skipped := Skipped(t, w.files, suites, |w.runs|);
      forall i | 0 <= i < |w.skips| + |skipped| ensures SkipEarned((w.skips + skipped)[i], w.runs + more) {
        var s := (w.skips + skipped)[i];
        if i < |w.skips| {
          EarnedStays(w.runs, more, s.after, s.after, KeyAt(s.tree, s.suite).value);
        } else {
          assert s == skipped[i - |w.skips|];
          EarnedStays(w.runs, more, |w.runs|, s.after, KeyAt(s.tree, s.suite).value);
        }
      }
  }

  lemma {:induction false} HistoryKeepsWorld(tree: Tree, fileOf: string -> string, history: seq<Action>)
    requires ValidTree(tree) && After(tree, fileOf, history).Some?
    ensures WorldOk(After(tree, fileOf, history).value)
  {
    if history != [] {
      var front, a := history[..|history| - 1], history[|history| - 1];
      HistoryKeepsWorld(tree, fileOf, front);
      StepKeepsWorld(After(tree, fileOf, front).value, fileOf, a);
    }
  }

  /** The real run `r` was of the same suite on the same inputs as the skipped one: title, arguments
      joined by spaces, closure, crate entries, external identities, toolchain, environment, root manifest,
      runner, guests. */
  ghost predicate Justifies(r: TestRun, s: Skip) {
    && r.outcome == Green && NamesPackage(r.suite.args) && NamesPackage(s.suite.args)
    && r.suite.title == s.suite.title && Join(r.suite.args, " ") == Join(s.suite.args, " ")
    && Compute(r.tree).Some? && Compute(s.tree).Some?
    && var a, b, p, q := Compute(r.tree).value, Compute(s.tree).value, {SuitePackage(r.suite.args)},
      {SuitePackage(s.suite.args)};
      && ClosureOf(a.lock, p) == ClosureOf(b.lock, q)
      && (forall n <- ClosureOf(b.lock, q) :: SameName(a, b, n))
      && SameGlobals(r.tree, s.tree)
      && (GuestLinked(q) ==> SamePrefix(r.tree, s.tree, GUESTS_DIR))
  }

  lemma EqualKeysJustify(r: TestRun, s: Skip)
    requires r.outcome == Green && ValidTree(r.tree) && ValidTree(s.tree) && NamesPackage(r.suite.args)
      && NamesPackage(s.suite.args)
    requires KeyAt(r.tree, r.suite).Some? && KeyAt(r.tree, r.suite) == KeyAt(s.tree, s.suite)
    ensures Justifies(r, s)
  {
    KeyIsExact(Compute(r.tree).value, {SuitePackage(r.suite.args)}, r.suite, Compute(s.tree).value,
      {SuitePackage(s.suite.args)}, s.suite);
    GlobalsAreExact(r.tree, s.tree);
    PrefixDigestIsExact(r.tree, s.tree, GUESTS_DIR);
  }

  /** Over every history, a suite skipped as memoized was run for real before, green, on the same inputs. */
  lemma SkipsAreJustified(tree: Tree, fileOf: string -> string, history: seq<Action>, i: nat)
    requires ValidTree(tree) && After(tree, fileOf, history).Some? && i < |After(tree, fileOf, history).value.skips|
    ensures var w := After(tree, fileOf, history).value;
      exists r :: 0 <= r < w.skips[i].after && r < |w.runs| && Justifies(w.runs[r], w.skips[i])
  {
    HistoryKeepsWorld(tree, fileOf, history);
    var w := After(tree, fileOf, history).value;
    var s := w.skips[i];
    var key := KeyAt(s.tree, s.suite).value;
    assert Earned(w.runs, s.after, key);
    var r :| 0 <= r < s.after && r < |w.runs| && EarnedBy(w.runs[r], key);
    EqualKeysJustify(w.runs[r], s);
  }
}
