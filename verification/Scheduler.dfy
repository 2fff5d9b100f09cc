/** The worker threads of an overlapped lane, as atomic steps on the shared counter, stop flag,
    failure list and print lock, and what every interleaving of them keeps. */
module Scheduler {
  import opened Text
  import opened Lane

  /** Where a worker is within one suite: about to look at the stop flag, past it, waiting for cargo,
      waiting for the print lock, holding it, or about to raise the stop flag. */
  datatype Phase =
    | Check | Spawn | Running
    | Ended(outcome: Outcome) | Holding(outcome: Outcome) | Failing(outcome: Outcome)

  datatype Worker = Claim | At(g: nat, i: nat, phase: Phase) | Exited

  datatype State = State(next: nat, stop: bool, failures: seq<nat>, holder: Option<nat>, workers: seq<Worker>,
      events: seq<Event>)

  /** What the environment decides in a step: how cargo ends, and what becomes of a ledger write. */
  datatype Choice = Choice(outcome: Outcome, write: Write)

  function Init(workers: nat): State {
    State(0, false, [], None, seq(workers, _ => Claim), [])
  }

  predicate InPlan<P>(plan: Plan<P>, w: Worker) {
    w.At? ==>
      && w.g < |plan.groups| && w.i <= |plan.groups[w.g].entries|
      && (w.phase != Check ==> w.i < |plan.groups[w.g].entries|)
  }

  function SuiteAt<P>(plan: Plan<P>, w: Worker): nat
    requires w.At? && InPlan(plan, w) && w.phase != Check
  {
    plan.groups[w.g].entries[w.i]
  }

  /** One atomic step of worker `k`; `None` when it has exited or waits for the lock. */
  function Act<P>(plan: Plan<P>, s: State, k: nat, c: Choice): Option<State>
    requires k < |s.workers| && InPlan(plan, s.workers[k])
  {
    var w := s.workers[k];
    match w
    case Exited => None
    case Claim =>
      Some(s.(next := s.next + 1, workers := s.workers[k := if s.next < |plan.groups| then At(s.next, 0, Check)
        else Exited]))
    case At(g, i, phase) =>
      match phase
      case Check =>
        Some(s.(workers := s.workers[k := if i == |plan.groups[g].entries| then Claim else if s.stop then Exited
          else At(g, i, Spawn)]))
      case Spawn =>
        Some(s.(workers := s.workers[k := At(g, i, Running)], events := s.events + [Started(SuiteAt(plan, w))]))
      case Running =>
        Some(s.(workers := s.workers[k := At(g, i, Ended(c.outcome))],
          events := s.events + [Finished(SuiteAt(plan, w), c.outcome)]))
      case Ended(out) =>
        if s.holder.Some? then None
        else Some(s.(workers := s.workers[k := At(g, i, Holding(out))], holder := Some(k)))
      case Holding(out) =>
        if out == Green then
          Some(s.(workers := s.workers[k := At(g, i + 1, Check)], holder := None,
            events := s.events + [Banked(SuiteAt(plan, w), c.write)]))
        else
          Some(s.(workers := s.workers[k := At(g, i, Failing(out))], failures := s.failures + [SuiteAt(plan, w)]))
      case Failing(out) =>
        Some(s.(workers := s.workers[k := Exited], holder := None, stop := true))
  }

  // ---- The events of one package ----

  /** The events of the suites of package `p`, in order. */
  function View<P(==)>(pkgs: seq<P>, p: P, events: seq<Event>): seq<Event> {
    if events == [] then []
    else
      var front, last := events[..|events| - 1], events[|events| - 1];
      View(pkgs, p, front) + if last.suite < |pkgs| && pkgs[last.suite] == p then [last] else []
  }

  lemma ViewSnoc<P>(pkgs: seq<P>, p: P, events: seq<Event>, e: Event)
    ensures View(pkgs, p, events + [e])
         == View(pkgs, p, events) + if e.suite < |pkgs| && pkgs[e.suite] == p then [e] else []
  {
    assert (events + [e])[..|events|] == events;
  }

  /** The first `i` suites were started, were green and were recorded, one after the other. */
  ghost predicate GreenRun(v: seq<Event>, entries: seq<nat>, i: nat) {
    && i <= |entries| && 3 * i <= |v|
    && forall k :: 0 <= k < i ==>
      v[3 * k] == Started(entries[k]) && v[3 * k + 1] == Finished(entries[k], Green) && v[3 * k + 2].Banked?
        && v[3 * k + 2].suite == entries[k]
  }

  /** The package's events when its group stands at suite `i` in the given phase. */
  ghost predicate Stands(v: seq<Event>, entries: seq<nat>, i: nat, phase: Phase) {
    && GreenRun(v, entries, i)
    && (phase != Check ==> i < |entries|)
    && match phase
       case Check => |v| == 3 * i
       case Spawn => |v| == 3 * i
       case Running => |v| == 3 * i + 1 && v[3 * i] == Started(entries[i])
       case Ended(out) => |v| == 3 * i + 2 && v[3 * i] == Started(entries[i])
         && v[3 * i + 1] == Finished(entries[i], out)
       case Holding(out) => |v| == 3 * i + 2 && v[3 * i] == Started(entries[i])
         && v[3 * i + 1] == Finished(entries[i], out)
       case Failing(out) =>
         && out != Green && |v| == 3 * i + 2
         && v[3 * i] == Started(entries[i]) && v[3 * i + 1] == Finished(entries[i], out)
  }

  /** Restricted to one package, the lane looks like a run of its suites one at a time in pinned order,
      cut off somewhere, and at the latest after the first that was not green. */
  ghost predicate Serial(v: seq<Event>, entries: seq<nat>) {
    exists i, phase :: Stands(v, entries, i, phase)
  }

  /** Every suite of the package ran once, was green and was recorded. */
  ghost predicate AllGreen(v: seq<Event>, entries: seq<nat>) {
    GreenRun(v, entries, |entries|) && |v| == 3 * |entries|
  }

  // ---- The invariant ----

  ghost predicate Works(s: State, g: nat) {
    exists k :: 0 <= k < |s.workers| && s.workers[k].At? && s.workers[k].g == g
  }

  /** Workers stand on claimed groups, each on its own. */
  ghost predicate Placed<P>(plan: Plan<P>, s: State) {
    && (forall k :: 0 <= k < |s.workers| ==>
      InPlan(plan, s.workers[k]) && (s.workers[k].At? ==> s.workers[k].g < s.next))
    && (forall k, l :: 0 <= k < l < |s.workers| && s.workers[k].At? && s.workers[l].At? ==>
      s.workers[k].g != s.workers[l].g)
  }

  predicate Locks(w: Worker) {
    w.At? && (w.phase.Holding? || w.phase.Failing?)
  }

  /** The print lock is held by exactly the worker that is past acquiring it. */
  ghost predicate LockOk(s: State) {
    && (forall k :: 0 <= k < |s.workers| ==> (s.holder == Some(k) <==> Locks(s.workers[k])))
    && (s.holder.Some? ==> s.holder.value < |s.workers|)
  }

  ghost predicate WorkersOk<P>(plan: Plan<P>, s: State) {
    Placed(plan, s) && LockOk(s)
  }

  ghost function ViewOf<P>(plan: Plan<P>, s: State, g: nat): seq<Event>
    requires g < |plan.groups|
  {
    View(plan.pkgs, plan.groups[g].pkg, s.events)
  }

  ghost predicate GroupsOk<P>(plan: Plan<P>, s: State)
    requires WorkersOk(plan, s)
  {
    && (forall g :: 0 <= g < |plan.groups| && s.next <= g ==> ViewOf(plan, s, g) == [])
    && (forall k :: 0 <= k < |s.workers| && s.workers[k].At? ==>
         Stands(ViewOf(plan, s, s.workers[k].g), plan.groups[s.workers[k].g].entries, s.workers[k].i,
           s.workers[k].phase))
    && (forall g :: 0 <= g < |plan.groups| && g < s.next && !Works(s, g) ==>
         if s.stop then Serial(ViewOf(plan, s, g), plan.groups[g].entries)
           else AllGreen(ViewOf(plan, s, g), plan.groups[g].entries))
  }

  /** The failure list and the stop flag tell the truth about red suites. */
  ghost predicate FailuresOk<P>(plan: Plan<P>, s: State)
    requires WorkersOk(plan, s)
  {
    && (s.stop ==> s.failures != [])
    && (forall k :: 0 <= k < |s.workers| ==>
         && (s.workers[k].At? && s.workers[k].phase.Failing? ==> s.failures != [])
         && (s.workers[k] == Exited ==> s.stop || s.next >= |plan.groups|))
    && (forall t <- s.failures :: Finished(t, Red) in s.events || Finished(t, SpawnError) in s.events)
  }

  ghost predicate Inv<P>(plan: Plan<P>, s: State) {
    WorkersOk(plan, s) && GroupsOk(plan, s) && FailuresOk(plan, s)
  }

  ghost predicate PlanOk<P>(plan: Plan<P>) {
    Grouped(plan.pkgs, plan.groups, |plan.pkgs|)
  }

  lemma InitInv<P>(plan: Plan<P>, workers: nat)
    ensures Inv(plan, Init(workers))
  {}

  /** Two groups' packages differ, so an event of one leaves the view of the other alone. */
  lemma OtherViews<P>(plan: Plan<P>, s: State, s': State, g: nat, h: nat, e: Event)
    requires PlanOk(plan) && g < |plan.groups| && h < |plan.groups| && g != h
    requires e.suite in plan.groups[g].entries && s'.events == s.events + [e]
    ensures ViewOf(plan, s', h) == ViewOf(plan, s, h)
  {
    assert GroupOf(plan.pkgs, plan.groups[g], |plan.pkgs|);
    ViewSnoc(plan.pkgs, plan.groups[h].pkg, s.events, e);
    assert plan.groups[g].pkg != plan.groups[h].pkg;
  }

  lemma OwnView<P>(plan: Plan<P>, s: State, s': State, g: nat, e: Event)
    requires PlanOk(plan) && g < |plan.groups|
    requires e.suite in plan.groups[g].entries && s'.events == s.events + [e]
    ensures ViewOf(plan, s', g) == ViewOf(plan, s, g) + [e]
  {
    assert GroupOf(plan.pkgs, plan.groups[g], |plan.pkgs|);
    ViewSnoc(plan.pkgs, plan.groups[g].pkg, s.events, e);
  }

  ghost predicate Stepped<P>(plan: Plan<P>, s: State, k: nat, c: Choice, s': State) {
    PlanOk(plan) && Inv(plan, s) && k < |s.workers| && Act(plan, s, k, c) == Some(s')
  }

  lemma StepPlaced<P>(plan: Plan<P>, s: State, k: nat, c: Choice, s': State)
    requires Placed(plan, s) && k < |s.workers| && Act(plan, s, k, c) == Some(s')
    ensures Placed(plan, s') && |s'.workers| == |s.workers| && s'.workers == s.workers[k := s'.workers[k]]
    ensures s.next <= s'.next && (s.stop ==> s'.stop) && s.failures <= s'.failures && s.events <= s'.events
  {
    var w' := s'.workers[k];
    assert s'.workers == s.workers[k := w'];
    assert InPlan(plan, w') && (w'.At? ==>
      w'.g < s'.next && (w'.g == s.next || (s.workers[k].At? && w'.g == s.workers[k].g)));
  }

  lemma StepLock<P>(plan: Plan<P>, s: State, k: nat, c: Choice, s': State)
    requires LockOk(s) && k < |s.workers| && InPlan(plan, s.workers[k]) && Act(plan, s, k, c) == Some(s')
    ensures LockOk(s')
  {
    assert s'.workers == s.workers[k := s'.workers[k]];
  }

  lemma StillWorks(s: State, s': State, k: nat, g: nat)
    requires k < |s.workers| == |s'.workers| && s'.workers == s.workers[k := s'.workers[k]]
    requires Works(s, g) && !(s.workers[k].At? && s.workers[k].g == g)
    ensures Works(s', g)
  {
    var l :| 0 <= l < |s.workers| && s.workers[l].At? && s.workers[l].g == g;
    assert s'.workers[l] == s.workers[l];
  }

  lemma StepFailures<P>(plan: Plan<P>, s: State, k: nat, c: Choice, s': State)
    requires WorkersOk(plan, s) && FailuresOk(plan, s) && k < |s.workers| && Act(plan, s, k, c) == Some(s')
      && WorkersOk(plan, s')
    requires |s'.workers| == |s.workers| && s'.workers == s.workers[k := s'.workers[k]]
    requires s.next <= s'.next && (s.stop ==> s'.stop) && s.failures <= s'.failures && s.events <= s'.events
    requires var w := s.workers[k];
      w.At? && w.phase.Holding? ==> Finished(SuiteAt(plan, w), w.phase.outcome) in s.events
    ensures FailuresOk(plan, s')
  {
    assert forall e <- s.events :: e in s'.events;
  }

  /** A worker that holds a finished suite has its end in the events. */
  lemma HeldEnd<P>(plan: Plan<P>, s: State, k: nat)
    requires WorkersOk(plan, s) && GroupsOk(plan, s) && k < |s.workers|
    requires s.workers[k].At? && s.workers[k].phase.Holding?
    ensures Finished(SuiteAt(plan, s.workers[k]), s.workers[k].phase.outcome) in s.events
  {
    var w := s.workers[k];
    var v := ViewOf(plan, s, w.g);
    assert Stands(v, plan.groups[w.g].entries, w.i, w.phase);
    assert v[3 * w.i + 1] in v;
    ViewIsPart(plan.pkgs, plan.groups[w.g].pkg, s.events, v[3 * w.i + 1]);
  }

  lemma {:induction false} ViewIsPart<P>(pkgs: seq<P>, p: P, events: seq<Event>, e: Event)
    requires e in View(pkgs, p, events)
    ensures e in events
  {
    var front := events[..|events| - 1];
    if e in View(pkgs, p, front) {
      ViewIsPart(pkgs, p, front, e);
    }
  }

  /** What is left of a group when its worker lets go of it without writing an event. */
  lemma SilentRelease<P>(plan: Plan<P>, s: State, k: nat, c: Choice, s': State, g: nat)
    requires Stepped(plan, s, k, c, s') && s'.events == s.events
    requires g < |plan.groups| && g < s'.next && !Works(s', g)
    ensures var v := ViewOf(plan, s, g);
      if s'.stop then Serial(v, plan.groups[g].entries) else AllGreen(v, plan.groups[g].entries)
  {
    var w := s.workers[k];
    var v, entries := ViewOf(plan, s, g), plan.groups[g].entries;
    assert s'.workers == s.workers[k := s'.workers[k]];
    if w.At? && w.g == g {
      assert Stands(v, entries, w.i, w.phase);
    } else {
      assert w == Claim ==> s'.workers[k] == Exited || s'.workers[k].g == s.next;
      if Works(s, g) { StillWorks(s, s', k, g); }
      if s'.stop && !s.stop {
        assert Stands(v, entries, |entries|, Check);
      }
    }
  }

  lemma SilentWorker<P>(plan: Plan<P>, s: State, k: nat, c: Choice, s': State)
    requires Stepped(plan, s, k, c, s') && s'.events == s.events && s'.workers[k].At?
    ensures var w := s'.workers[k];
      w.g < |plan.groups| && Stands(ViewOf(plan, s, w.g), plan.groups[w.g].entries, w.i, w.phase)
  {
    var w := s.workers[k];
    if w.At? { assert Stands(ViewOf(plan, s, w.g), plan.groups[w.g].entries, w.i, w.phase); }
  }

  /** A step that writes no event keeps every view. */
  lemma SilentStep<P>(plan: Plan<P>, s: State, k: nat, c: Choice, s': State)
    requires Stepped(plan, s, k, c, s') && WorkersOk(plan, s') && s'.events == s.events
    ensures GroupsOk(plan, s')
  {
    assert s'.workers == s.workers[k := s'.workers[k]] && s.next <= s'.next;
    if s'.workers[k].At? { SilentWorker(plan, s, k, c, s'); }
    forall g | 0 <= g < |plan.groups| && g < s'.next && !Works(s', g)
      ensures if s'.stop then Serial(ViewOf(plan, s', g), plan.groups[g].entries)
        else AllGreen(ViewOf(plan, s', g), plan.groups[g].entries)
    {
      SilentRelease(plan, s, k, c, s', g);
    }
    SilentOthers(plan, s, k, s');
  }

  lemma SilentOthers<P>(plan: Plan<P>, s: State, k: nat, s': State)
    requires WorkersOk(plan, s) && GroupsOk(plan, s) && WorkersOk(plan, s') && k < |s.workers| == |s'.workers|
    requires s'.workers == s.workers[k := s'.workers[k]] && s.next <= s'.next && s'.events == s.events
    ensures forall g :: 0 <= g < |plan.groups| && s'.next <= g ==> ViewOf(plan, s', g) == []
    ensures forall l :: 0 <= l < |s'.workers| && l != k && s'.workers[l].At? ==>
      Stands(ViewOf(plan, s', s'.workers[l].g), plan.groups[s'.workers[l].g].entries, s'.workers[l].i,
        s'.workers[l].phase)
  {
    forall g | 0 <= g < |plan.groups| && s'.next <= g ensures ViewOf(plan, s', g) == [] {
      assert ViewOf(plan, s', g) == ViewOf(plan, s, g);
    }
    forall l | 0 <= l < |s'.workers| && l != k && s'.workers[l].At?
      ensures Stands(ViewOf(plan, s', s'.workers[l].g), plan.groups[s'.workers[l].g].entries, s'.workers[l].i,
        s'.workers[l].phase)
    {
      assert s'.workers[l] == s.workers[l];
    }
  }

  /** A step that writes an event of its own group moves only that group's view. */
  lemma LoudStep<P>(plan: Plan<P>, s: State, k: nat, c: Choice, s': State, e: Event)
    requires Stepped(plan, s, k, c, s') && WorkersOk(plan, s') && s'.events == s.events + [e]
    ensures GroupsOk(plan, s')
  {
    var w := s.workers[k];
    assert s'.events[|s.events|] == e;
    assert e.suite == plan.groups[w.g].entries[w.i];
    forall h | 0 <= h < |plan.groups| && h != w.g ensures ViewOf(plan, s', h) == ViewOf(plan, s, h) {
      OtherViews(plan, s, s', w.g, h, e);
    }
    OwnView(plan, s, s', w.g, e);
    var v, v', entries := ViewOf(plan, s, w.g), ViewOf(plan, s', w.g), plan.groups[w.g].entries;
    assert Stands(v, entries, w.i, w.phase);
    ExtendStands(v, entries, w, s'.workers[k], e);
    forall l | 0 <= l < |s'.workers| && s'.workers[l].At?
      ensures Stands(ViewOf(plan, s', s'.workers[l].g), plan.groups[s'.workers[l].g].entries, s'.workers[l].i,
        s'.workers[l].phase)
    {
      if l != k { assert s'.workers[l] == s.workers[l]; }
    }
    assert s'.workers[k].At?;
    forall g | 0 <= g < |plan.groups| && g < s'.next && !Works(s', g) ensures !Works(s, g) && g != w.g {
      if Works(s, g) && g != w.g { StillWorks(s, s', k, g); }
    }
  }

  lemma ExtendStands(v: seq<Event>, entries: seq<nat>, w: Worker, w': Worker, e: Event)
    requires w.At? && w'.At? && w.i < |entries| && Stands(v, entries, w.i, w.phase) && e.suite == entries[w.i]
    requires
      || (w.phase == Spawn && w' == w.(phase := Running) && e.Started?)
      || (w.phase == Running && e.Finished? && w' == w.(phase := Ended(e.outcome)))
      || (w.phase == Holding(Green) && e.Banked? && w' == w.(i := w.i + 1, phase := Check))
    ensures Stands(v + [e], entries, w'.i, w'.phase)
  {}

  /** Every step keeps the invariant. */
  lemma StepInv<P>(plan: Plan<P>, s: State, k: nat, c: Choice, s': State)
    requires Stepped(plan, s, k, c, s')
    ensures Inv(plan, s')
  {
    StepPlaced(plan, s, k, c, s');
    StepLock(plan, s, k, c, s');
    if s.workers[k].At? && s.workers[k].phase.Holding? { HeldEnd(plan, s, k); }
    StepFailures(plan, s, k, c, s');
    if s'.events == s.events {
      SilentStep(plan, s, k, c, s');
    } else {
      LoudStep(plan, s, k, c, s', s'.events[|s'.events| - 1]);
    }
  }

  // ---- Whole runs ----

  datatype Move = Move(k: nat, c: Choice)

  /** The state after a sequence of steps, if all of them were possible. */
  function Run<P>(plan: Plan<P>, workers: nat, moves: seq<Move>): Option<State> {
    if moves == [] then Some(Init(workers))
    else
      var m := moves[|moves| - 1];
      match Run(plan, workers, moves[..|moves| - 1])
      case None => None
      case Some(s) => if m.k < |s.workers| && InPlan(plan, s.workers[m.k]) then Act(plan, s, m.k, m.c) else None
  }

  lemma {:induction false} RunInv<P>(plan: Plan<P>, workers: nat, moves: seq<Move>)
    requires PlanOk(plan) && Run(plan, workers, moves).Some?
    ensures Inv(plan, Run(plan, workers, moves).value) && |Run(plan, workers, moves).value.workers| == workers
  {
    if moves == [] {
      InitInv(plan, workers);
    } else {
      var m, front := moves[|moves| - 1], moves[..|moves| - 1];
      var s := Run(plan, workers, front).value;
      RunInv(plan, workers, front);
      StepInv(plan, s, m.k, m.c, Run(plan, workers, moves).value);
      StepPlaced(plan, s, m.k, m.c, Run(plan, workers, moves).value);
    }
  }

  /** In every interleaving, the events of one package are a serial run of its suites. */
  lemma PackageIsSerial<P>(plan: Plan<P>, workers: nat, moves: seq<Move>, g: nat)
    requires PlanOk(plan) && Run(plan, workers, moves).Some? && g < |plan.groups|
    ensures Serial(ViewOf(plan, Run(plan, workers, moves).value, g), plan.groups[g].entries)
  {
    RunInv(plan, workers, moves);
    var s := Run(plan, workers, moves).value;
    var v, entries := ViewOf(plan, s, g), plan.groups[g].entries;
    if s.next <= g {
      assert Stands(v, entries, 0, Check);
    } else if Works(s, g) {
      var k :| 0 <= k < |s.workers| && s.workers[k].At? && s.workers[k].g == g;
      assert Stands(v, entries, s.workers[k].i, s.workers[k].phase);
    } else if !s.stop {
      assert Stands(v, entries, |entries|, Check);
    }
  }

  lemma SerialOrder(v: seq<Event>, entries: seq<nat>, a: nat, b: nat)
    requires Serial(v, entries) && a < b < |v| && v[a].Started? && v[b].Started?
    requires forall k, l :: 0 <= k < l < |entries| ==> entries[k] < entries[l]
    ensures v[a].suite < v[b].suite && a + 1 < b && v[a + 1] == Finished(v[a].suite, Green)
  {
    var i, phase :| Stands(v, entries, i, phase);
    StartIndex(v, entries, i, phase, a);
    StartIndex(v, entries, i, phase, b);
    var k, l := a / 3, b / 3;
    assert a == 3 * k && b == 3 * l && k < l;
    assert k < i;
  }

  lemma StartIndex(v: seq<Event>, entries: seq<nat>, i: nat, phase: Phase, a: nat)
    requires Stands(v, entries, i, phase) && a < |v| && v[a].Started?
    ensures a % 3 == 0 && a / 3 <= i && a / 3 < |entries| && v[a] == Started(entries[a / 3])
  {
    var k := a / 3;
    if k < i {
      assert v[3 * k] == Started(entries[k]) && v[3 * k + 1].Finished? && v[3 * k + 2].Banked?;
    }
  }

  // ---- From views back to positions in the log ----

  predicate Matches<P(==)>(pkgs: seq<P>, p: P, e: Event) {
    e.suite < |pkgs| && pkgs[e.suite] == p
  }

  /** Where the event at `a` appears in the view. */
  ghost function Place<P>(pkgs: seq<P>, p: P, events: seq<Event>, a: nat): nat
    requires a <= |events|
  {
    |View(pkgs, p, events[..a])|
  }

  lemma {:induction false} ViewAt<P>(pkgs: seq<P>, p: P, events: seq<Event>, a: nat)
    requires a < |events| && Matches(pkgs, p, events[a])
    ensures Place(pkgs, p, events, a) < |View(pkgs, p, events)|
    ensures View(pkgs, p, events)[Place(pkgs, p, events, a)] == events[a]
  {
    var front := events[..|events| - 1];
    if a == |events| - 1 {
      assert events[..a] == front;
    } else {
      ViewAt(pkgs, p, front, a);
      assert front[..a] == events[..a];
    }
  }

  lemma {:induction false} PlaceGrows<P>(pkgs: seq<P>, p: P, events: seq<Event>, a: nat, b: nat)
    requires a <= b <= |events|
    ensures Place(pkgs, p, events, a) <= Place(pkgs, p, events, b)
    ensures a < b && Matches(pkgs, p, events[a]) ==> Place(pkgs, p, events, a) < Place(pkgs, p, events, b)
    decreases b
  {
    if a < b {
      PlaceGrows(pkgs, p, events, a, b - 1);
      assert events[..b][..b - 1] == events[..b - 1];
    }
  }

  lemma {:induction false} ViewSource<P>(pkgs: seq<P>, p: P, events: seq<Event>, j: nat) returns (c: nat)
    requires j < |View(pkgs, p, events)|
    ensures c < |events| && Matches(pkgs, p, events[c]) && Place(pkgs, p, events, c) == j
      && events[c] == View(pkgs, p, events)[j]
  {
    var front := events[..|events| - 1];
    if j < |View(pkgs, p, front)| {
      c := ViewSource(pkgs, p, front, j);
      assert front[..c] == events[..c];
    } else {
      c := |events| - 1;
      assert events[..c] == front;
    }
  }

  /** In every interleaving, a suite starts only after every earlier started suite of its package has
      finished green, and only if it is later in the list; so none starts twice and none overlaps. */
  lemma StartsAreOrdered<P>(plan: Plan<P>, workers: nat, moves: seq<Move>, a: nat, b: nat)
    requires PlanOk(plan) && Run(plan, workers, moves).Some?
    requires var events := Run(plan, workers, moves).value.events;
      && a < b < |events| && events[a].Started? && events[b].Started?
      && events[a].suite < |plan.pkgs| && events[b].suite < |plan.pkgs|
        && plan.pkgs[events[a].suite] == plan.pkgs[events[b].suite]
    ensures var events := Run(plan, workers, moves).value.events;
      events[a].suite < events[b].suite && exists c :: a < c < b && events[c] == Finished(events[a].suite, Green)
  {
    var events := Run(plan, workers, moves).value.events;
    var p := plan.pkgs[events[a].suite];
    var g := GroupOfSuite(plan, events[a].suite);
    var v := View(plan.pkgs, p, events);
    PackageIsSerial(plan, workers, moves, g);
    var x, y := Place(plan.pkgs, p, events, a), Place(plan.pkgs, p, events, b);
    ViewAt(plan.pkgs, p, events, a);
    ViewAt(plan.pkgs, p, events, b);
    PlaceGrows(plan.pkgs, p, events, a, b);
    SerialOrder(v, plan.groups[g].entries, x, y);
    var c := ViewSource(plan.pkgs, p, events, x + 1);
    if c <= a { PlaceGrows(plan.pkgs, p, events, c, a); }
    if b <= c { PlaceGrows(plan.pkgs, p, events, b, c); }
  }

  lemma GroupOfSuite<P>(plan: Plan<P>, t: nat) returns (g: nat)
    requires PlanOk(plan) && t < |plan.pkgs|
    ensures g < |plan.groups| && t in plan.groups[g].entries && plan.groups[g].pkg == plan.pkgs[t]
    ensures forall k, l :: 0 <= k < l < |plan.groups[g].entries| ==>
      plan.groups[g].entries[k] < plan.groups[g].entries[l]
  {
    assert Holds(plan.groups, t);
    var group :| group in plan.groups && t in group.entries;
    g :| 0 <= g < |plan.groups| && plan.groups[g] == group;
    assert GroupOf(plan.pkgs, group, |plan.pkgs|);
  }

  // ---- The verdict ----

  ghost predicate Over(s: State) {
    forall k :: 0 <= k < |s.workers| ==> s.workers[k] == Exited
  }

  /** Started exactly once, and finished green and in no other way. */
  ghost predicate RanOnceGreen(events: seq<Event>, t: nat) {
    && (exists a :: 0 <= a < |events| && events[a] == Started(t) &&
         forall b :: 0 <= b < |events| && events[b] == Started(t) ==> a == b)
    && Finished(t, Green) in events && Finished(t, Red) !in events && Finished(t, SpawnError) !in events
  }

  /** With at least one worker, a lane that ends without failures ran every suite exactly once, green. */
  lemma OkMeansAllGreen<P>(plan: Plan<P>, workers: nat, moves: seq<Move>, t: nat)
    requires PlanOk(plan) && workers >= 1 && t < |plan.pkgs| && Run(plan, workers, moves).Some?
    requires var s := Run(plan, workers, moves).value; Over(s) && s.failures == []
    ensures RanOnceGreen(Run(plan, workers, moves).value.events, t)
  {
    var s := Run(plan, workers, moves).value;
    RunInv(plan, workers, moves);
    assert s.workers[0] == Exited;
    var g := GroupOfSuite(plan, t);
    var v, entries := ViewOf(plan, s, g), plan.groups[g].entries;
    assert !Works(s, g);
    assert AllGreen(v, entries);
    var k :| 0 <= k < |entries| && entries[k] == t;
    assert v[3 * k] == Started(t) && v[3 * k + 1] == Finished(t, Green);
    assert v[3 * k + 1] in v;
    ViewIsPart(plan.pkgs, plan.groups[g].pkg, s.events, v[3 * k + 1]);
    forall b | 0 <= b < |s.events| && s.events[b].Finished? && s.events[b].suite == t
      ensures s.events[b].outcome == Green
    {
      ViewAt(plan.pkgs, plan.groups[g].pkg, s.events, b);
      GreenFinish(v, entries, Place(plan.pkgs, plan.groups[g].pkg, s.events, b));
    }
    var a := ViewSource(plan.pkgs, plan.groups[g].pkg, s.events, 3 * k);
    forall b | 0 <= b < |s.events| && s.events[b] == Started(t) ensures a == b {
      if a < b { StartsAreOrdered(plan, workers, moves, a, b); }
      if b < a { StartsAreOrdered(plan, workers, moves, b, a); }
    }
  }

  /** ... and gave every suite to the ledger. */
  lemma OkMeansAllBanked<P>(plan: Plan<P>, workers: nat, moves: seq<Move>, t: nat)
    requires PlanOk(plan) && workers >= 1 && t < |plan.pkgs| && Run(plan, workers, moves).Some?
    requires var s := Run(plan, workers, moves).value; Over(s) && s.failures == []
    ensures var events := Run(plan, workers, moves).value.events;
      exists b :: 0 <= b < |events| && events[b].Banked? && events[b].suite == t
  {
    var s := Run(plan, workers, moves).value;
    RunInv(plan, workers, moves);
    assert s.workers[0] == Exited;
    var g := GroupOfSuite(plan, t);
    assert !Works(s, g);
    var v, entries := ViewOf(plan, s, g), plan.groups[g].entries;
    assert AllGreen(v, entries);
    var k :| 0 <= k < |entries| && entries[k] == t;
    assert v[3 * k] == Started(t) && v[3 * k + 2].Banked? && v[3 * k + 2].suite == t;
    var b := ViewSource(plan.pkgs, plan.groups[g].pkg, s.events, 3 * k + 2);
  }

  lemma GreenFinish(v: seq<Event>, entries: seq<nat>, y: nat)
    requires AllGreen(v, entries) && y < |v| && v[y].Finished?
    ensures v[y].outcome == Green
  {
    var k := y / 3;
    assert k < |entries|;
    assert v[3 * k] == Started(entries[k]) && v[3 * k + 1] == Finished(entries[k], Green) && v[3 * k + 2].Banked?;
  }

  /** A lane that reports failures names only suites that were not green. */
  lemma FailuresAreRed<P>(plan: Plan<P>, workers: nat, moves: seq<Move>, t: nat)
    requires PlanOk(plan) && Run(plan, workers, moves).Some?
    requires t in Run(plan, workers, moves).value.failures
    ensures var events := Run(plan, workers, moves).value.events;
      Finished(t, Red) in events || Finished(t, SpawnError) in events
  {
    RunInv(plan, workers, moves);
  }

  // ---- The stop flag ----

  function Starts(events: seq<Event>): nat {
    if events == [] then 0 else Starts(events[..|events| - 1]) + if events[|events| - 1].Started? then 1 else 0
  }

  /** Past the stop flag and about to start a suite. */
  predicate Spawns(w: Worker) {
    w.At? && w.phase == Spawn
  }

  function Spawning(ws: seq<Worker>): nat {
    if ws == [] then 0 else (if Spawns(ws[0]) then 1 else 0) + Spawning(ws[1..])
  }

  lemma StartsSnoc(events: seq<Event>, e: Event)
    ensures Starts(events + [e]) == Starts(events) + if e.Started? then 1 else 0
  {
    assert (events + [e])[..|events|] == events;
  }

  lemma {:induction false} SpawningUpdate(ws: seq<Worker>, k: nat, w: Worker)
    requires k < |ws|
    ensures Spawning(ws[k := w]) == Spawning(ws) - (if Spawns(ws[k]) then 1 else 0) + if Spawns(w) then 1 else 0
  {
    if k > 0 {
      assert ws[k := w][1..] == ws[1..][k - 1 := w];
      SpawningUpdate(ws[1..], k - 1, w);
    } else {
      assert ws[k := w][1..] == ws[1..];
    }
  }

  lemma StoppedStep<P>(plan: Plan<P>, s: State, k: nat, c: Choice, s': State)
    requires k < |s.workers| && InPlan(plan, s.workers[k]) && Act(plan, s, k, c) == Some(s') && s.stop
    ensures s'.stop && Starts(s'.events) + Spawning(s'.workers) == Starts(s.events) + Spawning(s.workers)
  {
    assert s'.workers == s.workers[k := s'.workers[k]];
    SpawningUpdate(s.workers, k, s'.workers[k]);
    if s'.events != s.events { StartsSnoc(s.events, s'.events[|s'.events| - 1]); }
  }

  /** Once a red suite has raised the stop flag, the only suites still to start are those of workers that
      had passed it already. */
  lemma {:induction false} NothingStartsAfterStop<P>(plan: Plan<P>, workers: nat, moves: seq<Move>, more: seq<Move>)
    requires Run(plan, workers, moves).Some? && Run(plan, workers, moves).value.stop
      && Run(plan, workers, moves + more).Some?
    ensures var s, t := Run(plan, workers, moves).value, Run(plan, workers, moves + more).value;
      t.stop && Starts(t.events) + Spawning(t.workers) == Starts(s.events) + Spawning(s.workers)
  {
    if more == [] {
      assert moves + more == moves;
    } else {
      var all, m := moves + more, more[|more| - 1];
      assert all[..|all| - 1] == moves + more[..|more| - 1] && all[|all| - 1] == m;
      NothingStartsAfterStop(plan, workers, moves, more[..|more| - 1]);
      StoppedStep(plan, Run(plan, workers, all[..|all| - 1]).value, m.k, m.c, Run(plan, workers, all).value);
    }
  }

  /** A failure that has been reported and whose worker has left has raised the flag. */
  lemma {:induction false} FailuresRaiseStop<P>(plan: Plan<P>, workers: nat, moves: seq<Move>)
    requires PlanOk(plan) && Run(plan, workers, moves).Some?
    ensures var s := Run(plan, workers, moves).value;
      s.failures != [] ==> s.stop || exists k :: 0 <= k < |s.workers| && s.workers[k].At? && s.workers[k].phase.Failing?
  {
    if moves != [] {
      var m, front := moves[|moves| - 1], moves[..|moves| - 1];
      FailuresRaiseStop(plan, workers, front);
      var s, s' := Run(plan, workers, front).value, Run(plan, workers, moves).value;
      assert s'.workers == s.workers[m.k := s'.workers[m.k]];
      if s.failures != [] && !s.stop {
        var k :| 0 <= k < |s.workers| && s.workers[k].At? && s.workers[k].phase.Failing?;
        assert k != m.k ==> s'.workers[k] == s.workers[k];
      } else if s'.failures != s.failures {
        assert s'.workers[m.k].At? && s'.workers[m.k].phase.Failing?;
      }
    }
  }

  // ---- Progress ----

  function PhaseRank(phase: Phase): nat {
    match phase
    case Check => 5
    case Spawn => 4
    case Running => 3
    case Ended(_) => 2
    case Holding(_) => 1
    case Failing(_) => 0
  }

  function Rank<P>(plan: Plan<P>, w: Worker): nat
    requires InPlan(plan, w)
  {
    match w
    case Exited => 0
    case Claim => 1
    case At(g, i, phase) => 6 * (|plan.groups[g].entries| - i) + PhaseRank(phase) + 1
  }

  function Ranks<P>(plan: Plan<P>, ws: seq<Worker>): nat
    requires forall w <- ws :: InPlan(plan, w)
  {
    if ws == [] then 0 else Rank(plan, ws[0]) + Ranks(plan, ws[1..])
  }

  lemma {:induction false} RanksUpdate<P>(plan: Plan<P>, ws: seq<Worker>, k: nat, w: Worker)
    requires k < |ws| && InPlan(plan, w) && forall x <- ws :: InPlan(plan, x)
    ensures forall x <- ws[k := w] :: InPlan(plan, x)
    ensures Ranks(plan, ws[k := w]) == Ranks(plan, ws) - Rank(plan, ws[k]) + Rank(plan, w)
  {
    assert forall x <- ws[k := w] :: x == w || x in ws;
    if k > 0 {
      assert ws[k := w][1..] == ws[1..][k - 1 := w];
      RanksUpdate(plan, ws[1..], k - 1, w);
    } else {
      assert ws[k := w][1..] == ws[1..];
    }
  }

  /** The steps the unclaimed groups may still cost. */
  function Unclaimed<P>(plan: Plan<P>, next: nat): nat
    decreases |plan.groups| - next
  {
    if next >= |plan.groups| then 0 else 6 * |plan.groups[next].entries| + 6 + Unclaimed(plan, next + 1)
  }

  function Budget<P>(plan: Plan<P>, s: State): nat
    requires forall w <- s.workers :: InPlan(plan, w)
  {
    Ranks(plan, s.workers) + Unclaimed(plan, s.next)
  }

  lemma StepRank<P>(plan: Plan<P>, s: State, k: nat, c: Choice, s': State)
    requires k < |s.workers| && InPlan(plan, s.workers[k]) && Act(plan, s, k, c) == Some(s')
    ensures |s'.workers| == |s.workers| && InPlan(plan, s'.workers[k])
    ensures Rank(plan, s'.workers[k]) + Unclaimed(plan, s'.next) < Rank(plan, s.workers[k]) + Unclaimed(plan, s.next)
  {}

  /** Every step spends from a finite budget. */
  lemma StepSpends<P>(plan: Plan<P>, s: State, k: nat, c: Choice)
    requires Placed(plan, s) && k < |s.workers| && Act(plan, s, k, c).Some?
    ensures var s' := Act(plan, s, k, c).value; Placed(plan, s') && Budget(plan, s') < Budget(plan, s)
  {
    var s' := Act(plan, s, k, c).value;
    StepPlaced(plan, s, k, c, s');
    assert forall w <- s.workers :: InPlan(plan, w);
    RanksUpdate(plan, s.workers, k, s'.workers[k]);
    StepRank(plan, s, k, c, s');
  }

  /** No lane runs forever: a run is no longer than the budget it starts with. */
  lemma {:induction false} RunsAreBounded<P>(plan: Plan<P>, workers: nat, moves: seq<Move>)
    requires Run(plan, workers, moves).Some?
    ensures Placed(plan, Run(plan, workers, moves).value) && Placed(plan, Init(workers))
    ensures |moves| + Budget(plan, Run(plan, workers, moves).value) <= Budget(plan, Init(workers))
  {
    if moves != [] {
      var m, front := moves[|moves| - 1], moves[..|moves| - 1];
      RunsAreBounded(plan, workers, front);
      StepSpends(plan, Run(plan, workers, front).value, m.k, m.c);
    }
  }

  /** Whoever holds the failure lock, and otherwise anyone still there, can step. */
  lemma CanStep<P>(plan: Plan<P>, s: State, c: Choice) returns (l: nat)
    requires Inv(plan, s) && !Over(s)
    ensures l < |s.workers| && InPlan(plan, s.workers[l]) && Act(plan, s, l, c).Some?
  {
    var k :| 0 <= k < |s.workers| && s.workers[k] != Exited;
    l := if s.holder.Some? then s.holder.value else k;
  }

  lemma RunOneMore<P>(plan: Plan<P>, workers: nat, moves: seq<Move>, m: Move)
    requires Run(plan, workers, moves).Some?
    requires var s := Run(plan, workers, moves).value;
      m.k < |s.workers| && InPlan(plan, s.workers[m.k]) && Act(plan, s, m.k, m.c).Some?
    ensures Run(plan, workers, moves + [m]).Some?
  {
    assert (moves + [m])[..|moves|] == moves;
  }

  /** No lane gets stuck: until every worker has exited, some worker can step. */
  lemma SomeoneCanStep<P>(plan: Plan<P>, workers: nat, moves: seq<Move>, c: Choice)
    requires PlanOk(plan) && Run(plan, workers, moves).Some? && !Over(Run(plan, workers, moves).value)
    ensures exists k :: Run(plan, workers, moves + [Move(k, c)]).Some?
  {
    RunInv(plan, workers, moves);
    var l := CanStep(plan, Run(plan, workers, moves).value, c);
    RunOneMore(plan, workers, moves, Move(l, c));
  }
}
