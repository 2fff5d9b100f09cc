/** How many suites of a lane are underway at once. */
module Overlap {
  import opened Text
  import opened Lane
  import opened Scheduler
  import opened Ledger
  import opened LaneSchedule

  predicate HasFinished(events: seq<Event>, t: nat) {
    Finished(t, Green) in events || Finished(t, Red) in events || Finished(t, SpawnError) in events
  }

  /** The suites that were started and have not finished. */
  function Underway(events: seq<Event>): set<nat> {
    set b | 0 <= b < |events| && events[b].Started? && !HasFinished(events, events[b].suite) :: events[b].suite
  }

  predicate Waits<P>(plan: Plan<P>, w: Worker, t: nat) {
    w.At? && w.phase == Running && InPlan(plan, w) && SuiteAt(plan, w) == t
  }

  /** Every suite underway has a worker that waits for it. */
  ghost predicate AllWaited<P>(plan: Plan<P>, s: State) {
    forall t <- Underway(s.events) :: exists k :: 0 <= k < |s.workers| && Waits(plan, s.workers[k], t)
  }

  lemma UnderwayBefore(events: seq<Event>, e: Event, t: nat)
    requires t in Underway(events + [e]) && e != Started(t)
    ensures t in Underway(events)
  {
    var all := events + [e];
    var b :| 0 <= b < |all| && all[b] == Started(t);
    assert events[b] == Started(t);
    assert forall x <- events :: x in all;
  }

  lemma StepWaits<P>(plan: Plan<P>, s: State, k: nat, c: Choice, s': State, l: nat, t: nat)
    requires k < |s.workers| && InPlan(plan, s.workers[k]) && Act(plan, s, k, c) == Some(s')
    requires l < |s.workers| && Waits(plan, s.workers[l], t) && t in Underway(s'.events)
    ensures l < |s'.workers| && Waits(plan, s'.workers[l], t)
  {
    assert s'.workers == s.workers[k := s'.workers[k]];
    if Waits(plan, s.workers[k], t) { WaitEnds(plan, s, k, c, s', t); }
  }

  lemma WaitEnds<P>(plan: Plan<P>, s: State, k: nat, c: Choice, s': State, t: nat)
    requires k < |s.workers| && InPlan(plan, s.workers[k]) && Act(plan, s, k, c) == Some(s')
    requires Waits(plan, s.workers[k], t)
    ensures HasFinished(s'.events, t)
  {
    assert s'.events == s.events + [Finished(t, c.outcome)];
    assert s'.events[|s.events|] in s'.events;
    assert c.outcome == Green || c.outcome == Red || c.outcome == SpawnError;
  }

  /** A step that writes an event starts the suite its worker then waits for, or another event. */
  lemma StepWrites<P>(plan: Plan<P>, s: State, k: nat, c: Choice, s': State)
    requires k < |s.workers| && InPlan(plan, s.workers[k]) && Act(plan, s, k, c) == Some(s') && s'.events != s.events
    ensures |s'.events| == |s.events| + 1 && s'.events == s.events + [s'.events[|s.events|]]
    ensures var e := s'.events[|s.events|];
      e.Started? ==> k < |s'.workers| && Waits(plan, s'.workers[k], e.suite)
  {}

  lemma StepWaited<P>(plan: Plan<P>, s: State, k: nat, c: Choice, s': State)
    requires k < |s.workers| && InPlan(plan, s.workers[k]) && Act(plan, s, k, c) == Some(s') && AllWaited(plan, s)
    ensures AllWaited(plan, s')
  {
    if s'.events != s.events { StepWrites(plan, s, k, c, s'); }
    forall t <- Underway(s'.events) ensures exists l :: 0 <= l < |s'.workers| && Waits(plan, s'.workers[l], t) {
      if s'.events == s.events || s'.events[|s.events|] != Started(t) {
        if s'.events != s.events { UnderwayBefore(s.events, s'.events[|s.events|], t); }
        var l :| 0 <= l < |s.workers| && Waits(plan, s.workers[l], t);
        StepWaits(plan, s, k, c, s', l, t);
      }
    }
  }

  lemma {:induction false} RunWaited<P>(plan: Plan<P>, workers: nat, moves: seq<Move>)
    requires Run(plan, workers, moves).Some?
    ensures AllWaited(plan, Run(plan, workers, moves).value)
  {
    if moves != [] {
      var m, front := moves[|moves| - 1], moves[..|moves| - 1];
      RunWaited(plan, workers, front);
      StepWaited(plan, Run(plan, workers, front).value, m.k, m.c, Run(plan, workers, moves).value);
    }
  }

  /** The suites these workers wait for: at most one each. */
  ghost function WaitedFor<P>(plan: Plan<P>, ws: seq<Worker>): (r: set<nat>)
    ensures |r| <= |ws|
    ensures forall k, t :: 0 <= k < |ws| && Waits(plan, ws[k], t) ==> t in r
  {
    if ws == [] then {}
    else
      var w, rest := ws[0], WaitedFor(plan, ws[1..]);
      assert forall k, t :: 1 <= k < |ws| && Waits(plan, ws[k], t) ==> Waits(plan, ws[1..][k - 1], t);
      if w.At? && w.phase == Running && InPlan(plan, w) then rest + {SuiteAt(plan, w)} else rest
  }

  lemma SubsetSize<T>(a: set<T>, b: set<T>)
    requires a <= b
    ensures |a| <= |b|
  {
    assert b == a + (b - a);
  }

  lemma {:induction false} RunKeepsWorkers<P>(plan: Plan<P>, workers: nat, moves: seq<Move>)
    requires Run(plan, workers, moves).Some?
    ensures |Run(plan, workers, moves).value.workers| == workers
  {
    if moves != [] { RunKeepsWorkers(plan, workers, moves[..|moves| - 1]); }
  }

  /** In every interleaving at most as many suites are underway as the schedule has groups, and at most one
      of each package. */
  lemma AtMostGroups<P>(schedule: Schedule, plan: Plan<P>, moves: seq<Move>)
    requires Run(plan, WorkerCount(schedule, plan), moves).Some?
    ensures var underway := Underway(Run(plan, WorkerCount(schedule, plan), moves).value.events);
      |underway| <= schedule.groups && |underway| <= |plan.groups|
  {
    var s := Run(plan, WorkerCount(schedule, plan), moves).value;
    RunWaited(plan, WorkerCount(schedule, plan), moves);
    RunKeepsWorkers(plan, WorkerCount(schedule, plan), moves);
    SubsetSize(Underway(s.events), WaitedFor(plan, s.workers));
  }

  /** The serial loop has one suite underway at a time. */
  lemma SerialIsOneAtATime(events: seq<Event>, n: nat)
    requires Serial(events, Positions(n))
    ensures |Underway(events)| <= 1
  {
    var i: nat, phase :| Stands(events, Positions(n), i, phase);
    forall t | 0 <= t < i ensures HasFinished(events, t) {
      assert events[3 * t] == Started(t) && events[3 * t + 1] == Finished(t, Green);
    }
    forall t <- Underway(events) ensures t == i {
      var b :| 0 <= b < |events| && events[b] == Started(t);
      StartIndex(events, Positions(n), i, phase, b);
    }
    SubsetSize(Underway(events), {i});
  }

  // ---- The bound is reached ----

  const ANY := Choice(Green, Stored)

  /** The first `n` workers claim a group each and start its first suite. */
  function Opening(n: nat): seq<Move> {
    if n == 0 then [] else Opening(n - 1) + [Move(n - 1, ANY)] + [Move(n - 1, ANY)] + [Move(n - 1, ANY)]
  }

  function FirstStarts<P>(plan: Plan<P>, n: nat): seq<Event>
    requires n <= |plan.groups| && forall g <- plan.groups :: g.entries != []
  {
    seq(n, k requires 0 <= k < n => Started(plan.groups[k].entries[0]))
  }

  function StartedUpTo(workers: nat, n: nat): seq<Worker> {
    seq(workers, k requires 0 <= k < workers => if k < n then At(k, 0, Running) else Claim)
  }

  function Opened<P>(plan: Plan<P>, workers: nat, n: nat): State
    requires n <= |plan.groups| && forall g <- plan.groups :: g.entries != []
  {
    State(n, false, [], None, StartedUpTo(workers, n), FirstStarts(plan, n))
  }

  predicate Moves<P>(plan: Plan<P>, s: State, k: nat, s': State) {
    k < |s.workers| && InPlan(plan, s.workers[k]) && Act(plan, s, k, ANY) == Some(s')
  }

  lemma OneMove<P>(plan: Plan<P>, workers: nat, moves: seq<Move>, s: State, k: nat, s': State)
    requires Run(plan, workers, moves) == Some(s) && Moves(plan, s, k, s')
    ensures Run(plan, workers, moves + [Move(k, ANY)]) == Some(s')
  {
    assert (moves + [Move(k, ANY)])[..|moves|] == moves;
  }

  lemma ThreeMoves<P>(plan: Plan<P>, workers: nat, moves: seq<Move>, s: State, k: nat, s1: State, s2: State, s3: State)
    requires Run(plan, workers, moves) == Some(s)
    requires Moves(plan, s, k, s1) && Moves(plan, s1, k, s2) && Moves(plan, s2, k, s3)
    ensures Run(plan, workers, moves + [Move(k, ANY)] + [Move(k, ANY)] + [Move(k, ANY)]) == Some(s3)
  {
    OneMove(plan, workers, moves, s, k, s1);
    OneMove(plan, workers, moves + [Move(k, ANY)], s1, k, s2);
    OneMove(plan, workers, moves + [Move(k, ANY)] + [Move(k, ANY)], s2, k, s3);
  }

  /** Worker `k` claims the next group, finds the stop flag down and starts the first suite. */
  lemma OpensOne<P>(plan: Plan<P>, workers: nat, k: nat, s1: State, s2: State)
    requires k < workers && k < |plan.groups| && forall g <- plan.groups :: g.entries != []
    requires var s := Opened(plan, workers, k);
      && s1 == s.(next := k + 1, workers := s.workers[k := At(k, 0, Check)])
      && s2 == s1.(workers := s.workers[k := At(k, 0, Spawn)])
    ensures Moves(plan, Opened(plan, workers, k), k, s1) && Moves(plan, s1, k, s2)
    ensures Moves(plan, s2, k, Opened(plan, workers, k + 1))
  {
    var s := Opened(plan, workers, k);
    assert s1.workers[k := At(k, 0, Spawn)] == s2.workers;
    assert s2.workers[k := At(k, 0, Running)] == StartedUpTo(workers, k + 1);
    assert s.events + [Started(plan.groups[k].entries[0])] == FirstStarts(plan, k + 1);
  }

  lemma OpensNext<P>(plan: Plan<P>, workers: nat, moves: seq<Move>, k: nat)
    requires k < workers && k < |plan.groups| && forall g <- plan.groups :: g.entries != []
    requires Run(plan, workers, moves) == Some(Opened(plan, workers, k))
    ensures Run(plan, workers, moves + [Move(k, ANY)] + [Move(k, ANY)] + [Move(k, ANY)])
         == Some(Opened(plan, workers, k + 1))
  {
    var s := Opened(plan, workers, k);
    var s1 := s.(next := k + 1, workers := s.workers[k := At(k, 0, Check)]);
    var s2 := s1.(workers := s.workers[k := At(k, 0, Spawn)]);
    OpensOne(plan, workers, k, s1, s2);
    ThreeMoves(plan, workers, moves, s, k, s1, s2, Opened(plan, workers, k + 1));
  }

  lemma OpenedAtFirst<P>(plan: Plan<P>, workers: nat)
    requires forall g <- plan.groups :: g.entries != []
    ensures Opened(plan, workers, 0) == Init(workers) && Run(plan, workers, []) == Some(Init(workers))
  {}

  lemma {:induction false} OpeningRuns<P>(plan: Plan<P>, workers: nat, n: nat, moves: seq<Move>)
    requires n <= workers && n <= |plan.groups| && moves == Opening(n) && forall g <- plan.groups :: g.entries != []
    ensures Run(plan, workers, moves) == Some(Opened(plan, workers, n))
    decreases n
  {
    if n == 0 {
      OpenedAtFirst(plan, workers);
    } else {
      var before := Opening(n - 1);
      OpeningRuns(plan, workers, n - 1, before);
      OpensNext(plan, workers, before, n - 1);
    }
  }

  lemma {:induction false} FirstStartsDiffer<P>(plan: Plan<P>, n: nat)
    requires PlanOk(plan) && n <= |plan.groups| && forall g <- plan.groups :: g.entries != []
    ensures |set k | 0 <= k < n :: plan.groups[k].entries[0]| == n
  {
    if n > 0 {
      FirstStartsDiffer(plan, n - 1);
      var before := set k | 0 <= k < n - 1 :: plan.groups[k].entries[0];
      var last := plan.groups[n - 1].entries[0];
      assert GroupOf(plan.pkgs, plan.groups[n - 1], |plan.pkgs|);
      forall k | 0 <= k < n - 1 ensures plan.groups[k].entries[0] != last {
        assert GroupOf(plan.pkgs, plan.groups[k], |plan.pkgs|);
      }
      assert (set k | 0 <= k < n :: plan.groups[k].entries[0]) == before + {last};
    }
  }

  lemma OpenedUnderway<P>(plan: Plan<P>, workers: nat, n: nat)
    requires PlanOk(plan) && n <= |plan.groups| && forall g <- plan.groups :: g.entries != []
    ensures |Underway(Opened(plan, workers, n).events)| == n
  {
    var events := FirstStarts(plan, n);
    FirstStartsDiffer(plan, n);
    forall k | 0 <= k < n ensures plan.groups[k].entries[0] in Underway(events) {
      assert events[k] == Started(plan.groups[k].entries[0]);
    }
    assert Underway(events) == set k | 0 <= k < n :: plan.groups[k].entries[0];
  }

  /** Some interleaving has that many underway: one of each package, as far as the groups go. */
  lemma BoundIsReached<P>(schedule: Schedule, plan: Plan<P>) returns (moves: seq<Move>)
    requires PlanOk(plan) && forall g <- plan.groups :: g.entries != []
    ensures Run(plan, WorkerCount(schedule, plan), moves).Some?
    ensures var n := |Underway(Run(plan, WorkerCount(schedule, plan), moves).value.events)|;
      n == schedule.groups || n == |plan.groups|
  {
    var n := WorkerCount(schedule, plan);
    moves := Opening(n);
    OpeningRuns(plan, n, n, moves);
    OpenedUnderway(plan, n, n);
  }
}
