/** What an overlapped lane reports as failed. */
module Report {
  import opened Text
  import opened Bags
  import opened Lane
  import opened Scheduler

  /** The suite of an event that ends one without green. */
  function RedEnd(e: Event): multiset<nat> {
    if e.Finished? && e.outcome != Green then multiset{e.suite} else multiset{}
  }

  /** The suite a worker saw end without green and has not reported yet. */
  function Unreported<P>(plan: Plan<P>, w: Worker): multiset<nat> {
    if w.At? && InPlan(plan, w) && (w.phase.Ended? || w.phase.Holding?) && w.phase.outcome != Green
    then multiset{SuiteAt(plan, w)} else multiset{}
  }

  ghost predicate Accounted<P>(plan: Plan<P>, s: State) {
    Sum(s.events, RedEnd) == multiset(s.failures) + Sum(s.workers, w => Unreported(plan, w))
  }

  lemma {:induction false} NothingHeld<P>(plan: Plan<P>, workers: seq<Worker>)
    requires forall k :: 0 <= k < |workers| ==> !workers[k].At?
    ensures Sum(workers, w => Unreported(plan, w)) == multiset{}
  {
    if workers != [] { NothingHeld(plan, workers[..|workers| - 1]); }
  }

  ghost predicate Shows(red: multiset<nat>, red': multiset<nat>, one: multiset<nat>, one': multiset<nat>,
      failures: seq<nat>, failures': seq<nat>) {
    red' + one + multiset(failures) == red + one' + multiset(failures')
  }

  lemma Unchanged(red: multiset<nat>, one: multiset<nat>, failures: seq<nat>)
    ensures Shows(red, red, one, one, failures, failures)
  {}

  lemma Seen(red: multiset<nat>, one: multiset<nat>, failures: seq<nat>)
    ensures Shows(red, red + one, multiset{}, one, failures, failures)
  {}

  lemma Reported(red: multiset<nat>, t: nat, failures: seq<nat>)
    ensures Shows(red, red, multiset{t}, multiset{}, failures, failures + [t])
  {
    assert multiset(failures + [t]) == multiset(failures) + multiset{t};
  }

  predicate Steps<P>(plan: Plan<P>, s: State, k: nat, c: Choice, s': State) {
    k < |s.workers| && InPlan(plan, s.workers[k]) && Act(plan, s, k, c) == Some(s')
  }

  predicate Ends(w: Worker) {
    w.At? && w.phase == Running
  }

  predicate Reports(w: Worker) {
    w.At? && w.phase.Holding? && w.phase.outcome != Green
  }

  lemma StepUpdates<P>(plan: Plan<P>, s: State, k: nat, c: Choice, s': State)
    requires Steps(plan, s, k, c, s')
    ensures k < |s'.workers| && s'.workers == s.workers[k := s'.workers[k]]
  {}

  lemma EndShows<P>(plan: Plan<P>, s: State, k: nat, c: Choice, s': State)
    requires Steps(plan, s, k, c, s') && Ends(s.workers[k])
    ensures k < |s'.workers|
    ensures Shows(Sum(s.events, RedEnd), Sum(s'.events, RedEnd), Unreported(plan, s.workers[k]),
              Unreported(plan, s'.workers[k]), s.failures, s'.failures)
  {
    var w := s.workers[k];
    SumSnoc(s.events, Finished(SuiteAt(plan, w), c.outcome), RedEnd);
    assert s'.workers[k] == w.(phase := Ended(c.outcome));
    Seen(Sum(s.events, RedEnd), Unreported(plan, s'.workers[k]), s.failures);
  }

  lemma ReportShows<P>(plan: Plan<P>, s: State, k: nat, c: Choice, s': State)
    requires Steps(plan, s, k, c, s') && Reports(s.workers[k])
    ensures k < |s'.workers|
    ensures Shows(Sum(s.events, RedEnd), Sum(s'.events, RedEnd), Unreported(plan, s.workers[k]),
              Unreported(plan, s'.workers[k]), s.failures, s'.failures)
  {
    var w := s.workers[k];
    assert s'.workers[k] == w.(phase := Failing(w.phase.outcome));
    Reported(Sum(s.events, RedEnd), SuiteAt(plan, w), s.failures);
  }

  lemma OtherWorker<P>(plan: Plan<P>, s: State, k: nat, c: Choice, s': State)
    requires Steps(plan, s, k, c, s') && !Ends(s.workers[k]) && !Reports(s.workers[k])
    ensures k < |s'.workers| && Unreported(plan, s'.workers[k]) == Unreported(plan, s.workers[k])
  {
    var w := s.workers[k];
    if w.At? && w.phase.Ended? { assert s'.workers[k] == w.(phase := Holding(w.phase.outcome)); }
  }

  lemma OtherEvents<P>(plan: Plan<P>, s: State, k: nat, c: Choice, s': State)
    requires Steps(plan, s, k, c, s') && !Ends(s.workers[k]) && !Reports(s.workers[k])
    ensures s'.failures == s.failures && Sum(s'.events, RedEnd) == Sum(s.events, RedEnd)
  {
    var w := s.workers[k];
    if w.At? && w.phase == Spawn { SumSnocEmpty(s.events, Started(SuiteAt(plan, w)), RedEnd); }
    if w.At? && w.phase.Holding? { SumSnocEmpty(s.events, Banked(SuiteAt(plan, w), c.write), RedEnd); }
  }

  /** A step moves a red end from its event to its worker, from there to the failures, or nothing. */
  lemma StepShows<P>(plan: Plan<P>, s: State, k: nat, c: Choice, s': State)
    requires Steps(plan, s, k, c, s')
    ensures k < |s'.workers| && s'.workers == s.workers[k := s'.workers[k]]
    ensures Shows(Sum(s.events, RedEnd), Sum(s'.events, RedEnd), Unreported(plan, s.workers[k]),
              Unreported(plan, s'.workers[k]), s.failures, s'.failures)
  {
    StepUpdates(plan, s, k, c, s');
    if Ends(s.workers[k]) {
      EndShows(plan, s, k, c, s');
    } else if Reports(s.workers[k]) {
      ReportShows(plan, s, k, c, s');
    } else {
      OtherWorker(plan, s, k, c, s');
      OtherEvents(plan, s, k, c, s');
      Unchanged(Sum(s.events, RedEnd), Unreported(plan, s.workers[k]), s.failures);
    }
  }

  lemma Balance<I>(red: multiset<I>, red': multiset<I>, failed: multiset<I>, failed': multiset<I>, held: multiset<I>,
      held': multiset<I>, one: multiset<I>, one': multiset<I>)
    requires red == failed + held && held' + one == held + one' && red' + one + failed == red + one' + failed'
    ensures red' == failed' + held'
  {
    assert red' + (one + failed) == failed + held + one' + failed' == failed + (held' + one) + failed'
      == failed' + held' + (one + failed);
    CancelRight(red', failed' + held', one + failed);
  }

  lemma StepAccounted<P>(plan: Plan<P>, s: State, k: nat, c: Choice, s': State)
    requires Steps(plan, s, k, c, s') && Accounted(plan, s)
    ensures Accounted(plan, s')
  {
    StepShows(plan, s, k, c, s');
    var f := (w: Worker) => Unreported(plan, w);
    SumUpdate(s.workers, k, s'.workers[k], f);
    Balance(Sum(s.events, RedEnd), Sum(s'.events, RedEnd), multiset(s.failures), multiset(s'.failures),
      Sum(s.workers, f), Sum(s'.workers, f), f(s.workers[k]), f(s'.workers[k]));
  }

  lemma {:induction false} RunAccounted<P>(plan: Plan<P>, workers: nat, moves: seq<Move>)
    requires Run(plan, workers, moves).Some?
    ensures Accounted(plan, Run(plan, workers, moves).value)
  {
    if moves == [] {
      NothingHeld(plan, Init(workers).workers);
    } else {
      var m, front := moves[|moves| - 1], moves[..|moves| - 1];
      RunAccounted(plan, workers, front);
      StepAccounted(plan, Run(plan, workers, front).value, m.k, m.c, Run(plan, workers, moves).value);
    }
  }

  /** When a lane is over, its failures are exactly the suites that did not end green, each as often. */
  lemma FailuresAreExact<P>(plan: Plan<P>, workers: nat, moves: seq<Move>)
    requires Run(plan, workers, moves).Some? && Over(Run(plan, workers, moves).value)
    ensures var s := Run(plan, workers, moves).value; multiset(s.failures) == Sum(s.events, RedEnd)
  {
    RunAccounted(plan, workers, moves);
    NothingHeld(plan, Run(plan, workers, moves).value.workers);
  }
}
