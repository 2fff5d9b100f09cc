/** The supervised browser session with its crash-loop breaker. */
module Browser {

  const MAX_FAILURES: nat := 3

  /** How an operation on the page ends. */
  datatype Op = Fine | LaunchFault | OtherFault

  datatype Reply = Done | Failed | CrashLoop

  /** The session, the consecutive launch failures, and how often a launch was attempted. */
  datatype State = State(session: bool, failures: nat, attempts: nat)

  datatype Action = RunOp(launches: bool, op: Op) | Prewarm(launches: bool) | Close

  /** Launch a session if there is none, unless the breaker is open; `launches` says whether it comes up. */
  function Launched(s: State, launches: bool): State {
    if s.session || s.failures >= MAX_FAILURES then s
    else if launches then State(true, 0, s.attempts + 1)
    else State(false, s.failures + 1, s.attempts + 1)
  }

  /** The breaker is open: a launch is refused without being attempted. */
  predicate Refuses(s: State) {
    !s.session && s.failures >= MAX_FAILURES
  }

  function Next(persistent: bool, s: State, a: Action): State {
    match a
    case Close => s.(session := false)
    case Prewarm(launches) => Launched(s, launches)
    case RunOp(launches, op) =>
      var up := Launched(s, launches);
      if !up.session || op == Fine || (persistent && op != LaunchFault) then up else up.(session := false)
  }

  class Supervisor {
    const persistent: bool
    var session: bool
    var failures: nat
    ghost var attempts: nat

    ghost function Snapshot(): State
      reads this
    {
      State(session, failures, attempts)
    }

    constructor (persistent: bool)
      ensures this.persistent == persistent && Snapshot() == State(false, 0, 0)
    {
      this.persistent, session, failures, attempts := persistent, false, 0, 0;
    }

    method Launch(launches: bool) returns (r: Reply)
      requires !session
      modifies this
      ensures Snapshot() == Launched(old(Snapshot()), launches)
      ensures r == if old(failures) >= MAX_FAILURES then CrashLoop else if launches then Done else Failed
      ensures r == Done ==> session && failures == 0 && attempts == old(attempts) + 1
      ensures r == Failed ==> !session && failures == old(failures) + 1 && attempts == old(attempts) + 1
      ensures r == CrashLoop ==> Snapshot() == old(Snapshot())
    {
      if failures >= MAX_FAILURES {
        return CrashLoop;
      }
      attempts := attempts + 1;
      if launches {
        failures := 0;
        session := true;
        r := Done;
      } else {
        failures := failures + 1;
        r := Failed;
      }
    }

    method Prewarm(launches: bool) returns (r: Reply)
      modifies this
      ensures Snapshot() == Next(persistent, old(Snapshot()), Action.Prewarm(launches))
      ensures r == Done <==> session
      ensures r == CrashLoop <==> Refuses(old(Snapshot()))
    {
      r := Done;
      if !session {
        r := Launch(launches);
      }
    }

    method RunOp(launches: bool, op: Op) returns (r: Reply)
      modifies this
      ensures Snapshot() == Next(persistent, old(Snapshot()), Action.RunOp(launches, op))
      ensures r == Done <==> (old(session) || (launches && r != CrashLoop)) && op == Fine
      ensures r == CrashLoop <==> Refuses(old(Snapshot()))
    {
      if !session {
        r := Launch(launches);
        if r != Done {
          return;
        }
      }
      r := if op == Fine then Done else Failed;
      if op != Fine && (!persistent || op == LaunchFault) {
        session := false;
      }
    }

    method Close()
      modifies this`session
      ensures Snapshot() == Next(persistent, old(Snapshot()), Action.Close)
    {
      session := false;
    }
  }

  function Run(persistent: bool, actions: seq<Action>): State {
    if actions == [] then State(false, 0, 0)
    else Next(persistent, Run(persistent, actions[..|actions| - 1]), actions[|actions| - 1])
  }

  // ---- What the count means ----

  /** The launches a run attempted, each with whether it came up, and whether a session is up at the end. */
  datatype Story = Story(tries: seq<bool>, up: bool)

  predicate ThreeFailed(tries: seq<bool>) {
    |tries| >= 3 && !tries[|tries| - 1] && !tries[|tries| - 2] && !tries[|tries| - 3]
  }

  /** A fault that costs the session. */
  predicate Fatal(persistent: bool, a: Action) {
    a.RunOp? && (a.op == LaunchFault || (a.op == OtherFault && !persistent))
  }

  /** Without a session, an operation or a prewarm attempts a launch, unless the last three failed. */
  function Told(persistent: bool, actions: seq<Action>): Story {
    if actions == [] then Story([], false)
    else
      var s, a := Told(persistent, actions[..|actions| - 1]), actions[|actions| - 1];
      if a.Close? then Story(s.tries, false)
      else if s.up then Story(s.tries, !Fatal(persistent, a))
      else if ThreeFailed(s.tries) then s
      else Story(s.tries + [a.launches], a.launches && !Fatal(persistent, a))
  }

  /** How many launches failed since the last one that came up. */
  function FailedInARow(tries: seq<bool>): nat {
    if tries == [] || tries[|tries| - 1] then 0 else FailedInARow(tries[..|tries| - 1]) + 1
  }

  lemma RowOfPrefix(tries: seq<bool>, k: nat)
    requires 0 < k <= |tries|
    ensures FailedInARow(tries[..k]) == if tries[k - 1] then 0 else FailedInARow(tries[..k - 1]) + 1
  {
    assert tries[..k][..k - 1] == tries[..k - 1];
  }

  lemma ThreeInARow(tries: seq<bool>)
    ensures ThreeFailed(tries) <==> FailedInARow(tries) >= 3
  {
    var n := |tries|;
    assert tries[..n] == tries;
    if n >= 1 { RowOfPrefix(tries, n); }
    if n >= 2 { RowOfPrefix(tries, n - 1); }
    if n >= 3 { RowOfPrefix(tries, n - 2); }
  }

  /** In every run the failure count is the number of failed launches since the last one that came up. */
  lemma {:induction false} CountIsFailedInARow(persistent: bool, actions: seq<Action>)
    ensures var story := Told(persistent, actions);
      Run(persistent, actions) == State(story.up, FailedInARow(story.tries), |story.tries|)
    ensures Told(persistent, actions).up ==> FailedInARow(Told(persistent, actions).tries) == 0
  {
    if actions != [] {
      var front, a := actions[..|actions| - 1], actions[|actions| - 1];
      CountIsFailedInARow(persistent, front);
      var tries := Told(persistent, front).tries;
      ThreeInARow(tries);
      if !a.Close? { assert (tries + [a.launches])[..|tries|] == tries; }
    }
  }

  /** The breaker is open exactly when the last three launches failed; then every later call is refused
      and none attempts a launch. */
  lemma BreakerOpensExactly(persistent: bool, actions: seq<Action>, more: seq<Action>)
    ensures Refuses(Run(persistent, actions)) <==> ThreeFailed(Told(persistent, actions).tries)
    ensures ThreeFailed(Told(persistent, actions).tries) ==>
      var s := Run(persistent, actions + more); Refuses(s) && s.attempts == Run(persistent, actions).attempts
  {
    CountIsFailedInARow(persistent, actions);
    ThreeInARow(Told(persistent, actions).tries);
    if Refuses(Run(persistent, actions)) {
      SessionMeansNoFailures(persistent, actions);
      BreakerStaysOpen(persistent, actions, more);
    }
  }

  /** However often a prewarm fails, a launch is attempted three times and no more. */
  lemma {:induction false} FailingPrewarms(persistent: bool, n: nat)
    ensures var tried := if n <= 3 then n else 3;
      Run(persistent, seq(n, _ => Prewarm(false))) == State(false, tried, tried)
  {
    if n > 0 {
      FailingPrewarms(persistent, n - 1);
      assert seq(n, _ => Prewarm(false))[..n - 1] == seq(n - 1, _ => Prewarm(false));
    }
  }

  /** In every run a live session means no counted failure, and the count never passes the limit. */
  lemma {:induction false} SessionMeansNoFailures(persistent: bool, actions: seq<Action>)
    ensures var s := Run(persistent, actions); (s.session ==> s.failures == 0) && s.failures <= MAX_FAILURES
  {
    if actions != [] {
      SessionMeansNoFailures(persistent, actions[..|actions| - 1]);
    }
  }

  /** Once the limit is reached no launch is ever attempted again, and no session comes back. */
  lemma {:induction false} BreakerStaysOpen(persistent: bool, actions: seq<Action>, more: seq<Action>)
    requires Run(persistent, actions).failures == MAX_FAILURES
    ensures Run(persistent, actions + more) == Run(persistent, actions)
  {
    if more == [] {
      assert actions + more == actions;
    } else {
      var front := more[..|more| - 1];
      BreakerStaysOpen(persistent, actions, front);
      assert (actions + more)[..|actions + more| - 1] == actions + front;
      SessionMeansNoFailures(persistent, actions);
    }
  }

  /** A session of a persistent supervisor outlives every operation but one that faults on launch, and
      every prewarm. */
  lemma PersistentSessionStays(actions: seq<Action>, a: Action)
    requires Run(true, actions).session
    ensures Next(true, Run(true, actions), a).session <==> a != Close && !(a.RunOp? && a.op == LaunchFault)
  {}
}
