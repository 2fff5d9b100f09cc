/** The schedules a lane can be given, and what a passing lane means under each of them. */
module LaneSchedule {
  import opened Text
  import opened Lane
  import opened Scheduler
  import opened Ledger

  datatype Schedule = Schedule(groups: nat, threads: Option<nat>)

  /** The variables that tune the deterministic lane, where they are set. */
  datatype DetEnv = DetEnv(serial: Option<string>, groups: Option<string>, threads: Option<string>)

  const SERIAL := Schedule(1, None)
  const T2 := Schedule(1, Some(4))
  const USIZE_MAX: nat := 0xFFFF_FFFF_FFFF_FFFF

  /** An unsigned decimal number, with an optional plus sign, that fits a machine word. */
  function ParseCount(text: string): Option<nat> {
    var digits := if |text| > 1 && text[0] == '+' then text[1..] else text;
    if digits == "" || !AllDigits(digits) || Value(digits) > USIZE_MAX then None else Some(Value(digits))
  }

  /** The number a variable holds, if it is at least 1. */
  function AtLeastOne(text: Option<string>, otherwise: nat): nat {
    if text.None? then otherwise
    else
      match ParseCount(text.value)
      case Some(n) => if n >= 1 then n else otherwise
      case None => otherwise
  }

  function DetSchedule(e: DetEnv): (s: Schedule)
    ensures s.groups >= 1 && (s.threads.Some? ==> s.threads.value >= 1)
  {
    if e.serial == Some("1") then SERIAL else Schedule(AtLeastOne(e.groups, 3), Some(AtLeastOne(e.threads, 4)))
  }

  /** A number written into a variable is read, with or without a plus sign, unless it is 0 or too large. */
  lemma WrittenIsRead(n: nat, otherwise: nat)
    ensures var read := if 1 <= n <= 18446744073709551615 then n else otherwise;
      AtLeastOne(Some(Digits(n)), otherwise) == read && AtLeastOne(Some("+" + Digits(n)), otherwise) == read
  {
    ValueOfDigits(n);
    assert Digits(n)[0] != '+' && ("+" + Digits(n))[1..] == Digits(n);
  }

  lemma GroupsAreRead(e: DetEnv, n: nat)
    requires e.serial != Some("1") && e.groups == Some(Digits(n))
    ensures DetSchedule(e).groups == if 1 <= n <= 18446744073709551615 then n else 3
  {
    WrittenIsRead(n, 3);
  }

  /** Anything else than digits, with or without a plus sign before them, counts as not set. */
  lemma UnreadableIsUnset(text: string, otherwise: nat)
    requires text in {"", "+"} || (exists i :: 0 < i < |text| && !('0' <= text[i] <= '9'))
      || (text != "" && text[0] != '+' && !('0' <= text[0] <= '9'))
    ensures AtLeastOne(Some(text), otherwise) == otherwise == AtLeastOne(None, otherwise)
  {
    if |text| > 1 && text[0] == '+' && exists i :: 0 < i < |text| && !('0' <= text[i] <= '9') {
      var i :| 0 < i < |text| && !('0' <= text[i] <= '9');
      assert text[1..][i - 1] == text[i];
    }
  }

  /** One group and no thread limit when the serial variable is 1; otherwise the groups and threads that are
      set, by default 3 and 4. The other lane has one group and 4 threads. */
  lemma SchedulesAre(e: DetEnv)
    ensures e.serial == Some("1") ==> DetSchedule(e).groups == 1 && DetSchedule(e).threads == None
    ensures e.serial != Some("1") ==>
      DetSchedule(e).groups == AtLeastOne(e.groups, 3) && DetSchedule(e).threads == Some(AtLeastOne(e.threads, 4))
    ensures IsSerial(SERIAL) && !IsSerial(T2) && T2.groups == 1 && T2.threads == Some(4)
    ensures Built(SERIAL) && Built(T2) && Built(DetSchedule(e))
  {}

  /** Every schedule a lane is run with. */
  ghost predicate Built(s: Schedule) {
    s == SERIAL || s == T2 || exists e :: s == DetSchedule(e)
  }

  function WorkerCount<P>(schedule: Schedule, plan: Plan<P>): nat {
    if schedule.groups < |plan.groups| then schedule.groups else |plan.groups|
  }

  lemma BuiltHasWorkers<P>(schedule: Schedule, plan: Plan<P>)
    requires Built(schedule) && PlanOk(plan) && plan.pkgs != []
    ensures WorkerCount(schedule, plan) >= 1
  {
    var g := GroupOfSuite(plan, 0);
  }

  predicate IsSerial(schedule: Schedule) {
    schedule.groups <= 1 && schedule.threads.None?
  }

  lemma PassedSerially(events: seq<Event>, n: nat)
    requires exists outcome, write :: SerialFrom(n, 0, outcome, write) == (true, events)
    ensures AllGreen(events, Positions(n))
  {
    var outcome, write :| SerialFrom(n, 0, outcome, write) == (true, events);
    assert Stands([], Positions(n), 0, Check) && [] + events == events;
    SerialPassIsGreen(n, 0, outcome, write, []);
  }

  /** A lane over these suites ends without error, with these events: the serial loop under some outcomes,
      or an overlapped run to its end without failures. */
  ghost predicate Passes<P(!new)>(schedule: Schedule, plan: Plan<P>, events: seq<Event>) {
    if IsSerial(schedule) then exists outcome, write :: SerialFrom(|plan.pkgs|, 0, outcome, write) == (true, events)
    else exists moves :: EndsWell(plan, WorkerCount(schedule, plan), moves, events)
  }

  ghost predicate EndsWell<P>(plan: Plan<P>, workers: nat, moves: seq<Move>, events: seq<Event>) {
    && Run(plan, workers, moves).Some?
    && var s := Run(plan, workers, moves).value; Over(s) && s.failures == [] && s.events == events
  }

  /** Under every schedule the code builds, a lane that passes ran each of its suites exactly once, green. */
  lemma PassingRanEverything<P(!new)>(schedule: Schedule, plan: Plan<P>, events: seq<Event>, t: nat)
    requires Built(schedule) && PlanOk(plan) && t < |plan.pkgs| && Passes(schedule, plan, events)
    ensures RanOnceGreen(events, t)
  {
    if IsSerial(schedule) {
      PassedSerially(events, |plan.pkgs|);
      SerialRanOnce(events, |plan.pkgs|, t);
    } else {
      var moves :| EndsWell(plan, WorkerCount(schedule, plan), moves, events);
      BuiltHasWorkers(schedule, plan);
      OkMeansAllGreen(plan, WorkerCount(schedule, plan), moves, t);
    }
  }

  /** ... and each of them was given to the ledger. */
  lemma PassingBankedEverything<P(!new)>(schedule: Schedule, plan: Plan<P>, events: seq<Event>, t: nat)
    requires Built(schedule) && PlanOk(plan) && t < |plan.pkgs| && Passes(schedule, plan, events)
    ensures exists b :: 0 <= b < |events| && events[b].Banked? && events[b].suite == t
  {
    if IsSerial(schedule) {
      PassedSerially(events, |plan.pkgs|);
      assert events[3 * t] == Started(t) && events[3 * t + 2].Banked?;
    } else {
      var moves :| EndsWell(plan, WorkerCount(schedule, plan), moves, events);
      BuiltHasWorkers(schedule, plan);
      OkMeansAllBanked(plan, WorkerCount(schedule, plan), moves, t);
    }
  }

  lemma SerialRanOnce(events: seq<Event>, n: nat, t: nat)
    requires AllGreen(events, Positions(n)) && t < n
    ensures RanOnceGreen(events, t)
  {
    assert events[3 * t] == Started(t) && events[3 * t + 1] == Finished(t, Green);
    forall b | 0 <= b < |events| && events[b] in {Started(t), Finished(t, Red), Finished(t, SpawnError)}
      ensures b == 3 * t
    {
      var k := b / 3;
      assert k < n && b in {3 * k, 3 * k + 1, 3 * k + 2};
      assert events[3 * k] == Started(k) && events[3 * k + 1] == Finished(k, Green) && events[3 * k + 2].Banked?;
    }
  }
}
